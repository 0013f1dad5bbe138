/** The second generation of the library front end (`src/rusimg.rs`). It
    differs from the current front end in its signatures: the tag set has
    no `Jpg`, `resize` takes a whole percentage below 256, `trim` takes the
    origin and size as four numbers, and `grayscale` reports `Ok(())`. Its
    save-path rule (the trait's `save_filepath`) is `Images.SaveFilepath`.
    `src/rusimg.rs` declares handle modules of its own
    (`src/rusimg/{bmp,jpeg,png,webp}.rs`, with an older trait and plain
    message errors); this front end forwards to the current handles in
    their place, so what it states about the handles is about the current
    ones. The older BMP and PNG handles are modelled separately in
    `LegacyBmp` and `LegacyPng`; the older JPEG and WebP handles are not
    part of this model. */
module LegacyRusimg {
  import opened Wrappers
  import opened Paths
  import opened Images
  import Rusimg
  import BmpFormat
  import JpegFormat
  import PngFormat
  import WebpFormat

  /** The tags of this generation. */
  datatype OldExtension = Bmp | Jpeg | Png | Webp | ExternalFormat(name: string) {
    /** `Display`. */
    function Display(): string {
      match this
      case Bmp => "bmp"
      case Jpeg => "jpeg"
      case Png => "png"
      case Webp => "webp"
      case ExternalFormat(s) => s
    }
  }

  /** The current tag with the same meaning. */
  function Lift(e: OldExtension): Rusimg.Extension {
    match e
    case Bmp => Rusimg.Bmp
    case Jpeg => Rusimg.Jpeg
    case Png => Rusimg.Png
    case Webp => Rusimg.Webp
    case ExternalFormat(s) => Rusimg.ExternalFormat(s)
  }

  /** The tag of this generation for a current tag; `Jpg` becomes `Jpeg`. */
  function Demote(e: Rusimg.Extension): OldExtension {
    match e
    case Bmp => Bmp
    case Jpg => Jpeg
    case Jpeg => Jpeg
    case Png => Png
    case Webp => Webp
    case ExternalFormat(s) => ExternalFormat(s)
  }

  /** Every tag of this generation displays as its current counterpart,
      distinct tags stay distinct, and only the current `Jpg` tag has no
      counterpart of its own. */
  lemma TagsCorrespond(e: OldExtension, e2: OldExtension, c: Rusimg.Extension)
    ensures Lift(e).Display() == e.Display() && Demote(Lift(e)) == e
    ensures Lift(e) != Rusimg.Jpg
    ensures Lift(e) == Lift(e2) ==> e == e2
    ensures c != Rusimg.Jpg ==> Lift(Demote(c)) == c
  {
  }

  /** The fields of a `RusImg` of this generation. */
  datatype OldImgState = OldImgState(extension: OldExtension, data: Rusimg.HandleState) {
    /** The same object seen through the current front end. */
    function Current(): Rusimg.ImgState {
      Rusimg.ImgState(Lift(extension), data)
    }

    predicate Valid() {
      Current().Valid()
    }

    /** `get_image_size` asks the handle for its stored size. */
    function GetImageSize(): Result<ImgSize, RusimgError> {
      Ok(data.Size())
    }

    /** `resize(ratio: u8)`. */
    function Resize(ratio: nat): Step<OldImgState, ImgSize>
      requires ratio < 256
    {
      var st := data.Resize(ratio as real);
      Step(this.(data := st.state), st.result)
    }

    /** `trim(x, y, w, h)`, passed on as `((x, y), (w, h))`. */
    function Trim(x: nat, y: nat, w: nat, h: nat): Step<OldImgState, ImgSize>
      requires RectInU32(Rect(x, y, w, h))
    {
      var st := data.Trim(Rect(x, y, w, h));
      Step(this.(data := st.state), st.result)
    }

    function Grayscale(): Step<OldImgState, ()> {
      Step(this.(data := data.Grayscale()), Ok(()))
    }

    function Compress(quality: Option<real>, codec: CodecOutcome): Step<OldImgState, ()> {
      var st := data.Compress(quality, codec);
      Step(this.(data := st.state), st.result)
    }

    /** `convert`: build the new handle first, then replace tag and handle. */
    function Convert(target: OldExtension, features: set<Rusimg.Feature>, codec: CodecOutcome): Step<OldImgState, ()> {
      var st := Current().Convert(Lift(target), features, codec);
      match st.result
      case Err(e) => Step(this, Err(e))
      case Ok(_) => Step(OldImgState(target, st.state.data), Ok(()))
    }

    /** `save_image`: the handle saves, then output path and sizes are
        reported. */
    function SaveImage(dest: Option<Path>, fs: FsView, io: WriteOutcome): (OldImgState, Result<SaveStatus, RusimgError>, Option<FileWrite>) {
      var sv := Current().SaveImage(dest, fs, io);
      (this.(data := sv.state.data), sv.result, sv.written)
    }
  }

  /** `open_image`: the same steps as the current front end, with the tags of
      this generation. */
  function Opened(path: Path, read: Rusimg.FileRead, sniffed: Result<Rusimg.ImageFormat, string>, decoded: Decoded,
                  features: set<Rusimg.Feature>): Result<OldImgState, RusimgError> {
    var s :- Rusimg.Opened(path, read, sniffed, decoded, features);
    Ok(OldImgState(Demote(s.extension), s.data))
  }

  /** Opening yields a valid image tagged with the sniffed format that holds
      the input path and size; it fails on the first failing step: reading,
      sniffing, an unknown format or a disabled feature, then decoding. */
  lemma OpenImageDispatch(path: Path, read: Rusimg.FileRead, sniffed: Result<Rusimg.ImageFormat, string>,
                          decoded: Decoded, features: set<Rusimg.Feature>)
    ensures var r := Opened(path, read, sniffed, decoded, features);
      && (read.FileUnreadable? ==> r == Err(read.error))
      && (read.FileContent? && sniffed.Err? ==> r == Err(FailedToOpenImage(sniffed.error)))
      && (read.FileContent? && sniffed.Ok? && sniffed.value.FormatOther? ==> r == Err(UnsupportedFileExtension))
      && (r.Ok? <==> read.FileContent? && sniffed.Ok? && !sniffed.value.FormatOther?
                     && Rusimg.FeatureFor(Rusimg.TagOf(sniffed.value)).value in features && decoded.DecodedImage?)
      && (r.Ok? ==> r.value.Valid() && Lift(r.value.extension) == Rusimg.TagOf(sniffed.value)
                    && r.value.data.SourcePath() == path && r.value.data.MetadataSrc() == read.size
                    && r.value.data.DestinationPath().None?)
  {
    Rusimg.OpenImageDispatch(path, read, sniffed, decoded, features);
    var r := Rusimg.Opened(path, read, sniffed, decoded, features);
    if r.Ok? {
      assert Lift(Demote(r.value.extension)) == r.value.extension;
    }
  }

  /** `convert` either fails and changes nothing, or installs a valid handle
      of the target format that keeps the source path, the source size and
      the image; it fails exactly for an external format, a disabled
      feature, or a failed PNG encoding. */
  lemma ConvertCommitsOnlyOnSuccess(s: OldImgState, target: OldExtension, features: set<Rusimg.Feature>,
                                    codec: CodecOutcome)
    ensures var st := s.Convert(target, features, codec);
      && (st.result.Err? <==> target.ExternalFormat? || Rusimg.FeatureFor(Lift(target)).value !in features
                              || (target == Png && codec.CodecFailed?))
      && (st.result.Err? ==> st.state == s)
      && (target.ExternalFormat? ==> st.result == Err(UnsupportedFileExtension))
      && (st.result.Ok? ==>
            && st.state.extension == target && st.state.Valid()
            && st.state.data.SourcePath() == s.data.SourcePath()
            && st.state.data.MetadataSrc() == s.data.MetadataSrc()
            && st.state.data.Image() == s.data.Image()
            && st.state.data.DestinationPath().None?)
  {
    Rusimg.ConvertCommitsOnlyOnSuccess(s.Current(), Lift(target), features, codec);
  }

  /** Every operation keeps a valid image valid; a trim reports the size the
      trim rule gives, which is the size now stored; `grayscale` never
      fails; a resize by 100 percent keeps the size. */
  lemma OperationsKeepValid(s: OldImgState, ratio: nat, x: nat, y: nat, w: nat, h: nat, q: Option<real>,
                            c: CodecOutcome, dest: Option<Path>, fs: FsView, io: WriteOutcome)
    requires s.Valid() && ratio < 256 && RectInU32(Rect(x, y, w, h))
    ensures ScalesInProportion(s.data.Size().width, s.data.Size().height, ratio as real) ==> s.Resize(ratio).state.Valid()
    ensures s.Trim(x, y, w, h).state.Valid()
    ensures s.Grayscale().state.Valid() && s.Grayscale().result == Ok(())
    ensures s.Compress(q, c).state.Valid() && s.SaveImage(dest, fs, io).0.Valid()
    ensures s.Trim(x, y, w, h).result.Ok? ==> s.Trim(x, y, w, h).result.value == s.Trim(x, y, w, h).state.data.Size()
  {
    Rusimg.OperationsKeepValid(s.Current(), ratio as real, Rect(x, y, w, h), q, c, dest, fs, io);
  }

  /** A resize by 100 percent keeps a valid image valid and its size. */
  lemma ResizeByHundredKeeps(s: OldImgState)
    requires s.Valid()
    ensures s.Resize(100).state.Valid() && s.Resize(100).state.data.Size() == s.data.Size()
  {
    ScaleByHundredKeeps(s.data.Size().width);
    ScaleByHundredKeeps(s.data.Size().height);
    Rusimg.ResizeInProportionKeepsValid(s.data, 100.0);
  }


  /** `save_image` fails exactly when the handle's save does, changes
      nothing then, and otherwise reports the path chosen by the save-path
      rule, the input size and the size of the file just written. */
  lemma SaveImageReports(s: OldImgState, dest: Option<Path>, fs: FsView, io: WriteOutcome)
    ensures var (st, r, _) := s.SaveImage(dest, fs, io);
      var sp := SaveFilepath(s.data.SourcePath(), dest, s.data.SaveExtension(), fs);
      && (r.Ok? <==> sp.Ok? && io.Written?)
      && (r.Err? ==> st == s)
      && (r.Ok? ==> r.value == SaveStatus(Some(sp.value), s.data.MetadataSrc(), Some(io.size)))
  {
    Rusimg.SaveImageReports(s.Current(), dest, fs, io);
  }

  /** A `RusImg` of this generation: a tag and a boxed handle. */
  class RusImg {
    var extension: OldExtension
    var data: Rusimg.HandleRef

    function State(): OldImgState
      reads this, data.Obj()
    {
      OldImgState(extension, data.State())
    }

    constructor (extension: OldExtension, data: Rusimg.HandleRef)
      ensures this.extension == extension && this.data == data
    {
      this.extension := extension;
      this.data := data;
    }

    /** `open_image`: the file is opened into the same handles as in the
        current front end. */
    static method OpenImage(path: Path, read: Rusimg.FileRead, sniffed: Result<Rusimg.ImageFormat, string>,
                            decoded: Decoded, features: set<Rusimg.Feature>) returns (r: Result<RusImg, RusimgError>)
      ensures r.Err? ==> Opened(path, read, sniffed, decoded, features) == Err(r.error)
      ensures r.Ok? ==> fresh(r.value) && fresh(r.value.data.Obj())
                        && Opened(path, read, sniffed, decoded, features) == Ok(r.value.State())
    {
      var opening := Rusimg.RusImg.OpenImage(path, read, sniffed, decoded, features);
      if opening.Err? {
        return Err(opening.error);
      }
      var img := new RusImg(Demote(opening.value.extension), opening.value.data);
      r := Ok(img);
    }

    method GetImageSize() returns (r: Result<ImgSize, RusimgError>)
      ensures r == State().GetImageSize()
    {
      match data
      case BmpRef(h) => r := Ok(h.size);
      case JpegRef(h) => r := Ok(h.size);
      case PngRef(h) => r := Ok(ImgSize(h.width, h.height));
      case WebpRef(h) => r := Ok(ImgSize(h.width, h.height));
    }

    method Resize(ratio: nat) returns (r: Result<ImgSize, RusimgError>)
      requires ratio < 256
      modifies data.Obj()
      ensures Step(State(), r) == old(State()).Resize(ratio)
    {
      match data
      case BmpRef(h) => r := h.Resize(ratio as real);
      case JpegRef(h) => r := h.Resize(ratio as real);
      case PngRef(h) => r := h.Resize(ratio as real);
      case WebpRef(h) => r := h.Resize(ratio as real);
    }

    method Trim(x: nat, y: nat, w: nat, h: nat) returns (r: Result<ImgSize, RusimgError>)
      requires RectInU32(Rect(x, y, w, h))
      modifies data.Obj()
      ensures Step(State(), r) == old(State()).Trim(x, y, w, h)
    {
      var t := Rect(x, y, w, h);
      match data
      case BmpRef(img) => r := img.Trim(t);
      case JpegRef(img) => r := img.Trim(t);
      case PngRef(img) => r := img.Trim(t);
      case WebpRef(img) => r := img.Trim(t);
    }

    method Grayscale() returns (r: Result<(), RusimgError>)
      modifies data.Obj()
      ensures Step(State(), r) == old(State()).Grayscale()
    {
      match data {
        case BmpRef(h) => h.Grayscale();
        case JpegRef(h) => h.Grayscale();
        case PngRef(h) => h.Grayscale();
        case WebpRef(h) => h.Grayscale();
      }
      r := Ok(());
    }

    method Compress(quality: Option<real>, codec: CodecOutcome) returns (r: Result<(), RusimgError>)
      modifies data.Obj()
      ensures Step(State(), r) == old(State()).Compress(quality, codec)
    {
      match data
      case BmpRef(h) => r := h.Compress(quality);
      case JpegRef(h) => r := h.Compress(quality, codec);
      case PngRef(h) => r := h.Compress(quality, codec);
      case WebpRef(h) => r := h.Compress(quality);
    }

    method Convert(target: OldExtension, features: set<Rusimg.Feature>, codec: CodecOutcome)
      returns (r: Result<(), RusimgError>)
      modifies this
      ensures Step(State(), r) == old(State()).Convert(target, features, codec)
      ensures r.Ok? ==> fresh(data.Obj())
      ensures r.Err? ==> data == old(data)
    {
      var s := data.State();
      var dynamicImage, filepath, metadata := s.Image(), s.SourcePath(), s.MetadataSrc();
      var newImage: Rusimg.HandleRef;
      match target {
        case Bmp =>
          if Rusimg.BmpFeature !in features {
            return Err(UnsupportedFileExtension);
          }
          var h := BmpFormat.BmpImage.Import(dynamicImage, filepath, metadata);
          newImage := Rusimg.BmpRef(h.value);
        case Jpeg =>
          if Rusimg.JpegFeature !in features {
            return Err(UnsupportedFileExtension);
          }
          var h := JpegFormat.JpegImage.Import(dynamicImage, filepath, metadata);
          newImage := Rusimg.JpegRef(h.value);
        case Png =>
          if Rusimg.PngFeature !in features {
            return Err(UnsupportedFileExtension);
          }
          var h := PngFormat.PngImage.Import(dynamicImage, filepath, metadata, codec);
          if h.Err? {
            return Err(h.error);
          }
          newImage := Rusimg.PngRef(h.value);
        case Webp =>
          if Rusimg.WebpFeature !in features {
            return Err(UnsupportedFileExtension);
          }
          var h := WebpFormat.WebpImage.Import(dynamicImage, filepath, metadata);
          newImage := Rusimg.WebpRef(h.value);
        case ExternalFormat(_) =>
          return Err(UnsupportedFileExtension);
      }
      extension := target;
      data := newImage;
      r := Ok(());
    }

    method SaveImage(dest: Option<Path>, fs: FsView, io: WriteOutcome)
      returns (r: Result<SaveStatus, RusimgError>, written: Option<FileWrite>)
      modifies data.Obj()
      ensures (State(), r, written) == old(State()).SaveImage(dest, fs, io)
    {
      var saved: Result<(), RusimgError>;
      match data {
        case BmpRef(h) => saved, written := h.Save(dest, fs, io);
        case JpegRef(h) => saved, written := h.Save(dest, fs, io);
        case PngRef(h) => saved, written := h.Save(dest, fs, io);
        case WebpRef(h) => saved, written := h.Save(dest, fs, io);
      }
      if saved.Err? {
        return Err(saved.error), written;
      }
      var st := data.State();
      r := Ok(SaveStatus(st.DestinationPath(), st.MetadataSrc(), st.MetadataDest()));
    }
  }
}
