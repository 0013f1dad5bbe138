/** The library front end (`src/lib.rs`): the extension tag, opening a file
    into the handle of its sniffed format, and `RusImg`, which owns one
    handle and forwards the operations to it; `convert` replaces the handle
    by a new one of the target format. */
module Rusimg {
  import opened Wrappers
  import opened Paths
  import opened Images
  import PngFormat
  import JpegFormat
  import WebpFormat
  import BmpFormat

  /** The format tag. The command line tool also uses a `Jpg` tag (shown as
      `jpg`), which converts like `Jpeg`; the remaining tags are the
      library's `Extension`. */
  datatype Extension = Bmp | Jpg | Jpeg | Png | Webp | ExternalFormat(name: string) {
    /** `Display`. */
    function Display(): string {
      match this
      case Bmp => "bmp"
      case Jpg => "jpg"
      case Jpeg => "jpeg"
      case Png => "png"
      case Webp => "webp"
      case ExternalFormat(s) => s
    }
  }

  /** The built-in tags display as distinct non-empty names without a dot,
      so each can serve as a file extension and be told apart by it. */
  lemma BuiltinDisplays(e1: Extension, e2: Extension)
    requires !e1.ExternalFormat? && !e2.ExternalFormat?
    ensures e1.Display() != "" && '.' !in e1.Display()
    ensures e1.Display() == e2.Display() <==> e1 == e2
  {
  }

  /** What `image::guess_format` reports for a buffer. */
  datatype ImageFormat = FormatBmp | FormatJpeg | FormatPng | FormatWebP | FormatOther(name: string)

  /** The cargo features that compile a handle in. */
  datatype Feature = BmpFeature | JpegFeature | PngFeature | WebpFeature

  /** What reading the input file gives: its bytes and size, or the error
      of the step that failed (open, read or metadata). */
  datatype FileRead = FileContent(bytes: Bytes, size: nat) | FileUnreadable(error: RusimgError)

  /** The state of the boxed handle, whichever format it is. */
  datatype HandleState =
    | BmpH(bmp: BmpFormat.BmpState)
    | JpegH(jpeg: JpegFormat.JpegState)
    | PngH(png: PngFormat.PngState)
    | WebpH(webp: WebpFormat.WebpState)
  {
    predicate Valid() {
      match this
      case BmpH(s) => s.Valid()
      case JpegH(s) => s.Valid()
      case PngH(s) => s.Valid()
      case WebpH(s) => s.Valid()
    }

    /** `get_source_filepath`. */
    function SourcePath(): Path {
      match this
      case BmpH(s) => s.filepathInput
      case JpegH(s) => s.filepathInput
      case PngH(s) => s.filepathInput
      case WebpH(s) => s.filepathInput
    }

    /** `get_destination_filepath`. */
    function DestinationPath(): Option<Path> {
      match this
      case BmpH(s) => s.filepathOutput
      case JpegH(s) => s.filepathOutput
      case PngH(s) => s.filepathOutput
      case WebpH(s) => s.filepathOutput
    }

    /** `get_metadata_src().len()`. */
    function MetadataSrc(): nat {
      match this
      case BmpH(s) => s.metadataInput
      case JpegH(s) => s.metadataInput
      case PngH(s) => s.metadataInput
      case WebpH(s) => s.metadataInput
    }

    /** `get_metadata_dest()`, as a length. */
    function MetadataDest(): Option<nat> {
      match this
      case BmpH(s) => s.metadataOutput
      case JpegH(s) => s.metadataOutput
      case PngH(s) => s.metadataOutput
      case WebpH(s) => s.metadataOutput
    }

    /** `get_dynamic_image`. */
    function Image(): Image {
      match this
      case BmpH(s) => s.image
      case JpegH(s) => s.image
      case PngH(s) => s.image
      case WebpH(s) => s.image
    }

    /** `get_size`. */
    function Size(): ImgSize {
      match this
      case BmpH(s) => s.size
      case JpegH(s) => s.size
      case PngH(s) => ImgSize(s.width, s.height)
      case WebpH(s) => ImgSize(s.width, s.height)
    }

    /** The extension the handle saves under. */
    function SaveExtension(): string {
      match this
      case BmpH(_) => "bmp"
      case JpegH(s) => s.extensionStr
      case PngH(_) => "png"
      case WebpH(_) => "webp"
    }

    function Resize(ratio: real): Step<HandleState, ImgSize>
      requires ratio >= 0.0
    {
      match this
      case BmpH(s) => var st := s.Resize(ratio); Step(BmpH(st.state), st.result)
      case JpegH(s) => var st := s.Resize(ratio); Step(JpegH(st.state), st.result)
      case PngH(s) => var st := s.Resize(ratio); Step(PngH(st.state), st.result)
      case WebpH(s) => var st := s.Resize(ratio); Step(WebpH(st.state), st.result)
    }

    function Trim(t: Rect): Step<HandleState, ImgSize>
      requires RectInU32(t)
    {
      match this
      case BmpH(s) => var st := s.Trim(t); Step(BmpH(st.state), st.result)
      case JpegH(s) => var st := s.Trim(t); Step(JpegH(st.state), st.result)
      case PngH(s) => var st := s.Trim(t); Step(PngH(st.state), st.result)
      case WebpH(s) => var st := s.Trim(t); Step(WebpH(st.state), st.result)
    }

    function Grayscale(): HandleState {
      match this
      case BmpH(s) => BmpH(s.Grayscale())
      case JpegH(s) => JpegH(s.Grayscale())
      case PngH(s) => PngH(s.Grayscale())
      case WebpH(s) => WebpH(s.Grayscale())
    }

    /** `compress`; the codec outcome matters to PNG and JPEG only. */
    function Compress(quality: Option<real>, codec: CodecOutcome): Step<HandleState, ()> {
      match this
      case BmpH(s) => Step(this, Err(ImageFormatCannotBeCompressed))
      case JpegH(s) => var st := s.Compress(quality, codec); Step(JpegH(st.state), st.result)
      case PngH(s) => var st := s.Compress(quality, codec); Step(PngH(st.state), st.result)
      case WebpH(s) => Step(WebpH(s.Compress(quality)), Ok(()))
    }

    function Save(dest: Option<Path>, fs: FsView, io: WriteOutcome): Saved<HandleState> {
      match this
      case BmpH(s) => var sv := s.Save(dest, fs, io); Saved(BmpH(sv.state), sv.result, sv.written)
      case JpegH(s) => var sv := s.Save(dest, fs, io); Saved(JpegH(sv.state), sv.result, sv.written)
      case PngH(s) => var sv := s.Save(dest, fs, io); Saved(PngH(sv.state), sv.result, sv.written)
      case WebpH(s) => var sv := s.Save(dest, fs, io); Saved(WebpH(sv.state), sv.result, sv.written)
    }

    function SetImage(img: Image): HandleState {
      match this
      case BmpH(s) => BmpH(s.SetImage(img))
      case JpegH(s) => JpegH(s.SetImage(img))
      case PngH(s) => PngH(s.SetImage(img))
      case WebpH(s) => WebpH(s.SetImage(img))
    }
  }

  /** Whether the tag names the handle's format. */
  predicate TagMatches(e: Extension, h: HandleState) {
    match h
    case BmpH(_) => e == Bmp
    case JpegH(_) => e == Jpeg || e == Jpg
    case PngH(_) => e == Png
    case WebpH(_) => e == Webp
  }

  /** The result of `save_image`. */
  datatype ImgSaved = ImgSaved(state: ImgState, result: Result<SaveStatus, RusimgError>, written: Option<FileWrite>)

  /** The fields of a `RusImg`. */
  datatype ImgState = ImgState(extension: Extension, data: HandleState) {
    predicate Valid() {
      data.Valid() && TagMatches(extension, data)
    }

    function Resize(ratio: real): Step<ImgState, ImgSize>
      requires ratio >= 0.0
    {
      var st := data.Resize(ratio);
      Step(this.(data := st.state), st.result)
    }

    function Trim(t: Rect): Step<ImgState, ImgSize>
      requires RectInU32(t)
    {
      var st := data.Trim(t);
      Step(this.(data := st.state), st.result)
    }

    function Grayscale(): ImgState {
      this.(data := data.Grayscale())
    }

    function Compress(quality: Option<real>, codec: CodecOutcome): Step<ImgState, ()> {
      var st := data.Compress(quality, codec);
      Step(this.(data := st.state), st.result)
    }

    /** `convert`: build a handle of the target format from the current
        image, source path and source metadata, and only then replace the
        tag and the handle. */
    function Convert(target: Extension, features: set<Feature>, codec: CodecOutcome): Step<ImgState, ()> {
      var img := data.Image();
      var path := data.SourcePath();
      var meta := data.MetadataSrc();
      var built: Result<HandleState, RusimgError> :=
        match target
        case Bmp =>
          if BmpFeature in features then Ok(BmpH(BmpFormat.Imported(img, path, meta))) else Err(UnsupportedFileExtension)
        case Jpg =>
          if JpegFeature in features then Ok(JpegH(JpegFormat.Imported(img, path, meta))) else Err(UnsupportedFileExtension)
        case Jpeg =>
          if JpegFeature in features then Ok(JpegH(JpegFormat.Imported(img, path, meta))) else Err(UnsupportedFileExtension)
        case Png =>
          if PngFeature in features then
            match PngFormat.Imported(img, path, meta, codec)
            case Ok(s) => Ok(PngH(s))
            case Err(e) => Err(e)
          else Err(UnsupportedFileExtension)
        case Webp =>
          if WebpFeature in features then Ok(WebpH(WebpFormat.Imported(img, path, meta))) else Err(UnsupportedFileExtension)
        case ExternalFormat(_) => Err(UnsupportedFileExtension);
      match built
      case Err(e) => Step(this, Err(e))
      case Ok(h) => Step(ImgState(target, h), Ok(()))
    }

    /** `save_image`: save through the handle, then report where it went and
        the sizes of the input and output files. */
    function SaveImage(dest: Option<Path>, fs: FsView, io: WriteOutcome): ImgSaved {
      var sv := data.Save(dest, fs, io);
      var st := this.(data := sv.state);
      match sv.result
      case Err(e) => ImgSaved(st, Err(e), sv.written)
      case Ok(_) =>
        ImgSaved(st, Ok(SaveStatus(sv.state.DestinationPath(), sv.state.MetadataSrc(), sv.state.MetadataDest())), sv.written)
    }
  }

  /** The feature a tag needs in `convert`, if any. */
  function FeatureFor(e: Extension): Option<Feature> {
    match e
    case Bmp => Some(BmpFeature)
    case Jpg => Some(JpegFeature)
    case Jpeg => Some(JpegFeature)
    case Png => Some(PngFeature)
    case Webp => Some(WebpFeature)
    case ExternalFormat(_) => None
  }

  /** `open_image`: read the file, sniff its format and open the matching
      handle; an unknown format or a format whose feature is disabled is
      `UnsupportedFileExtension`. */
  function Opened(path: Path, read: FileRead, sniffed: Result<ImageFormat, string>, decoded: Decoded,
                     features: set<Feature>): Result<ImgState, RusimgError> {
    match read
    case FileUnreadable(e) => Err(e)
    case FileContent(buf, size) =>
      match sniffed
      case Err(m) => Err(FailedToOpenImage(m))
      case Ok(FormatBmp) =>
        if BmpFeature !in features then Err(UnsupportedFileExtension)
        else var h :- BmpFormat.Opened(path, buf, size, decoded); Ok(ImgState(Bmp, BmpH(h)))
      case Ok(FormatJpeg) =>
        if JpegFeature !in features then Err(UnsupportedFileExtension)
        else var h :- JpegFormat.Opened(path, buf, size, decoded); Ok(ImgState(Jpeg, JpegH(h)))
      case Ok(FormatPng) =>
        if PngFeature !in features then Err(UnsupportedFileExtension)
        else var h :- PngFormat.Opened(path, buf, size, decoded); Ok(ImgState(Png, PngH(h)))
      case Ok(FormatWebP) =>
        if WebpFeature !in features then Err(UnsupportedFileExtension)
        else var h :- WebpFormat.Opened(path, buf, size, decoded); Ok(ImgState(Webp, WebpH(h)))
      case Ok(FormatOther(_)) => Err(UnsupportedFileExtension)
  }

  /** The tag `open_image` gives each sniffed format. */
  function TagOf(f: ImageFormat): Extension {
    match f
    case FormatBmp => Bmp
    case FormatJpeg => Jpeg
    case FormatPng => Png
    case FormatWebP => Webp
    case FormatOther(n) => ExternalFormat(n)
  }

  /** `open_image` yields a valid handle tagged with the sniffed format,
      holding the input path and size and no output yet; it fails on the
      first failing step: reading, sniffing, an unsupported format, then
      decoding. */
  lemma OpenImageDispatch(path: Path, read: FileRead, sniffed: Result<ImageFormat, string>, decoded: Decoded,
                          features: set<Feature>)
    ensures var r := Opened(path, read, sniffed, decoded, features);
      && (read.FileUnreadable? ==> r == Err(read.error))
      && (read.FileContent? && sniffed.Err? ==> r == Err(FailedToOpenImage(sniffed.error)))
      && (read.FileContent? && sniffed.Ok? && sniffed.value.FormatOther? ==> r == Err(UnsupportedFileExtension))
      && ((read.FileContent? && sniffed.Ok? && !sniffed.value.FormatOther?
           && FeatureFor(TagOf(sniffed.value)).value !in features) ==> r == Err(UnsupportedFileExtension))
      && (r.Ok? <==> read.FileContent? && sniffed.Ok? && !sniffed.value.FormatOther?
                     && FeatureFor(TagOf(sniffed.value)).value in features && decoded.DecodedImage?)
      && (r.Ok? ==> r.value.Valid() && r.value.extension == TagOf(sniffed.value)
                    && r.value.data.SourcePath() == path && r.value.data.MetadataSrc() == read.size
                    && r.value.data.DestinationPath().None?)
  {
  }

  /** `convert` either fails and leaves the tag and handle as they were, or
      installs a valid handle of the target format that keeps the source
      path, the source size and the image, with no output yet. It fails
      exactly for an external format, a disabled feature, or a failed PNG
      encoding of the image. */
  lemma ConvertCommitsOnlyOnSuccess(s: ImgState, target: Extension, features: set<Feature>, codec: CodecOutcome)
    ensures var st := s.Convert(target, features, codec);
      && (st.result.Err? <==> target.ExternalFormat? || FeatureFor(target).value !in features
                              || (target == Png && codec.CodecFailed?))
      && (st.result.Err? ==> st.state == s)
      && (target.ExternalFormat? ==> st.result == Err(UnsupportedFileExtension))
      && (st.result.Ok? ==>
            && st.state.extension == target && st.state.Valid()
            && st.state.data.SourcePath() == s.data.SourcePath()
            && st.state.data.MetadataSrc() == s.data.MetadataSrc()
            && st.state.data.Image() == s.data.Image()
            && st.state.data.DestinationPath().None?)
  {
  }

  /** Every operation except `set_dynamic_image` keeps a valid `RusImg`
      valid. */
  lemma OperationsKeepValid(s: ImgState, ratio: real, t: Rect, q: Option<real>, c: CodecOutcome,
                            dest: Option<Path>, fs: FsView, io: WriteOutcome)
    requires s.Valid() && ratio >= 0.0 && RectInU32(t)
    ensures ScalesInProportion(s.data.Size().width, s.data.Size().height, ratio) ==> s.Resize(ratio).state.Valid()
    ensures s.Trim(t).state.Valid() && s.Grayscale().Valid()
    ensures s.Compress(q, c).state.Valid() && s.SaveImage(dest, fs, io).state.Valid()
  {
    match s.data
    case BmpH(b) => BmpKeepsValid(s, b, ratio, t, q, c, dest, fs, io);
    case JpegH(j) => JpegKeepsValid(s, j, ratio, t, q, c, dest, fs, io);
    case PngH(p) => PngKeepsValid(s, p, ratio, t, q, c, dest, fs, io);
    case WebpH(w) => WebpKeepsValid(s, w, ratio, t, q, c, dest, fs, io);
  }

  /** A resize whose scaled box is in the image's proportions keeps a valid
      handle valid, whatever its format. */
  lemma ResizeInProportionKeepsValid(h: HandleState, ratio: real)
    requires h.Valid() && ratio >= 0.0 && ScalesInProportion(h.Size().width, h.Size().height, ratio)
    ensures h.Resize(ratio).state.Valid()
  {
    ResizeFillsProportionalBox(h.Image(), ScaleDim(h.Size().width, ratio), ScaleDim(h.Size().height, ratio));
  }

  lemma BmpKeepsValid(s: ImgState, b: BmpFormat.BmpState, ratio: real, t: Rect, q: Option<real>, c: CodecOutcome,
                      dest: Option<Path>, fs: FsView, io: WriteOutcome)
    requires s.Valid() && s.data == BmpH(b) && ratio >= 0.0 && RectInU32(t)
    ensures ScalesInProportion(s.data.Size().width, s.data.Size().height, ratio) ==> s.Resize(ratio).state.Valid()
    ensures s.Trim(t).state.Valid() && s.Grayscale().Valid()
    ensures s.Compress(q, c).state.Valid() && s.SaveImage(dest, fs, io).state.Valid()
  {
    BmpFormat.OperationsKeepValid(b, ratio, t, dest, fs, io);
  }

  lemma JpegKeepsValid(s: ImgState, j: JpegFormat.JpegState, ratio: real, t: Rect, q: Option<real>, c: CodecOutcome,
                       dest: Option<Path>, fs: FsView, io: WriteOutcome)
    requires s.Valid() && s.data == JpegH(j) && ratio >= 0.0 && RectInU32(t)
    ensures ScalesInProportion(s.data.Size().width, s.data.Size().height, ratio) ==> s.Resize(ratio).state.Valid()
    ensures s.Trim(t).state.Valid() && s.Grayscale().Valid()
    ensures s.Compress(q, c).state.Valid() && s.SaveImage(dest, fs, io).state.Valid()
  {
    JpegFormat.OperationsKeepValid(j, ratio, t, q, c, dest, fs, io);
  }

  lemma PngKeepsValid(s: ImgState, p: PngFormat.PngState, ratio: real, t: Rect, q: Option<real>, c: CodecOutcome,
                      dest: Option<Path>, fs: FsView, io: WriteOutcome)
    requires s.Valid() && s.data == PngH(p) && ratio >= 0.0 && RectInU32(t)
    ensures ScalesInProportion(s.data.Size().width, s.data.Size().height, ratio) ==> s.Resize(ratio).state.Valid()
    ensures s.Trim(t).state.Valid() && s.Grayscale().Valid()
    ensures s.Compress(q, c).state.Valid() && s.SaveImage(dest, fs, io).state.Valid()
  {
    PngFormat.OperationsKeepValid(p, ratio, t, q, c, dest, fs, io);
  }

  lemma WebpKeepsValid(s: ImgState, w: WebpFormat.WebpState, ratio: real, t: Rect, q: Option<real>, c: CodecOutcome,
                       dest: Option<Path>, fs: FsView, io: WriteOutcome)
    requires s.Valid() && s.data == WebpH(w) && ratio >= 0.0 && RectInU32(t)
    ensures ScalesInProportion(s.data.Size().width, s.data.Size().height, ratio) ==> s.Resize(ratio).state.Valid()
    ensures s.Trim(t).state.Valid() && s.Grayscale().Valid()
    ensures s.Compress(q, c).state.Valid() && s.SaveImage(dest, fs, io).state.Valid()
  {
    WebpFormat.OperationsKeepValid(w, ratio, t, q, dest, fs, io);
  }

  /** `save_image` fails exactly when the handle's save fails; on success it
      reports the path chosen by the save-path rule under the handle's
      extension, the size of the input file and the size of the file just
      written. */
  lemma SaveImageReports(s: ImgState, dest: Option<Path>, fs: FsView, io: WriteOutcome)
    ensures var sv := s.SaveImage(dest, fs, io);
      var sp := SaveFilepath(s.data.SourcePath(), dest, s.data.SaveExtension(), fs);
      && (sv.result.Ok? <==> sp.Ok? && io.Written?)
      && (sv.result.Err? ==> sv.state == s)
      && (sv.result.Ok? ==> sv.result.value == SaveStatus(Some(sp.value), s.data.MetadataSrc(), Some(io.size)))
      && (sv.written.Some? ==> sv.written.value.path == sp.value)
  {
  }

  /** A handle object, whichever format it is. */
  datatype HandleRef =
    | BmpRef(bmp: BmpFormat.BmpImage)
    | JpegRef(jpeg: JpegFormat.JpegImage)
    | PngRef(png: PngFormat.PngImage)
    | WebpRef(webp: WebpFormat.WebpImage)
  {
    function Obj(): object {
      match this
      case BmpRef(h) => h
      case JpegRef(h) => h
      case PngRef(h) => h
      case WebpRef(h) => h
    }

    function State(): HandleState
      reads Obj()
    {
      match this
      case BmpRef(h) => BmpH(h.State())
      case JpegRef(h) => JpegH(h.State())
      case PngRef(h) => PngH(h.State())
      case WebpRef(h) => WebpH(h.State())
    }
  }

  /** `RusImg`: the tag and the boxed handle. */
  class RusImg {
    var extension: Extension
    var data: HandleRef

    function State(): ImgState
      reads this, data.Obj()
    {
      ImgState(extension, data.State())
    }

    constructor (extension: Extension, data: HandleRef)
      ensures this.extension == extension && this.data == data
    {
      this.extension := extension;
      this.data := data;
    }

    static method OpenImage(path: Path, read: FileRead, sniffed: Result<ImageFormat, string>, decoded: Decoded,
                            features: set<Feature>) returns (r: Result<RusImg, RusimgError>)
      ensures r.Err? ==> Opened(path, read, sniffed, decoded, features) == Err(r.error)
      ensures r.Ok? ==> fresh(r.value) && fresh(r.value.data.Obj())
                        && Opened(path, read, sniffed, decoded, features) == Ok(r.value.State())
    {
      if read.FileUnreadable? {
        return Err(read.error);
      }
      var buf, size := read.bytes, read.size;
      if sniffed.Err? {
        return Err(FailedToOpenImage(sniffed.error));
      }
      match sniffed.value
      case FormatBmp =>
        if BmpFeature !in features {
          return Err(UnsupportedFileExtension);
        }
        var h := BmpFormat.BmpImage.Open(path, buf, size, decoded);
        if h.Err? {
          return Err(h.error);
        }
        var img := new RusImg(Bmp, BmpRef(h.value));
        r := Ok(img);
      case FormatJpeg =>
        if JpegFeature !in features {
          return Err(UnsupportedFileExtension);
        }
        var h := JpegFormat.JpegImage.Open(path, buf, size, decoded);
        if h.Err? {
          return Err(h.error);
        }
        var img := new RusImg(Jpeg, JpegRef(h.value));
        r := Ok(img);
      case FormatPng =>
        if PngFeature !in features {
          return Err(UnsupportedFileExtension);
        }
        var h := PngFormat.PngImage.Open(path, buf, size, decoded);
        if h.Err? {
          return Err(h.error);
        }
        var img := new RusImg(Png, PngRef(h.value));
        r := Ok(img);
      case FormatWebP =>
        if WebpFeature !in features {
          return Err(UnsupportedFileExtension);
        }
        var h := WebpFormat.WebpImage.Open(path, buf, size, decoded);
        if h.Err? {
          return Err(h.error);
        }
        var img := new RusImg(Webp, WebpRef(h.value));
        r := Ok(img);
      case FormatOther(_) =>
        r := Err(UnsupportedFileExtension);
    }

    method GetImageSize() returns (r: Result<ImgSize, RusimgError>)
      ensures r == Ok(State().data.Size())
    {
      match data
      case BmpRef(h) => r := Ok(h.size);
      case JpegRef(h) => r := Ok(h.size);
      case PngRef(h) => r := Ok(ImgSize(h.width, h.height));
      case WebpRef(h) => r := Ok(ImgSize(h.width, h.height));
    }

    method Resize(ratio: real) returns (r: Result<ImgSize, RusimgError>)
      requires ratio >= 0.0
      modifies data.Obj()
      ensures Step(State(), r) == old(State()).Resize(ratio)
    {
      match data
      case BmpRef(h) => r := h.Resize(ratio);
      case JpegRef(h) => r := h.Resize(ratio);
      case PngRef(h) => r := h.Resize(ratio);
      case WebpRef(h) => r := h.Resize(ratio);
    }

    method TrimRect(t: Rect) returns (r: Result<ImgSize, RusimgError>)
      requires RectInU32(t)
      modifies data.Obj()
      ensures Step(State(), r) == old(State()).Trim(t)
    {
      match data
      case BmpRef(h) => r := h.Trim(t);
      case JpegRef(h) => r := h.Trim(t);
      case PngRef(h) => r := h.Trim(t);
      case WebpRef(h) => r := h.Trim(t);
    }

    /** `trim(x, y, w, h)` is `trim_rect(Rect { x, y, w, h })`. */
    method Trim(x: nat, y: nat, w: nat, h: nat) returns (r: Result<ImgSize, RusimgError>)
      requires RectInU32(Rect(x, y, w, h))
      modifies data.Obj()
      ensures Step(State(), r) == old(State()).Trim(Rect(x, y, w, h))
    {
      r := TrimRect(Rect(x, y, w, h));
    }

    method Grayscale() returns (r: Result<(), RusimgError>)
      modifies data.Obj()
      ensures r == Ok(()) && State() == old(State()).Grayscale()
    {
      match data {
        case BmpRef(h) => h.Grayscale();
        case JpegRef(h) => h.Grayscale();
        case PngRef(h) => h.Grayscale();
        case WebpRef(h) => h.Grayscale();
      }
      r := Ok(());
    }

    method Compress(quality: Option<real>, codec: CodecOutcome) returns (r: Result<(), RusimgError>)
      modifies data.Obj()
      ensures Step(State(), r) == old(State()).Compress(quality, codec)
    {
      match data
      case BmpRef(h) => r := h.Compress(quality);
      case JpegRef(h) => r := h.Compress(quality, codec);
      case PngRef(h) => r := h.Compress(quality, codec);
      case WebpRef(h) => r := h.Compress(quality);
    }

    method GetDynamicImage() returns (r: Result<Image, RusimgError>)
      ensures r == Ok(State().data.Image())
    {
      match data
      case BmpRef(h) => r := h.GetDynamicImage();
      case JpegRef(h) => r := h.GetDynamicImage();
      case PngRef(h) => r := h.GetDynamicImage();
      case WebpRef(h) => r := h.GetDynamicImage();
    }

    method SetDynamicImage(img: Image) returns (r: Result<(), RusimgError>)
      modifies data.Obj()
      ensures r == Ok(()) && State() == old(State()).(data := old(State()).data.SetImage(img))
    {
      match data
      case BmpRef(h) => r := h.SetDynamicImage(img);
      case JpegRef(h) => r := h.SetDynamicImage(img);
      case PngRef(h) => r := h.SetDynamicImage(img);
      case WebpRef(h) => r := h.SetDynamicImage(img);
    }

    method Convert(target: Extension, features: set<Feature>, codec: CodecOutcome) returns (r: Result<(), RusimgError>)
      modifies this
      ensures Step(State(), r) == old(State()).Convert(target, features, codec)
      ensures r.Ok? ==> fresh(data.Obj())
      ensures r.Err? ==> data == old(data)
    {
      var img := GetDynamicImage();
      var dynamicImage := img.value;
      var filepath := GetInputFilepath();
      var metadata := State().data.MetadataSrc();
      var newImage: HandleRef;
      match target {
        case Bmp =>
          if BmpFeature !in features {
            return Err(UnsupportedFileExtension);
          }
          var h := BmpFormat.BmpImage.Import(dynamicImage, filepath, metadata);
          newImage := BmpRef(h.value);
        case Jpg =>
          if JpegFeature !in features {
            return Err(UnsupportedFileExtension);
          }
          var h := JpegFormat.JpegImage.Import(dynamicImage, filepath, metadata);
          newImage := JpegRef(h.value);
        case Jpeg =>
          if JpegFeature !in features {
            return Err(UnsupportedFileExtension);
          }
          var h := JpegFormat.JpegImage.Import(dynamicImage, filepath, metadata);
          newImage := JpegRef(h.value);
        case Png =>
          if PngFeature !in features {
            return Err(UnsupportedFileExtension);
          }
          var h := PngFormat.PngImage.Import(dynamicImage, filepath, metadata, codec);
          if h.Err? {
            return Err(h.error);
          }
          newImage := PngRef(h.value);
        case Webp =>
          if WebpFeature !in features {
            return Err(UnsupportedFileExtension);
          }
          var h := WebpFormat.WebpImage.Import(dynamicImage, filepath, metadata);
          newImage := WebpRef(h.value);
        case ExternalFormat(_) =>
          return Err(UnsupportedFileExtension);
      }
      extension := target;
      data := newImage;
      r := Ok(());
    }

    function GetExtension(): Extension
      reads this
    {
      extension
    }

    function GetInputFilepath(): Path
      reads this, data.Obj()
    {
      data.State().SourcePath()
    }

    method SaveImage(dest: Option<Path>, fs: FsView, io: WriteOutcome)
      returns (r: Result<SaveStatus, RusimgError>, written: Option<FileWrite>)
      modifies data.Obj()
      ensures ImgSaved(State(), r, written) == old(State()).SaveImage(dest, fs, io)
    {
      var saved: Result<(), RusimgError>;
      match data {
        case BmpRef(h) => saved, written := h.Save(dest, fs, io);
        case JpegRef(h) => saved, written := h.Save(dest, fs, io);
        case PngRef(h) => saved, written := h.Save(dest, fs, io);
        case WebpRef(h) => saved, written := h.Save(dest, fs, io);
      }
      if saved.Err? {
        return Err(saved.error), written;
      }
      var st := State().data;
      r := Ok(SaveStatus(st.DestinationPath(), st.MetadataSrc(), st.MetadataDest()));
    }
  }
}
