/** The BMP handle (`BmpImage`): no operation counter and no compressed
    bytes; save always encodes the current image, and compression is
    refused. */
module BmpFormat {
  import opened Wrappers
  import opened Paths
  import opened Images

  /** The fields of a `BmpImage`. */
  datatype BmpState = BmpState(
    image: Image,
    size: ImgSize,
    metadataInput: nat,
    metadataOutput: Option<nat>,
    filepathInput: Path,
    filepathOutput: Option<Path>)
  {
    predicate Valid() {
      image.width == size.width && image.height == size.height
    }

    function Save(dest: Option<Path>, fs: FsView, io: WriteOutcome): Saved<BmpState> {
      match SaveFilepath(filepathInput, dest, "bmp", fs)
      case Err(e) => Saved(this, Err(e), None)
      case Ok(p) =>
        var w := WriteEffect(p, SavedAs(Extension(p), image), io);
        if io.Written? then
          Saved(this.(metadataOutput := Some(io.size), filepathOutput := Some(p)), Ok(()), w)
        else
          Saved(this, Err(LibrarySaveError(io)), w)
    }

    function Resize(ratio: real): Step<BmpState, ImgSize>
      requires ratio >= 0.0
    {
      var s := ImgSize(ScaleDim(size.width, ratio), ScaleDim(size.height, ratio));
      Step(this.(image := Resized(image, s.width, s.height), size := s), Ok(s))
    }

    function Trim(t: Rect): Step<BmpState, ImgSize>
      requires RectInU32(t)
    {
      match TrimRule(size.width, size.height, t)
      case Err(e) => Step(this, Err(e))
      case Ok(s) => Step(this.(image := Crop(image, t.x, t.y, s.width, s.height), size := s), Ok(s))
    }

    function Grayscale(): BmpState {
      this.(image := Grayscaled(image))
    }

    function SetImage(img: Image): BmpState {
      this.(image := img)
    }
  }

  function Imported(image: Image, sourcePath: Path, sourceMetadata: nat): BmpState {
    BmpState(image, ImgSize(image.width, image.height), sourceMetadata, None, sourcePath, None)
  }

  function Opened(path: Path, buf: Bytes, metadata: nat, decoded: Decoded): Result<BmpState, RusimgError> {
    match decoded
    case DecodeFailed(m) => Err(FailedToOpenImage(m))
    case DecodedImage(w, h, g) => Ok(BmpState(Image(w, h, g, buf), ImgSize(w, h), metadata, None, path, None))
  }

  lemma OperationsKeepValid(s: BmpState, ratio: real, t: Rect, dest: Option<Path>, fs: FsView, io: WriteOutcome)
    requires s.Valid() && ratio >= 0.0 && RectInU32(t)
    ensures ScalesInProportion(s.size.width, s.size.height, ratio) ==> s.Resize(ratio).state.Valid()
    ensures var r := s.Resize(ratio).state;
      r.image.width <= Max1(r.size.width) && r.image.height <= Max1(r.size.height)
    ensures s.Trim(t).state.Valid() && s.Grayscale().Valid()
    ensures s.Save(dest, fs, io).state.Valid()
  {
    if ScalesInProportion(s.size.width, s.size.height, ratio) {
      ResizeFillsProportionalBox(s.image, ScaleDim(s.size.width, ratio), ScaleDim(s.size.height, ratio));
    }
    if TrimRule(s.size.width, s.size.height, t).Ok? {
      TrimAgreesWithCrop(s.image, t);
    }
  }

  /** Every save of a BMP encodes the image as it is now, through the image
      library, into the `.bmp` path chosen for it. */
  lemma SaveEncodesCurrentImage(s: BmpState, dest: Option<Path>, fs: FsView, io: WriteOutcome)
    ensures var sv := s.Save(dest, fs, io);
      && (sv.result.Ok? <==> SaveFilepath(s.filepathInput, dest, "bmp", fs).Ok? && io.Written?)
      && (sv.result.Err? ==> sv.state == s)
      && (sv.written.Some? ==> sv.written.value.content.SavedAs? && sv.written.value.content.image == s.image)
  {
  }

  /** What each edit does to a BMP handle: a resize scales both dimensions
      by the ratio, truncating; a trim reports the size the trim rule gives
      and stores it, and when refused changes nothing at all; grayscale
      keeps the size and turns the image gray. A fresh handle takes its size
      from the image and has no output yet. */
  lemma EditEffects(s: BmpState, ratio: real, t: Rect, img: Image, path: Path, meta: nat)
    requires ratio >= 0.0 && RectInU32(t)
    ensures var r := s.Resize(ratio);
      && r.result == Ok(ImgSize(ScaleDim(s.size.width, ratio), ScaleDim(s.size.height, ratio)))
      && r.state.size == r.result.value
    ensures var tr := s.Trim(t);
      && tr.result == TrimRule(s.size.width, s.size.height, t)
      && (tr.result.Ok? ==> tr.state.size == tr.result.value)
      && (tr.result.Err? ==> tr.state == s)
    ensures var g := s.Grayscale();
      g.size == s.size && g.image.gray
    ensures var f := Imported(img, path, meta);
      f.Valid() && f.filepathOutput.None? && f.metadataOutput.None? && f.filepathInput == path
  {
  }

  /** `BmpImage`, updated in place by its operations. */
  class BmpImage {
    var image: Image
    var size: ImgSize
    var metadataInput: nat
    var metadataOutput: Option<nat>
    var filepathInput: Path
    var filepathOutput: Option<Path>

    function State(): BmpState
      reads this
    {
      BmpState(image, size, metadataInput, metadataOutput, filepathInput, filepathOutput)
    }

    constructor FromState(s: BmpState)
      ensures State() == s
    {
      image, size := s.image, s.size;
      metadataInput, metadataOutput := s.metadataInput, s.metadataOutput;
      filepathInput, filepathOutput := s.filepathInput, s.filepathOutput;
    }

    static method Import(img: Image, sourcePath: Path, sourceMetadata: nat) returns (r: Result<BmpImage, RusimgError>)
      ensures r.Ok? && fresh(r.value) && r.value.State() == Imported(img, sourcePath, sourceMetadata)
    {
      var h := new BmpImage.FromState(BmpState(img, ImgSize(img.width, img.height), sourceMetadata, None, sourcePath, None));
      r := Ok(h);
    }

    static method Open(path: Path, buf: Bytes, metadata: nat, decoded: Decoded)
      returns (r: Result<BmpImage, RusimgError>)
      ensures r.Err? ==> Opened(path, buf, metadata, decoded) == Err(r.error)
      ensures r.Ok? ==> fresh(r.value) && Opened(path, buf, metadata, decoded) == Ok(r.value.State())
    {
      if decoded.DecodeFailed? {
        return Err(FailedToOpenImage(decoded.msg));
      }
      var img := Image(decoded.width, decoded.height, decoded.gray, buf);
      var h := new BmpImage.FromState(BmpState(img, ImgSize(img.width, img.height), metadata, None, path, None));
      r := Ok(h);
    }

    method Save(dest: Option<Path>, fs: FsView, io: WriteOutcome) returns (r: Result<(), RusimgError>, written: Option<FileWrite>)
      modifies this
      ensures Saved(State(), r, written) == old(State()).Save(dest, fs, io)
    {
      var sp := SaveFilepath(filepathInput, dest, "bmp", fs);
      if sp.Err? {
        return Err(sp.error), None;
      }
      var savePath := sp.value;
      written := WriteEffect(savePath, SavedAs(Extension(savePath), image), io);
      if !io.Written? {
        return Err(LibrarySaveError(io)), written;
      }
      metadataOutput := Some(io.size);
      filepathOutput := Some(savePath);
      r := Ok(());
    }

    /** BMP is lossless: compression is always refused. */
    method Compress(quality: Option<real>) returns (r: Result<(), RusimgError>)
      ensures r == Err(ImageFormatCannotBeCompressed)
    {
      r := Err(ImageFormatCannotBeCompressed);
    }

    method Resize(ratio: real) returns (r: Result<ImgSize, RusimgError>)
      requires ratio >= 0.0
      modifies this
      ensures Step(State(), r) == old(State()).Resize(ratio)
    {
      var nwidth := ScaleDim(size.width, ratio);
      var nheight := ScaleDim(size.height, ratio);
      image := Resized(image, nwidth, nheight);
      size := ImgSize(nwidth, nheight);
      r := Ok(size);
    }

    method Trim(t: Rect) returns (r: Result<ImgSize, RusimgError>)
      requires RectInU32(t)
      modifies this
      ensures Step(State(), r) == old(State()).Trim(t)
    {
      var w, h := t.w, t.h;
      if size.width < t.x + t.w || size.height < t.y + t.h {
        if size.width > t.x && size.height > t.y {
          w := if size.width < t.x + t.w then size.width - t.x else t.w;
          h := if size.height < t.y + t.h then size.height - t.y else t.h;
        } else {
          return Err(InvalidTrimXY);
        }
      }
      image := Crop(image, t.x, t.y, w, h);
      size := ImgSize(w, h);
      r := Ok(size);
    }

    method Grayscale()
      modifies this
      ensures State() == old(State()).Grayscale()
    {
      image := Grayscaled(image);
    }

    method SetDynamicImage(img: Image) returns (r: Result<(), RusimgError>)
      modifies this
      ensures r == Ok(()) && State() == old(State()).SetImage(img)
    {
      image := img;
      r := Ok(());
    }

    method GetDynamicImage() returns (r: Result<Image, RusimgError>)
      ensures r == Ok(image)
    {
      r := Ok(image);
    }

    /** `get_size`: the stored size, which is the image's size while the
        handle is valid. */
    function GetSize(): (s: ImgSize)
      reads this
      ensures s == State().size
      ensures State().Valid() ==> s == ImgSize(image.width, image.height)
    {
      size
    }
  }
}
