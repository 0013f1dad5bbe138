/** The JPEG handle (`JpegImage`): it remembers the extension spelling of
    the file it came from and saves under that extension; compression runs
    mozjpeg on the current image at quality 75 unless told otherwise. */
module JpegFormat {
  import opened Wrappers
  import opened Paths
  import opened Images

  const DEFAULT_QUALITY: real := 75.0

  /** The fields of a `JpegImage`. */
  datatype JpegState = JpegState(
    image: Image,
    imageBytes: Option<Bytes>,
    size: ImgSize,
    operationsCount: nat,
    extensionStr: string,
    metadataInput: nat,
    metadataOutput: Option<nat>,
    filepathInput: Path,
    filepathOutput: Option<Path>)
  {
    predicate Valid() {
      image.width == size.width && image.height == size.height
    }

    function Save(dest: Option<Path>, fs: FsView, io: WriteOutcome): Saved<JpegState> {
      match SaveFilepath(filepathInput, dest, extensionStr, fs)
      case Err(e) => Saved(this, Err(e), None)
      case Ok(p) =>
        var content := if imageBytes.None? then SavedAs(Extension(p), image) else imageBytes.value;
        var w := WriteEffect(p, content, io);
        if io.Written? then
          Saved(this.(metadataOutput := Some(io.size), filepathOutput := Some(p)), Ok(()), w)
        else
          Saved(this, Err(if imageBytes.None? then LibrarySaveError(io) else DirectWriteError(io)), w)
    }

    function Compress(quality: Option<real>, codec: CodecOutcome): Step<JpegState, ()> {
      match codec
      case CodecFailed(m) => Step(this, Err(FailedToCompressImage(Some(m))))
      case CodecOk =>
        Step(this.(imageBytes := Some(MozJpeg(image, quality.GetOr(DEFAULT_QUALITY))),
                   operationsCount := operationsCount + 1), Ok(()))
    }

    function Resize(ratio: real): Step<JpegState, ImgSize>
      requires ratio >= 0.0
    {
      var s := ImgSize(ScaleDim(size.width, ratio), ScaleDim(size.height, ratio));
      Step(this.(image := Resized(image, s.width, s.height), size := s,
                 operationsCount := operationsCount + 1), Ok(s))
    }

    function Trim(t: Rect): Step<JpegState, ImgSize>
      requires RectInU32(t)
    {
      match TrimRule(size.width, size.height, t)
      case Err(e) => Step(this, Err(e))
      case Ok(s) => Step(this.(image := Crop(image, t.x, t.y, s.width, s.height), size := s), Ok(s))
    }

    function Grayscale(): JpegState {
      this.(image := Grayscaled(image), operationsCount := operationsCount + 1)
    }

    function SetImage(img: Image): JpegState {
      this.(image := img)
    }
  }

  /** `JpegImage::import`: a converted image is saved as `.jpg`. */
  function Imported(image: Image, sourcePath: Path, sourceMetadata: nat): JpegState {
    JpegState(image, None, ImgSize(image.width, image.height), 0, "jpg", sourceMetadata, None, sourcePath, None)
  }

  /** `JpegImage::open`: the extension spelling of the input path (empty
      when it has none) is kept for saving. */
  function Opened(path: Path, buf: Bytes, metadata: nat, decoded: Decoded): Result<JpegState, RusimgError> {
    match decoded
    case DecodeFailed(m) => Err(FailedToOpenImage(m))
    case DecodedImage(w, h, g) =>
      Ok(JpegState(Image(w, h, g, buf), None, ImgSize(w, h), 0, Extension(path).GetOr(""), metadata, None, path, None))
  }

  lemma OperationsKeepValid(s: JpegState, ratio: real, t: Rect, q: Option<real>, c: CodecOutcome,
                            dest: Option<Path>, fs: FsView, io: WriteOutcome)
    requires s.Valid() && ratio >= 0.0 && RectInU32(t)
    ensures ScalesInProportion(s.size.width, s.size.height, ratio) ==> s.Resize(ratio).state.Valid()
    ensures var r := s.Resize(ratio).state;
      r.image.width <= Max1(r.size.width) && r.image.height <= Max1(r.size.height)
    ensures s.Trim(t).state.Valid() && s.Grayscale().Valid()
    ensures s.Compress(q, c).state.Valid() && s.Save(dest, fs, io).state.Valid()
  {
    if ScalesInProportion(s.size.width, s.size.height, ratio) {
      ResizeFillsProportionalBox(s.image, ScaleDim(s.size.width, ratio), ScaleDim(s.size.height, ratio));
    }
    if TrimRule(s.size.width, s.size.height, t).Ok? {
      TrimAgreesWithCrop(s.image, t);
    }
  }

  /** A JPEG opened from a file and saved without a destination goes back
      to the very same path (its own extension is set again), unless the
      file name ends in a dot; a converted image is saved next to its source
      as `.jpg`. */
  lemma SaveKeepsSourceName(path: Path, buf: Bytes, meta: nat, d: Decoded, img: Image, fs: FsView)
    requires Opened(path, buf, meta, d).Ok? && Extension(path) != Some("")
    requires path.name.Some? ==> path.name.value != "" && path.name.value != ".."
    ensures SaveFilepath(path, None, Opened(path, buf, meta, d).value.extensionStr, fs) == Ok(path)
    ensures path.name.Some? ==> Extension(SaveFilepath(path, None, Imported(img, path, meta).extensionStr, fs).value) == Some("jpg")
  {
    WithOwnExtension(path);
    SaveFilepathLands(path, None, "jpg", fs);
  }

  /** Compression encodes the current image, at quality 75 by default, and
      counts as an operation only when mozjpeg succeeds. */
  lemma CompressEncodesCurrentImage(s: JpegState, q: Option<real>, c: CodecOutcome)
    ensures var st := s.Compress(q, c);
      && (st.result.Ok? <==> c.CodecOk?)
      && (st.result.Ok? ==> st.state.imageBytes == Some(MozJpeg(s.image, if q.Some? then q.value else 75.0))
                            && st.state.operationsCount == s.operationsCount + 1)
      && (st.result.Err? ==> st.state == s && st.result.error == FailedToCompressImage(Some(c.msg)))
  {
  }

  /** What each edit does to a JPEG handle: a resize scales both
      dimensions by the ratio, truncating, and counts an operation; a trim
      reports the size the trim rule gives, stores it and counts nothing,
      and when refused changes nothing at all; grayscale keeps the size,
      turns the image gray and counts an operation. */
  lemma EditEffects(s: JpegState, ratio: real, t: Rect)
    requires ratio >= 0.0 && RectInU32(t)
    ensures var r := s.Resize(ratio);
      && r.result == Ok(ImgSize(ScaleDim(s.size.width, ratio), ScaleDim(s.size.height, ratio)))
      && r.state.size == r.result.value && r.state.operationsCount == s.operationsCount + 1
    ensures var tr := s.Trim(t);
      && tr.result == TrimRule(s.size.width, s.size.height, t)
      && (tr.result.Ok? ==> tr.state.size == tr.result.value && tr.state.operationsCount == s.operationsCount)
      && (tr.result.Err? ==> tr.state == s)
    ensures var g := s.Grayscale();
      g.size == s.size && g.image.gray && g.operationsCount == s.operationsCount + 1
  {
  }

  /** A fresh handle is valid, has counted nothing and holds no compressed
      bytes; an imported image saves as `jpg`, an opened file under its own
      extension spelling (none when it has no extension); only decoding can
      fail. */
  lemma FreshHandles(img: Image, path: Path, buf: Bytes, meta: nat, d: Decoded)
    ensures var s := Imported(img, path, meta);
      s.Valid() && s.operationsCount == 0 && s.imageBytes.None? && s.extensionStr == "jpg" && s.filepathOutput.None?
    ensures Opened(path, buf, meta, d).Err? <==> d.DecodeFailed?
    ensures Opened(path, buf, meta, d).Ok? ==>
      var s := Opened(path, buf, meta, d).value;
      && s.Valid() && s.operationsCount == 0 && s.imageBytes.None? && s.filepathOutput.None?
      && (Extension(path).Some? ==> s.extensionStr == Extension(path).value)
      && (Extension(path).None? ==> s.extensionStr == "")
  {
  }

  /** `JpegImage`, updated in place by its operations. */
  class JpegImage {
    var image: Image
    var imageBytes: Option<Bytes>
    var size: ImgSize
    var operationsCount: nat
    var extensionStr: string
    var metadataInput: nat
    var metadataOutput: Option<nat>
    var filepathInput: Path
    var filepathOutput: Option<Path>

    function State(): JpegState
      reads this
    {
      JpegState(image, imageBytes, size, operationsCount, extensionStr,
                metadataInput, metadataOutput, filepathInput, filepathOutput)
    }

    constructor FromState(s: JpegState)
      ensures State() == s
    {
      image, imageBytes, size := s.image, s.imageBytes, s.size;
      operationsCount, extensionStr := s.operationsCount, s.extensionStr;
      metadataInput, metadataOutput := s.metadataInput, s.metadataOutput;
      filepathInput, filepathOutput := s.filepathInput, s.filepathOutput;
    }

    static method Import(img: Image, sourcePath: Path, sourceMetadata: nat) returns (r: Result<JpegImage, RusimgError>)
      ensures r.Ok? && fresh(r.value) && r.value.State() == Imported(img, sourcePath, sourceMetadata)
    {
      var h := new JpegImage.FromState(JpegState(img, None, ImgSize(img.width, img.height), 0, "jpg",
                                                 sourceMetadata, None, sourcePath, None));
      r := Ok(h);
    }

    static method Open(path: Path, buf: Bytes, metadata: nat, decoded: Decoded)
      returns (r: Result<JpegImage, RusimgError>)
      ensures r.Err? ==> Opened(path, buf, metadata, decoded) == Err(r.error)
      ensures r.Ok? ==> fresh(r.value) && Opened(path, buf, metadata, decoded) == Ok(r.value.State())
    {
      if decoded.DecodeFailed? {
        return Err(FailedToOpenImage(decoded.msg));
      }
      var img := Image(decoded.width, decoded.height, decoded.gray, buf);
      var extensionStr := Extension(path).GetOr("");
      var h := new JpegImage.FromState(JpegState(img, None, ImgSize(img.width, img.height), 0, extensionStr,
                                                 metadata, None, path, None));
      r := Ok(h);
    }

    method Save(dest: Option<Path>, fs: FsView, io: WriteOutcome) returns (r: Result<(), RusimgError>, written: Option<FileWrite>)
      modifies this
      ensures Saved(State(), r, written) == old(State()).Save(dest, fs, io)
    {
      var sp := SaveFilepath(filepathInput, dest, extensionStr, fs);
      if sp.Err? {
        return Err(sp.error), None;
      }
      var savePath := sp.value;
      if imageBytes.None? {
        written := WriteEffect(savePath, SavedAs(Extension(savePath), image), io);
        if !io.Written? {
          return Err(LibrarySaveError(io)), written;
        }
        metadataOutput := Some(io.size);
      } else {
        written := WriteEffect(savePath, imageBytes.value, io);
        if !io.Written? {
          return Err(DirectWriteError(io)), written;
        }
        metadataOutput := Some(io.size);
      }
      filepathOutput := Some(savePath);
      r := Ok(());
    }

    method Compress(quality: Option<real>, codec: CodecOutcome) returns (r: Result<(), RusimgError>)
      modifies this
      ensures Step(State(), r) == old(State()).Compress(quality, codec)
    {
      var q := quality.GetOr(DEFAULT_QUALITY);
      if codec.CodecFailed? {
        return Err(FailedToCompressImage(Some(codec.msg)));
      }
      imageBytes := Some(MozJpeg(image, q));
      operationsCount := operationsCount + 1;
      r := Ok(());
    }

    method Resize(ratio: real) returns (r: Result<ImgSize, RusimgError>)
      requires ratio >= 0.0
      modifies this
      ensures Step(State(), r) == old(State()).Resize(ratio)
    {
      var nwidth := ScaleDim(size.width, ratio);
      var nheight := ScaleDim(size.height, ratio);
      image := Resized(image, nwidth, nheight);
      size := ImgSize(nwidth, nheight);
      operationsCount := operationsCount + 1;
      r := Ok(size);
    }

    method Trim(t: Rect) returns (r: Result<ImgSize, RusimgError>)
      requires RectInU32(t)
      modifies this
      ensures Step(State(), r) == old(State()).Trim(t)
    {
      var w, h := t.w, t.h;
      if size.width < t.x + t.w || size.height < t.y + t.h {
        if size.width > t.x && size.height > t.y {
          w := if size.width < t.x + t.w then size.width - t.x else t.w;
          h := if size.height < t.y + t.h then size.height - t.y else t.h;
        } else {
          return Err(InvalidTrimXY);
        }
      }
      image := Crop(image, t.x, t.y, w, h);
      size := ImgSize(w, h);
      r := Ok(size);
    }

    method Grayscale()
      modifies this
      ensures State() == old(State()).Grayscale()
    {
      image := Grayscaled(image);
      operationsCount := operationsCount + 1;
    }

    method SetDynamicImage(img: Image) returns (r: Result<(), RusimgError>)
      modifies this
      ensures r == Ok(()) && State() == old(State()).SetImage(img)
    {
      image := img;
      r := Ok(());
    }

    method GetDynamicImage() returns (r: Result<Image, RusimgError>)
      ensures r == Ok(image)
    {
      r := Ok(image);
    }

    /** `get_size`: the stored size, which is the image's size while the
        handle is valid. */
    function GetSize(): (s: ImgSize)
      reads this
      ensures s == State().size
      ensures State().Valid() ==> s == ImgSize(image.width, image.height)
    {
      size
    }
  }
}
