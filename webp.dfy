/** The WebP handle (`WebpImage`): compression only records the quality,
    which the encoder applies on save; a WebP file saved with no counted
    operation is written back byte for byte instead of being re-encoded. */
module WebpFormat {
  import opened Wrappers
  import opened Paths
  import opened Images

  const DEFAULT_QUALITY: real := 75.0

  /** The fields of a `WebpImage`; `imageBytes` holds the file it was opened
      from. */
  datatype WebpState = WebpState(
    image: Image,
    imageBytes: Option<Bytes>,
    width: nat,
    height: nat,
    operationsCount: nat,
    requiredQuality: Option<real>,
    metadataInput: nat,
    metadataOutput: Option<nat>,
    filepathInput: Path,
    filepathOutput: Option<Path>)
  {
    predicate Valid() {
      image.width == width && image.height == height
    }

    /** The input path's extension is exactly `webp` (case matters). */
    predicate SourceIsWebp() {
      Extension(filepathInput).GetOr("") == "webp"
    }

    /** Whether save copies the original bytes instead of encoding. */
    predicate PassesThrough() {
      SourceIsWebp() && operationsCount == 0 && imageBytes.Some?
    }

    function Save(dest: Option<Path>, fs: FsView, io: WriteOutcome): Saved<WebpState> {
      match SaveFilepath(filepathInput, dest, "webp", fs)
      case Err(e) => Saved(this, Err(e), None)
      case Ok(p) =>
        var content := if PassesThrough() then imageBytes.value
                       else WebpEncoded(image, requiredQuality.GetOr(DEFAULT_QUALITY));
        var w := WriteEffect(p, content, io);
        if io.Written? then
          Saved(this.(metadataOutput := Some(io.size), filepathOutput := Some(p)), Ok(()), w)
        else
          Saved(this, Err(DirectWriteError(io)), w)
    }

    function Compress(quality: Option<real>): WebpState {
      this.(requiredQuality := quality, operationsCount := operationsCount + 1)
    }

    function Resize(ratio: real): Step<WebpState, ImgSize>
      requires ratio >= 0.0
    {
      var nw := ScaleDim(width, ratio);
      var nh := ScaleDim(height, ratio);
      Step(this.(image := Resized(image, nw, nh), width := nw, height := nh,
                 operationsCount := operationsCount + 1), Ok(ImgSize(nw, nh)))
    }

    function Trim(t: Rect): Step<WebpState, ImgSize>
      requires RectInU32(t)
    {
      match TrimRule(width, height, t)
      case Err(e) => Step(this, Err(e))
      case Ok(s) =>
        Step(this.(image := Crop(image, t.x, t.y, s.width, s.height), width := s.width, height := s.height), Ok(s))
    }

    function Grayscale(): WebpState {
      this.(image := Grayscaled(image), operationsCount := operationsCount + 1)
    }

    function SetImage(img: Image): WebpState {
      this.(image := img)
    }
  }

  /** `WebpImage::import`: no original bytes, so save always encodes. */
  function Imported(image: Image, sourcePath: Path, sourceMetadata: nat): WebpState {
    WebpState(image, None, image.width, image.height, 0, None, sourceMetadata, None, sourcePath, None)
  }

  /** `WebpImage::open`: the decoder's failure is `FailedToDecodeWebp`; the
      buffer is kept for a later unchanged save. */
  function Opened(path: Path, buf: Bytes, metadata: nat, decoded: Decoded): Result<WebpState, RusimgError> {
    match decoded
    case DecodeFailed(_) => Err(FailedToDecodeWebp)
    case DecodedImage(w, h, g) =>
      Ok(WebpState(Image(w, h, g, buf), Some(buf), w, h, 0, None, metadata, None, path, None))
  }

  lemma OperationsKeepValid(s: WebpState, ratio: real, t: Rect, q: Option<real>,
                            dest: Option<Path>, fs: FsView, io: WriteOutcome)
    requires s.Valid() && ratio >= 0.0 && RectInU32(t)
    ensures ScalesInProportion(s.width, s.height, ratio) ==> s.Resize(ratio).state.Valid()
    ensures var r := s.Resize(ratio).state;
      r.image.width <= Max1(r.width) && r.image.height <= Max1(r.height)
    ensures s.Trim(t).state.Valid() && s.Grayscale().Valid()
    ensures s.Compress(q).Valid() && s.Save(dest, fs, io).state.Valid()
  {
    if ScalesInProportion(s.width, s.height, ratio) {
      ResizeFillsProportionalBox(s.image, ScaleDim(s.width, ratio), ScaleDim(s.height, ratio));
    }
    if TrimRule(s.width, s.height, t).Ok? {
      TrimAgreesWithCrop(s.image, t);
    }
  }

  /** What save writes: the original bytes exactly when the source path ends
      in `.webp`, no resize, grayscale or compress was counted and the
      original bytes are held; otherwise the current image encoded at the
      requested quality, 75 by default. */
  lemma SaveContent(s: WebpState, dest: Option<Path>, fs: FsView, io: WriteOutcome)
    ensures var sv := s.Save(dest, fs, io);
      && (sv.result.Ok? <==> SaveFilepath(s.filepathInput, dest, "webp", fs).Ok? && io.Written?)
      && (sv.result.Err? ==> sv.state == s)
      && (sv.written.Some? && s.PassesThrough() ==> sv.written.value.content == s.imageBytes.value)
      && (sv.written.Some? && !s.PassesThrough() ==>
            sv.written.value.content == WebpEncoded(s.image, if s.requiredQuality.Some? then s.requiredQuality.value else 75.0))
  {
  }

  /** Trimming is not counted as an operation: a `.webp` file that is only
      trimmed is saved as its original, untrimmed bytes, although the handle
      reports the trimmed size. */
  lemma TrimOnlySavesOriginal(path: Path, buf: Bytes, meta: nat, d: Decoded, t: Rect,
                              dest: Option<Path>, fs: FsView, io: WriteOutcome)
    requires Opened(path, buf, meta, d).Ok? && RectInU32(t)
    requires Extension(path) == Some("webp")
    ensures var trimmed := Opened(path, buf, meta, d).value.Trim(t).state;
      var sv := trimmed.Save(dest, fs, io);
      sv.written.Some? ==> sv.written.value.content == buf
  {
  }

  /** The pass-through test is case-sensitive: an untouched `.WEBP` file is
      re-encoded at the default quality. */
  lemma UpperCaseExtensionReencodes(dirs: seq<string>, buf: Bytes, meta: nat, d: Decoded,
                                    dest: Option<Path>, fs: FsView, io: WriteOutcome)
    requires Opened(Path(dirs, Some("a.WEBP")), buf, meta, d).Ok?
    ensures var s := Opened(Path(dirs, Some("a.WEBP")), buf, meta, d).value;
      var sv := s.Save(dest, fs, io);
      sv.written.Some? ==> sv.written.value.content == WebpEncoded(s.image, 75.0)
  {
    var n: string := "a.WEBP";
    LastDotOfSuffix("a", "WEBP");
    assert n == "a" + "." + "WEBP";
    assert n[2..] == "WEBP";
  }

  /** What each edit does to a WebP handle: a resize scales both
      dimensions by the ratio, truncating, and counts an operation; a trim
      reports the size the trim rule gives, stores it and counts nothing,
      and when refused changes nothing at all; grayscale keeps the size,
      turns the image gray and counts an operation; compress only records
      the quality and counts an operation. */
  lemma EditEffects(s: WebpState, ratio: real, t: Rect, q: Option<real>)
    requires ratio >= 0.0 && RectInU32(t)
    ensures var r := s.Resize(ratio);
      && r.result == Ok(ImgSize(ScaleDim(s.width, ratio), ScaleDim(s.height, ratio)))
      && r.state.width == ScaleDim(s.width, ratio) && r.state.height == ScaleDim(s.height, ratio)
      && r.state.operationsCount == s.operationsCount + 1
    ensures var tr := s.Trim(t);
      && tr.result == TrimRule(s.width, s.height, t)
      && (tr.result.Ok? ==> ImgSize(tr.state.width, tr.state.height) == tr.result.value
                            && tr.state.operationsCount == s.operationsCount)
      && (tr.result.Err? ==> tr.state == s)
    ensures var g := s.Grayscale();
      g.width == s.width && g.height == s.height && g.image.gray && g.operationsCount == s.operationsCount + 1
    ensures var c := s.Compress(q);
      c.requiredQuality == q && c.operationsCount == s.operationsCount + 1 && c.image == s.image
  {
  }

  /** A fresh handle is valid and has counted nothing, with no quality
      requested; an opened file keeps its bytes for a pass-through save,
      an imported image has none; opening fails with `FailedToDecodeWebp`
      exactly when decoding fails. */
  lemma FreshHandles(img: Image, path: Path, buf: Bytes, meta: nat, d: Decoded)
    ensures var s := Imported(img, path, meta);
      s.Valid() && s.operationsCount == 0 && s.imageBytes.None? && s.requiredQuality.None? && s.filepathOutput.None?
    ensures Opened(path, buf, meta, d).Err? <==> d.DecodeFailed?
    ensures Opened(path, buf, meta, d).Err? ==> Opened(path, buf, meta, d).error == FailedToDecodeWebp
    ensures Opened(path, buf, meta, d).Ok? ==>
      var s := Opened(path, buf, meta, d).value;
      s.Valid() && s.operationsCount == 0 && s.imageBytes == Some(buf) && s.requiredQuality.None? && s.filepathOutput.None?
  {
  }

  /** `WebpImage`, updated in place by its operations. */
  class WebpImage {
    var image: Image
    var imageBytes: Option<Bytes>
    var width: nat
    var height: nat
    var operationsCount: nat
    var requiredQuality: Option<real>
    var metadataInput: nat
    var metadataOutput: Option<nat>
    var filepathInput: Path
    var filepathOutput: Option<Path>

    function State(): WebpState
      reads this
    {
      WebpState(image, imageBytes, width, height, operationsCount, requiredQuality,
                metadataInput, metadataOutput, filepathInput, filepathOutput)
    }

    constructor FromState(s: WebpState)
      ensures State() == s
    {
      image, imageBytes, width, height := s.image, s.imageBytes, s.width, s.height;
      operationsCount, requiredQuality := s.operationsCount, s.requiredQuality;
      metadataInput, metadataOutput := s.metadataInput, s.metadataOutput;
      filepathInput, filepathOutput := s.filepathInput, s.filepathOutput;
    }

    static method Import(img: Image, sourcePath: Path, sourceMetadata: nat) returns (r: Result<WebpImage, RusimgError>)
      ensures r.Ok? && fresh(r.value) && r.value.State() == Imported(img, sourcePath, sourceMetadata)
    {
      var h := new WebpImage.FromState(WebpState(img, None, img.width, img.height, 0, None,
                                                 sourceMetadata, None, sourcePath, None));
      r := Ok(h);
    }

    static method Open(path: Path, buf: Bytes, metadata: nat, decoded: Decoded)
      returns (r: Result<WebpImage, RusimgError>)
      ensures r.Err? ==> Opened(path, buf, metadata, decoded) == Err(r.error)
      ensures r.Ok? ==> fresh(r.value) && Opened(path, buf, metadata, decoded) == Ok(r.value.State())
    {
      if decoded.DecodeFailed? {
        return Err(FailedToDecodeWebp);
      }
      var img := Image(decoded.width, decoded.height, decoded.gray, buf);
      var h := new WebpImage.FromState(WebpState(img, Some(buf), img.width, img.height, 0, None,
                                                 metadata, None, path, None));
      r := Ok(h);
    }

    method Save(dest: Option<Path>, fs: FsView, io: WriteOutcome) returns (r: Result<(), RusimgError>, written: Option<FileWrite>)
      modifies this
      ensures Saved(State(), r, written) == old(State()).Save(dest, fs, io)
    {
      var sp := SaveFilepath(filepathInput, dest, "webp", fs);
      if sp.Err? {
        return Err(sp.error), None;
      }
      var savePath := sp.value;
      var sourceIsWebp := Extension(filepathInput).GetOr("") == "webp";
      if sourceIsWebp && operationsCount == 0 && imageBytes.Some? {
        written := WriteEffect(savePath, imageBytes.value, io);
        if !io.Written? {
          return Err(DirectWriteError(io)), written;
        }
        metadataOutput := Some(io.size);
        filepathOutput := Some(savePath);
        return Ok(()), written;
      }
      var quality := requiredQuality.GetOr(DEFAULT_QUALITY);
      var encoded := WebpEncoded(image, quality);
      written := WriteEffect(savePath, encoded, io);
      if !io.Written? {
        return Err(DirectWriteError(io)), written;
      }
      metadataOutput := Some(io.size);
      filepathOutput := Some(savePath);
      r := Ok(());
    }

    method Compress(quality: Option<real>) returns (r: Result<(), RusimgError>)
      modifies this
      ensures r == Ok(()) && State() == old(State()).Compress(quality)
    {
      requiredQuality := quality;
      operationsCount := operationsCount + 1;
      r := Ok(());
    }

    method Resize(ratio: real) returns (r: Result<ImgSize, RusimgError>)
      requires ratio >= 0.0
      modifies this
      ensures Step(State(), r) == old(State()).Resize(ratio)
    {
      var nwidth := ScaleDim(width, ratio);
      var nheight := ScaleDim(height, ratio);
      image := Resized(image, nwidth, nheight);
      width := nwidth;
      height := nheight;
      operationsCount := operationsCount + 1;
      r := Ok(ImgSize(width, height));
    }

    method Trim(t: Rect) returns (r: Result<ImgSize, RusimgError>)
      requires RectInU32(t)
      modifies this
      ensures Step(State(), r) == old(State()).Trim(t)
    {
      var w, h := t.w, t.h;
      if width < t.x + t.w || height < t.y + t.h {
        if width > t.x && height > t.y {
          w := if width < t.x + t.w then width - t.x else t.w;
          h := if height < t.y + t.h then height - t.y else t.h;
        } else {
          return Err(InvalidTrimXY);
        }
      }
      image := Crop(image, t.x, t.y, w, h);
      width := w;
      height := h;
      r := Ok(ImgSize(width, height));
    }

    method Grayscale()
      modifies this
      ensures State() == old(State()).Grayscale()
    {
      image := Grayscaled(image);
      operationsCount := operationsCount + 1;
    }

    method SetDynamicImage(img: Image) returns (r: Result<(), RusimgError>)
      modifies this
      ensures r == Ok(()) && State() == old(State()).SetImage(img)
    {
      image := img;
      r := Ok(());
    }

    method GetDynamicImage() returns (r: Result<Image, RusimgError>)
      ensures r == Ok(image)
    {
      r := Ok(image);
    }

    /** `get_size`: the stored size, which is the image's size while the
        handle is valid. */
    function GetSize(): (s: ImgSize)
      reads this
      ensures s == ImgSize(State().width, State().height)
      ensures State().Valid() ==> s == ImgSize(image.width, image.height)
    {
      ImgSize(width, height)
    }
  }
}
