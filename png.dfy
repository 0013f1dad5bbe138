/** The PNG handle (`PngImage`): it keeps the PNG bytes it was opened from,
    compresses those bytes with oxipng at a level derived from the quality,
    and on save writes the compressed bytes when there are any and the
    current image otherwise. */
module PngFormat {
  import opened Wrappers
  import opened Paths
  import opened Images

  /** The oxipng preset for a quality in 0..100: six equal bands, level 5
      when no quality is given. */
  function CompressionLevel(quality: Option<real>): (level: nat)
    ensures quality.None? ==> level == 5
    ensures 1 <= level <= 6
    ensures quality.Some? ==>
      && (level == 1 <==> quality.value <= 17.0)
      && (level == 2 <==> 17.0 < quality.value <= 34.0)
      && (level == 3 <==> 34.0 < quality.value <= 51.0)
      && (level == 4 <==> 51.0 < quality.value <= 68.0)
      && (level == 5 <==> 68.0 < quality.value <= 85.0)
      && (level == 6 <==> 85.0 < quality.value)
  {
    match quality
    case None => 5
    case Some(q) =>
      if q <= 17.0 then 1
      else if q > 17.0 && q <= 34.0 then 2
      else if q > 34.0 && q <= 51.0 then 3
      else if q > 51.0 && q <= 68.0 then 4
      else if q > 68.0 && q <= 85.0 then 5
      else 6
  }

  /** A higher quality never selects a lower compression level. */
  lemma CompressionLevelMonotone(q1: real, q2: real)
    requires q1 <= q2
    ensures CompressionLevel(Some(q1)) <= CompressionLevel(Some(q2))
  {
  }

  /** The fields of a `PngImage`; `binaryData` is the PNG the handle was
      opened or imported from, `imageBytes` the oxipng output, if any. */
  datatype PngState = PngState(
    binaryData: Bytes,
    image: Image,
    imageBytes: Option<Bytes>,
    width: nat,
    height: nat,
    operationsCount: nat,
    metadataInput: nat,
    metadataOutput: Option<nat>,
    filepathInput: Path,
    filepathOutput: Option<Path>)
  {
    /** The stored size is the size of the image. */
    predicate Valid() {
      image.width == width && image.height == height
    }

    function Size(): ImgSize {
      ImgSize(width, height)
    }

    function Save(dest: Option<Path>, fs: FsView, io: WriteOutcome): Saved<PngState> {
      match SaveFilepath(filepathInput, dest, "png", fs)
      case Err(e) => Saved(this, Err(e), None)
      case Ok(p) =>
        var content := if imageBytes.None? then SavedAs(Extension(p), image) else imageBytes.value;
        var w := WriteEffect(p, content, io);
        if io.Written? then
          Saved(this.(metadataOutput := Some(io.size), filepathOutput := Some(p)), Ok(()), w)
        else
          Saved(this, Err(if imageBytes.None? then LibrarySaveError(io) else DirectWriteError(io)), w)
    }

    function Compress(quality: Option<real>, codec: CodecOutcome): Step<PngState, ()> {
      match codec
      case CodecFailed(m) => Step(this, Err(FailedToCompressImage(Some(m))))
      case CodecOk =>
        Step(this.(imageBytes := Some(Oxipng(binaryData, CompressionLevel(quality))),
                   operationsCount := operationsCount + 1), Ok(()))
    }

    function Resize(ratio: real): Step<PngState, ImgSize>
      requires ratio >= 0.0
    {
      var nw := ScaleDim(width, ratio);
      var nh := ScaleDim(height, ratio);
      Step(this.(image := Resized(image, nw, nh), width := nw, height := nh,
                 operationsCount := operationsCount + 1), Ok(ImgSize(nw, nh)))
    }

    function Trim(t: Rect): Step<PngState, ImgSize>
      requires RectInU32(t)
    {
      match TrimRule(width, height, t)
      case Err(e) => Step(this, Err(e))
      case Ok(s) =>
        Step(this.(image := Crop(image, t.x, t.y, s.width, s.height), width := s.width, height := s.height), Ok(s))
    }

    function Grayscale(): PngState {
      this.(image := Grayscaled(image), operationsCount := operationsCount + 1)
    }

    function SetImage(img: Image): PngState {
      this.(image := img)
    }
  }

  /** `PngImage::import`: encode the image as PNG to obtain the bytes that
      compression will start from. */
  function Imported(image: Image, sourcePath: Path, sourceMetadata: nat, codec: CodecOutcome): Result<PngState, RusimgError> {
    match codec
    case CodecFailed(m) => Err(FailedToCopyBinaryData(m))
    case CodecOk =>
      Ok(PngState(PngEncoded(image), image, None, image.width, image.height, 0, sourceMetadata, None, sourcePath, None))
  }

  /** `PngImage::open`: decode the buffer and keep it as the bytes that
      compression will start from. */
  function Opened(path: Path, buf: Bytes, metadata: nat, decoded: Decoded): Result<PngState, RusimgError> {
    match decoded
    case DecodeFailed(m) => Err(FailedToOpenImage(m))
    case DecodedImage(w, h, g) =>
      Ok(PngState(buf, Image(w, h, g, buf), None, w, h, 0, metadata, None, path, None))
  }

  /** A fresh handle is valid, and every operation but `set_dynamic_image`
      keeps its stored size equal to its image's size. */
  lemma OperationsKeepValid(s: PngState, ratio: real, t: Rect, q: Option<real>, c: CodecOutcome,
                            dest: Option<Path>, fs: FsView, io: WriteOutcome)
    requires s.Valid() && ratio >= 0.0 && RectInU32(t)
    ensures ScalesInProportion(s.width, s.height, ratio) ==> s.Resize(ratio).state.Valid()
    ensures var r := s.Resize(ratio).state;
      r.image.width <= Max1(r.width) && r.image.height <= Max1(r.height)
    ensures s.Trim(t).state.Valid() && s.Grayscale().Valid()
    ensures s.Compress(q, c).state.Valid() && s.Save(dest, fs, io).state.Valid()
  {
    if ScalesInProportion(s.width, s.height, ratio) {
      ResizeFillsProportionalBox(s.image, ScaleDim(s.width, ratio), ScaleDim(s.height, ratio));
    }
    if TrimRule(s.width, s.height, t).Ok? {
      TrimAgreesWithCrop(s.image, t);
    }
  }

  /** A fresh handle is valid, has counted no operation, holds no
      compressed bytes and has no output yet; `import` fails only when the
      PNG encoding of the image fails, `open` only when decoding fails, and
      an opened handle compresses from the file's own bytes. */
  lemma FreshHandlesValid(img: Image, path: Path, buf: Bytes, meta: nat, c: CodecOutcome, d: Decoded)
    ensures Imported(img, path, meta, c).Ok? ==> Imported(img, path, meta, c).value.Valid()
    ensures Opened(path, buf, meta, d).Ok? ==> Opened(path, buf, meta, d).value.Valid()
    ensures Imported(img, path, meta, c).Ok? ==>
      var s := Imported(img, path, meta, c).value;
      s.operationsCount == 0 && s.imageBytes.None? && s.filepathOutput.None? && s.filepathInput == path
    ensures Opened(path, buf, meta, d).Ok? ==>
      var s := Opened(path, buf, meta, d).value;
      s.operationsCount == 0 && s.imageBytes.None? && s.filepathOutput.None? && s.binaryData == buf
    ensures Imported(img, path, meta, c).Err? <==> c.CodecFailed?
    ensures Opened(path, buf, meta, d).Err? <==> d.DecodeFailed?
  {
  }

  /** Save writes the oxipng output when compression ran and an encoding of
      the current image otherwise; it records the output path and size only
      when the whole save succeeded, and changes nothing when it fails. */
  lemma SaveOutcome(s: PngState, dest: Option<Path>, fs: FsView, io: WriteOutcome)
    ensures var sv := s.Save(dest, fs, io);
      var sp := SaveFilepath(s.filepathInput, dest, "png", fs);
      && (sv.result.Ok? <==> sp.Ok? && io.Written?)
      && (sv.result.Ok? ==> sv.state == s.(metadataOutput := Some(io.size), filepathOutput := Some(sp.value)))
      && (sv.result.Err? ==> sv.state == s)
      && (sv.written.Some? ==> sv.written.value.path == sp.value)
      && (sv.written.Some? && s.imageBytes.Some? ==> sv.written.value.content == s.imageBytes.value)
      && (sv.written.Some? && s.imageBytes.None? ==> sv.written.value.content.SavedAs? && sv.written.value.content.image == s.image)
  {
  }

  /** How a call ends: it returns, or the thread panics. */
  datatype Run<T> = Returned(value: T) | Panicked(reason: string)

  /** `compress` as written: a failed oxipng run builds `oxipng_err`, which
      is `Err` in every arm, and then unwraps it, so the failure path
      panics instead of returning `FailedToCompressImage`. */
  function CompressAsWritten(s: PngState, quality: Option<real>, codec: CodecOutcome): Run<Step<PngState, ()>> {
    match codec
    case CodecOk => Returned(s.Compress(quality, codec))
    case CodecFailed(m) =>
      var oxipngErr: Result<Option<string>, string> := Err(m);
      if oxipngErr.Ok? then Returned(Step(s, Err(FailedToCompressImage(oxipngErr.value))))
      else Panicked("called `Result::unwrap()` on an `Err` value")
  }

  /** As written, every oxipng failure panics; a successful run behaves as
      the model's `compress`. */
  lemma CompressFailurePanics(s: PngState, quality: Option<real>, codec: CodecOutcome)
    ensures CompressAsWritten(s, quality, codec).Panicked? <==> codec.CodecFailed?
    ensures codec.CodecOk? ==> CompressAsWritten(s, quality, codec) == Returned(s.Compress(quality, codec))
  {
  }

  /** The evidently intended `compress`, which the model uses: an oxipng
      failure is returned as `FailedToCompressImage` carrying the codec's
      message and leaves the handle untouched; a success stores the oxipng
      output of the opened bytes at the quality's level and counts one
      operation. */
  lemma CompressReportsFailure(s: PngState, quality: Option<real>, codec: CodecOutcome)
    ensures var st := s.Compress(quality, codec);
      && (codec.CodecFailed? ==> st.state == s && st.result == Err(FailedToCompressImage(Some(codec.msg))))
      && (codec.CodecOk? ==>
            && st.result == Ok(()) && st.state.Size() == s.Size() && st.state.image == s.image
            && st.state.imageBytes == Some(Oxipng(s.binaryData, CompressionLevel(quality)))
            && st.state.operationsCount == s.operationsCount + 1)
  {
  }

  /** Compression starts from the bytes the handle was opened with, not from
      the current image: after a resize, a trim or a grayscale, a compressed
      save writes the same bytes as a compressed save of the untouched file.
      What the edits did to the image never reaches the output. */
  lemma CompressIgnoresEdits(path: Path, buf: Bytes, meta: nat, d: Decoded, ratio: real, t: Rect,
                             q: Option<real>, dest: Option<Path>, fs: FsView, io: WriteOutcome)
    requires Opened(path, buf, meta, d).Ok? && ratio >= 0.0 && RectInU32(t)
    ensures var s0 := Opened(path, buf, meta, d).value;
      var edited := s0.Resize(ratio).state.Trim(t).state.Grayscale();
      var a := s0.Compress(q, CodecOk).state.Save(dest, fs, io);
      var b := edited.Compress(q, CodecOk).state.Save(dest, fs, io);
      && a.written == b.written
      && (a.written.Some? ==> a.written.value.content == Oxipng(buf, CompressionLevel(q)))
  {
  }

  /** What each edit does to a PNG handle: a resize scales both dimensions
      by the ratio, truncating, and counts an operation; a trim reports the
      size the trim rule gives, stores it and counts nothing, and when
      refused changes nothing at all; grayscale keeps the size, turns the
      image gray and counts an operation. */
  /** Resizing a valid 10 x 3 handle by 55 percent records 5 x 1 while the
      image becomes 3 x 1, so the recorded size stops describing the
      image. */
  lemma ResizeCanDesync(s: PngState)
    requires s.Valid() && s.width == 10 && s.height == 3
    ensures s.Resize(55.0).state.Size() == ImgSize(5, 1)
    ensures s.Resize(55.0).state.image.width == 3 && !s.Resize(55.0).state.Valid()
  {
    assert ScaleDim(10, 55.0) == 5;
    assert ScaleDim(3, 55.0) == 1;
    ResizeCanLeaveBox(s.image);
  }

  lemma EditEffects(s: PngState, ratio: real, t: Rect)
    requires ratio >= 0.0 && RectInU32(t)
    ensures var r := s.Resize(ratio);
      && r.result == Ok(ImgSize(ScaleDim(s.width, ratio), ScaleDim(s.height, ratio)))
      && r.state.Size() == r.result.value && r.state.operationsCount == s.operationsCount + 1
    ensures var tr := s.Trim(t);
      && tr.result == TrimRule(s.width, s.height, t)
      && (tr.result.Ok? ==> tr.state.Size() == tr.result.value && tr.state.operationsCount == s.operationsCount)
      && (tr.result.Err? ==> tr.state == s)
    ensures var g := s.Grayscale();
      g.Size() == s.Size() && g.image.gray && g.operationsCount == s.operationsCount + 1
  {
  }

  /** `PngImage`, updated in place by its operations. */
  class PngImage {
    var binaryData: Bytes
    var image: Image
    var imageBytes: Option<Bytes>
    var width: nat
    var height: nat
    var operationsCount: nat
    var metadataInput: nat
    var metadataOutput: Option<nat>
    var filepathInput: Path
    var filepathOutput: Option<Path>

    function State(): PngState
      reads this
    {
      PngState(binaryData, image, imageBytes, width, height, operationsCount,
               metadataInput, metadataOutput, filepathInput, filepathOutput)
    }

    constructor FromState(s: PngState)
      ensures State() == s
    {
      binaryData, image, imageBytes := s.binaryData, s.image, s.imageBytes;
      width, height, operationsCount := s.width, s.height, s.operationsCount;
      metadataInput, metadataOutput := s.metadataInput, s.metadataOutput;
      filepathInput, filepathOutput := s.filepathInput, s.filepathOutput;
    }

    static method Import(img: Image, sourcePath: Path, sourceMetadata: nat, codec: CodecOutcome)
      returns (r: Result<PngImage, RusimgError>)
      ensures r.Err? ==> Imported(img, sourcePath, sourceMetadata, codec) == Err(r.error)
      ensures r.Ok? ==> fresh(r.value) && Imported(img, sourcePath, sourceMetadata, codec) == Ok(r.value.State())
    {
      if codec.CodecFailed? {
        return Err(FailedToCopyBinaryData(codec.msg));
      }
      var h := new PngImage.FromState(PngState(PngEncoded(img), img, None, img.width, img.height, 0,
                                               sourceMetadata, None, sourcePath, None));
      r := Ok(h);
    }

    static method Open(path: Path, buf: Bytes, metadata: nat, decoded: Decoded)
      returns (r: Result<PngImage, RusimgError>)
      ensures r.Err? ==> Opened(path, buf, metadata, decoded) == Err(r.error)
      ensures r.Ok? ==> fresh(r.value) && Opened(path, buf, metadata, decoded) == Ok(r.value.State())
    {
      if decoded.DecodeFailed? {
        return Err(FailedToOpenImage(decoded.msg));
      }
      var img := Image(decoded.width, decoded.height, decoded.gray, buf);
      var h := new PngImage.FromState(PngState(buf, img, None, img.width, img.height, 0, metadata, None, path, None));
      r := Ok(h);
    }

    method Save(dest: Option<Path>, fs: FsView, io: WriteOutcome) returns (r: Result<(), RusimgError>, written: Option<FileWrite>)
      modifies this
      ensures Saved(State(), r, written) == old(State()).Save(dest, fs, io)
    {
      var sp := SaveFilepath(filepathInput, dest, "png", fs);
      if sp.Err? {
        return Err(sp.error), None;
      }
      var savePath := sp.value;
      if imageBytes.None? {
        written := WriteEffect(savePath, SavedAs(Extension(savePath), image), io);
        if !io.Written? {
          return Err(LibrarySaveError(io)), written;
        }
        metadataOutput := Some(io.size);
      } else {
        written := WriteEffect(savePath, imageBytes.value, io);
        if !io.Written? {
          return Err(DirectWriteError(io)), written;
        }
        metadataOutput := Some(io.size);
      }
      filepathOutput := Some(savePath);
      r := Ok(());
    }

    method Compress(quality: Option<real>, codec: CodecOutcome) returns (r: Result<(), RusimgError>)
      modifies this
      ensures Step(State(), r) == old(State()).Compress(quality, codec)
    {
      var level := CompressionLevel(quality);
      match codec
      case CodecOk =>
        imageBytes := Some(Oxipng(binaryData, level));
        operationsCount := operationsCount + 1;
        r := Ok(());
      case CodecFailed(m) =>
        r := Err(FailedToCompressImage(Some(m)));
    }

    method Resize(ratio: real) returns (r: Result<ImgSize, RusimgError>)
      requires ratio >= 0.0
      modifies this
      ensures Step(State(), r) == old(State()).Resize(ratio)
    {
      var nwidth := ScaleDim(width, ratio);
      var nheight := ScaleDim(height, ratio);
      image := Resized(image, nwidth, nheight);
      width := nwidth;
      height := nheight;
      operationsCount := operationsCount + 1;
      r := Ok(ImgSize(width, height));
    }

    method Trim(t: Rect) returns (r: Result<ImgSize, RusimgError>)
      requires RectInU32(t)
      modifies this
      ensures Step(State(), r) == old(State()).Trim(t)
    {
      var w, h := t.w, t.h;
      if width < t.x + t.w || height < t.y + t.h {
        if width > t.x && height > t.y {
          w := if width < t.x + t.w then width - t.x else t.w;
          h := if height < t.y + t.h then height - t.y else t.h;
        } else {
          return Err(InvalidTrimXY);
        }
      }
      image := Crop(image, t.x, t.y, w, h);
      width := w;
      height := h;
      r := Ok(ImgSize(width, height));
    }

    method Grayscale()
      modifies this
      ensures State() == old(State()).Grayscale()
    {
      image := Grayscaled(image);
      operationsCount := operationsCount + 1;
    }

    method SetDynamicImage(img: Image) returns (r: Result<(), RusimgError>)
      modifies this
      ensures r == Ok(()) && State() == old(State()).SetImage(img)
    {
      image := img;
      r := Ok(());
    }

    method GetDynamicImage() returns (r: Result<Image, RusimgError>)
      ensures r == Ok(image)
    {
      r := Ok(image);
    }

    /** `get_size`: the stored size, which is the image's size while the
        handle is valid. */
    function GetSize(): (s: ImgSize)
      reads this
      ensures s == State().Size()
      ensures State().Valid() ==> s == ImgSize(image.width, image.height)
    {
      ImgSize(width, height)
    }
  }
}
