/** The JPEG handle of the slot-based generation
    (`src/rusimg/imgprocessor/jpeg.rs`). Its fields, `import`, `open`,
    `save`, `resize` and `grayscale` are those of the current handle; it
    differs in two places: a trim counts as an operation, and a failed
    mozjpeg run is reported without detail. */
module LegacyJpeg {
  import opened Wrappers
  import opened Paths
  import opened Images
  import opened JpegFormat

  /** `trim`: the clamping rule of the current handles, and one more
      operation on success. */
  function OldTrim(s: JpegState, t: Rect): Step<JpegState, ImgSize>
    requires RectInU32(t)
  {
    match TrimRule(s.size.width, s.size.height, t)
    case Err(e) => Step(s, Err(e))
    case Ok(sz) =>
      Step(s.(image := Crop(s.image, t.x, t.y, sz.width, sz.height), size := sz,
              operationsCount := s.operationsCount + 1), Ok(sz))
  }

  /** `compress`: mozjpeg on the current image, quality 75 by default. */
  function OldCompress(s: JpegState, quality: Option<real>, codec: CodecOutcome): Step<JpegState, ()> {
    match codec
    case CodecFailed(_) => Step(s, Err(FailedToCompressImage(None)))
    case CodecOk =>
      Step(s.(imageBytes := Some(MozJpeg(s.image, quality.GetOr(DEFAULT_QUALITY))),
              operationsCount := s.operationsCount + 1), Ok(()))
  }

  /** A trim here leaves the image, the size and the result exactly as the
      current handle's trim does, and differs only in counting one more
      operation when it succeeds; an overhanging rectangle whose origin is
      outside the image is refused with `InvalidTrimXY` and changes
      nothing. */
  lemma TrimCountsAsOperation(s: JpegState, t: Rect)
    requires RectInU32(t)
    ensures var older := OldTrim(s, t);
      var cur := s.Trim(t);
      && older.result == cur.result
      && older.state.(operationsCount := cur.state.operationsCount) == cur.state
      && (older.result.Ok? ==> older.state.operationsCount == s.operationsCount + 1)
      && (older.result.Err? ==> older.state == s && older.result.error == InvalidTrimXY)
      && (older.result.Err? <==>
            ((s.size.width < t.x + t.w || s.size.height < t.y + t.h) && (t.x >= s.size.width || t.y >= s.size.height)))
  {
  }

  /** Every operation keeps the stored size equal to the image's size. */
  lemma OperationsKeepValid(s: JpegState, ratio: real, t: Rect, q: Option<real>, c: CodecOutcome)
    requires s.Valid() && ratio >= 0.0 && RectInU32(t)
    ensures OldTrim(s, t).state.Valid() && OldCompress(s, q, c).state.Valid()
    ensures ScalesInProportion(s.size.width, s.size.height, ratio) ==> s.Resize(ratio).state.Valid()
    ensures s.Grayscale().Valid()
  {
    if ScalesInProportion(s.size.width, s.size.height, ratio) {
      ResizeFillsProportionalBox(s.image, ScaleDim(s.size.width, ratio), ScaleDim(s.size.height, ratio));
    }
    if TrimRule(s.size.width, s.size.height, t).Ok? {
      TrimAgreesWithCrop(s.image, t);
    }
  }

  /** Compression succeeds exactly when mozjpeg does; then it agrees with
      the current handle; on failure nothing changes and no detail is
      given. */
  lemma CompressWithoutDetail(s: JpegState, q: Option<real>, c: CodecOutcome)
    ensures var st := OldCompress(s, q, c);
      && (st.result.Ok? <==> c.CodecOk?)
      && (st.result.Ok? ==> st == s.Compress(q, c)
                            && st.state.imageBytes == Some(MozJpeg(s.image, q.GetOr(75.0))))
      && (st.result.Err? ==> st.state == s && st.result.error == FailedToCompressImage(None))
  {
  }

  /** `JpegImage` of the slot-based generation, updated in place. */
  class JpegImage {
    var image: Image
    var imageBytes: Option<Bytes>
    var size: ImgSize
    var operationsCount: nat
    var extensionStr: string
    var metadataInput: nat
    var metadataOutput: Option<nat>
    var filepathInput: Path
    var filepathOutput: Option<Path>

    function State(): JpegState
      reads this
    {
      JpegState(image, imageBytes, size, operationsCount, extensionStr,
                metadataInput, metadataOutput, filepathInput, filepathOutput)
    }

    constructor FromState(s: JpegState)
      ensures State() == s
    {
      image, imageBytes, size := s.image, s.imageBytes, s.size;
      operationsCount, extensionStr := s.operationsCount, s.extensionStr;
      metadataInput, metadataOutput := s.metadataInput, s.metadataOutput;
      filepathInput, filepathOutput := s.filepathInput, s.filepathOutput;
    }

    static method Import(img: Image, sourcePath: Path, sourceMetadata: nat) returns (r: Result<JpegImage, RusimgError>)
      ensures r.Ok? && fresh(r.value) && r.value.State() == Imported(img, sourcePath, sourceMetadata)
    {
      var h := new JpegImage.FromState(JpegState(img, None, ImgSize(img.width, img.height), 0, "jpg",
                                                 sourceMetadata, None, sourcePath, None));
      r := Ok(h);
    }

    static method Open(path: Path, buf: Bytes, metadata: nat, decoded: Decoded)
      returns (r: Result<JpegImage, RusimgError>)
      ensures r.Err? ==> Opened(path, buf, metadata, decoded) == Err(r.error)
      ensures r.Ok? ==> fresh(r.value) && Opened(path, buf, metadata, decoded) == Ok(r.value.State())
    {
      if decoded.DecodeFailed? {
        return Err(FailedToOpenImage(decoded.msg));
      }
      var img := Image(decoded.width, decoded.height, decoded.gray, buf);
      var h := new JpegImage.FromState(JpegState(img, None, ImgSize(img.width, img.height), 0,
                                                 Extension(path).GetOr(""), metadata, None, path, None));
      r := Ok(h);
    }

    method Save(dest: Option<Path>, fs: FsView, io: WriteOutcome) returns (r: Result<(), RusimgError>, written: Option<FileWrite>)
      modifies this
      ensures Saved(State(), r, written) == old(State()).Save(dest, fs, io)
    {
      var sp := SaveFilepath(filepathInput, dest, extensionStr, fs);
      if sp.Err? {
        return Err(sp.error), None;
      }
      var savePath := sp.value;
      if imageBytes.None? {
        written := WriteEffect(savePath, SavedAs(Extension(savePath), image), io);
        if !io.Written? {
          return Err(LibrarySaveError(io)), written;
        }
      } else {
        written := WriteEffect(savePath, imageBytes.value, io);
        if !io.Written? {
          return Err(DirectWriteError(io)), written;
        }
      }
      metadataOutput := Some(io.size);
      filepathOutput := Some(savePath);
      r := Ok(());
    }

    method Compress(quality: Option<real>, codec: CodecOutcome) returns (r: Result<(), RusimgError>)
      modifies this
      ensures Step(State(), r) == OldCompress(old(State()), quality, codec)
    {
      var q := quality.GetOr(DEFAULT_QUALITY);
      if codec.CodecFailed? {
        return Err(FailedToCompressImage(None));
      }
      imageBytes := Some(MozJpeg(image, q));
      operationsCount := operationsCount + 1;
      r := Ok(());
    }

    method Resize(ratio: real) returns (r: Result<ImgSize, RusimgError>)
      requires ratio >= 0.0
      modifies this
      ensures Step(State(), r) == old(State()).Resize(ratio)
    {
      var nwidth := ScaleDim(size.width, ratio);
      var nheight := ScaleDim(size.height, ratio);
      image := Resized(image, nwidth, nheight);
      size := ImgSize(nwidth, nheight);
      operationsCount := operationsCount + 1;
      r := Ok(size);
    }

    method Trim(t: Rect) returns (r: Result<ImgSize, RusimgError>)
      requires RectInU32(t)
      modifies this
      ensures Step(State(), r) == OldTrim(old(State()), t)
    {
      var w, h := t.w, t.h;
      if size.width < t.x + w || size.height < t.y + h {
        if size.width > t.x && size.height > t.y {
          w := if size.width < t.x + w then size.width - t.x else t.w;
          h := if size.height < t.y + h then size.height - t.y else t.h;
        } else {
          return Err(InvalidTrimXY);
        }
      }
      image := Crop(image, t.x, t.y, w, h);
      size := ImgSize(w, h);
      operationsCount := operationsCount + 1;
      r := Ok(size);
    }

    method Grayscale()
      modifies this
      ensures State() == old(State()).Grayscale()
    {
      image := Grayscaled(image);
      operationsCount := operationsCount + 1;
    }
  }
}
