/** What the four format handles share: the error type of the library, the
    trim rectangle, image sizes, an abstract decoded image and the bytes that
    end up in files, the trim rule every current handle applies, the resize
    arithmetic, and the rule that picks the file a handle saves to. */
module Images {
  import opened Wrappers
  import opened Paths

  const U32_MAX: nat := 0xFFFF_FFFF

  /** `RusimgError`. Messages that the source takes from a library error are
      strings here; which message a failing library gives is an input. */
  datatype RusimgError =
    | FailedToOpenFile(msg: string)
    | FailedToReadFile(msg: string)
    | FailedToGetMetadata(msg: string)
    | FailedToOpenImage(msg: string)
    | FailedToSaveImage(msg: string)
    | FailedToCopyBinaryData(msg: string)
    | FailedToGetFilename(path: Path)
    | FailedToCreateFile(msg: string)
    | FailedToWriteFIle(msg: string)
    | FailedToDecodeWebp
    | FailedToEncodeWebp(msg: string)
    | FailedToCompressImage(detail: Option<string>)
    | FailedToConvertPathToString
    | InvalidTrimXY
    | ImageFormatCannotBeCompressed
    | UnsupportedFileExtension
    | ImageDataIsNone
    | FailedToGetDynamicImage
    | FailedToConvertExtension

  /** A trim rectangle; each field is a `u32`. */
  datatype Rect = Rect(x: nat, y: nat, w: nat, h: nat)

  /** The handles add `x + w` and `y + h` in `u32`: a rectangle for which
      either sum exceeds `u32::MAX` makes them panic, so callers must not
      pass one. */
  predicate RectInU32(r: Rect) {
    r.x + r.w <= U32_MAX && r.y + r.h <= U32_MAX
  }

  datatype ImgSize = ImgSize(width: nat, height: nat)

  /** A decoded image (`image::DynamicImage`): its dimensions, whether it
      was turned to grayscale, and the bytes it was decoded from. */
  datatype Image = Image(width: nat, height: nat, gray: bool, origin: Bytes)

  /** Contents of a file or of an in-memory buffer, by provenance. */
  datatype Bytes =
    | FileBytes(id: nat)                         // read from an input file
    | PngEncoded(image: Image)                   // `write_to(.., ImageFormat::Png)`
    | SavedAs(ext: Option<string>, image: Image) // `save(path)`, format chosen by the path's extension
    | Oxipng(input: Bytes, level: nat)           // `oxipng::optimize_from_memory`
    | MozJpeg(image: Image, quality: real)       // `mozjpeg::Compress`
    | WebpEncoded(image: Image, quality: real)   // `webp::Encoder::encode`

  /** What a codec call the model does not look into answers. */
  datatype CodecOutcome = CodecOk | CodecFailed(msg: string)

  /** What a decoder answers for an input buffer. */
  datatype Decoded = DecodedImage(width: nat, height: nat, gray: bool) | DecodeFailed(msg: string)

  /** What the file system does when a handle writes its output file and
      then asks for the file's metadata. */
  datatype WriteOutcome =
    | Written(size: nat)
    | CreateFailed(msg: string)
    | WriteFailed(msg: string)
    | MetadataFailed(msg: string)

  /** A file write that happened: which path received which bytes. */
  datatype FileWrite = FileWrite(path: Path, content: Bytes)

  /** The result of a handle's `save`: its new state, what it returned and
      the write it performed (a write can happen before a metadata error). */
  datatype Saved<S> = Saved(state: S, result: Result<(), RusimgError>, written: Option<FileWrite>)

  /** The result of an operation that returns a value and updates a handle. */
  datatype Step<S, T> = Step(state: S, result: Result<T, RusimgError>)

  /** `SaveStatus`: the file written, the size of the input file and the
      size of the output file. */
  datatype SaveStatus = SaveStatus(outputPath: Option<Path>, beforeFilesize: nat, afterFilesize: Option<nat>)

  function Min(a: int, b: int): int {
    if a <= b then a else b
  }

  /** `DynamicImage::crop`, which clamps the rectangle to the image. */
  function Crop(img: Image, x: nat, y: nat, w: nat, h: nat): (r: Image)
    ensures r.gray == img.gray && r.origin == img.origin
    ensures r.width <= img.width && r.height <= img.height
  {
    var x' := Min(x, img.width);
    var y' := Min(y, img.height);
    img.(width := Min(w, img.width - x'), height := Min(h, img.height - y'))
  }

  /** A requested side of 0 counts as 1: the crate never makes an image
      with an empty side. */
  function Max1(n: nat): nat {
    if n == 0 then 1 else n
  }

  function RMin(a: real, b: real): real {
    if a <= b then a else b
  }

  /** `f64::round` on a non-negative number: to the nearest integer, halves
      away from zero. */
  function Round(x: real): nat
    requires x >= 0.0
  {
    var n := (x + 0.5).Floor;
    assert n >= 0;
    n
  }

  /** One side scaled by a ratio no larger than the box allows stays inside
      the box, and fills it when the ratio is the box's own. */
  lemma SideFits(side: nat, box: nat, ratio: real)
    requires side > 0 && 0.0 <= ratio <= box as real / side as real
    ensures Round(side as real * ratio) <= box
    ensures ratio == box as real / side as real ==> Round(side as real * ratio) == box
  {
    assert side as real * (box as real / side as real) == box as real;
    assert side as real * ratio <= side as real * (box as real / side as real);
  }

  /** The size the image crate's `resize_dimensions` (without fill) picks
      for a `width` x `height` image asked to fit `w` x `h`: both sides
      scaled by the smaller of the two ratios, rounded, and at least 1. For
      a side of 0 the `f64` ratio of that side is infinite or NaN, which
      `f64::min` passes over, and a NaN product casts to 0. The result lies
      inside the box and, unless the image is empty, touches one of its
      sides. */
  function FitDims(width: nat, height: nat, w: nat, h: nat): (r: ImgSize)
    ensures 1 <= r.width <= Max1(w) && 1 <= r.height <= Max1(h)
    ensures (width > 0 || height > 0) ==> r.width == Max1(w) || r.height == Max1(h)
  {
    if width == 0 && height == 0 then ImgSize(1, 1)
    else if width == 0 then ImgSize(1, Max1(h))
    else if height == 0 then ImgSize(Max1(w), 1)
    else
      var wr := w as real / width as real;
      var hr := h as real / height as real;
      var ratio := RMin(wr, hr);
      SideFits(width, w, ratio);
      SideFits(height, h, ratio);
      ImgSize(Max1(Round(width as real * ratio)), Max1(Round(height as real * ratio)))
  }

  /** `DynamicImage::resize` to the given bounds: the image unchanged when
      the bounds are its own size, otherwise scaled to fit inside them with
      its aspect ratio kept. */
  function Resized(img: Image, w: nat, h: nat): (r: Image)
    ensures r.gray == img.gray && r.origin == img.origin
    ensures (w, h) == (img.width, img.height) ==> r == img
    ensures (w, h) != (img.width, img.height) ==>
      1 <= r.width <= Max1(w) && 1 <= r.height <= Max1(h) &&
      ((img.width > 0 || img.height > 0) ==> r.width == Max1(w) || r.height == Max1(h))
  {
    if w == img.width && h == img.height then img
    else
      var d := FitDims(img.width, img.height, w, h);
      img.(width := d.width, height := d.height)
  }

  /** Whether a box is the image's own size or has exactly the image's
      proportions, so that the crate's resize fills it. */
  predicate Proportional(width: nat, height: nat, w: nat, h: nat) {
    (w == width && h == height) ||
    (0 < w && 0 < h && 0 < width && 0 < height && w * height == h * width)
  }

  /** `DynamicImage::grayscale`. */
  function Grayscaled(img: Image): Image {
    img.(gray := true)
  }

  /** A new dimension after resizing by `ratio` percent: the product
      truncated towards zero, as the `as usize` cast does. */
  function ScaleDim(d: nat, ratio: real): nat
    requires ratio >= 0.0
  {
    var x := (d as real) * ratio / 100.0;
    assert x >= 0.0;
    x.Floor
  }

  /** The trim rule of the current handles: a rectangle inside the image is
      taken as it is; one that overhangs the right or bottom edge is clipped
      to the image when its origin lies inside the image, and refused with
      `InvalidTrimXY` otherwise. The result is the size after trimming. */
  function TrimRule(width: nat, height: nat, t: Rect): (r: Result<ImgSize, RusimgError>)
    ensures r.Err? <==> (width < t.x + t.w || height < t.y + t.h) && (t.x >= width || t.y >= height)
    ensures r.Err? ==> r.error == InvalidTrimXY
    ensures r.Ok? ==> r.value == ImgSize(Min(t.w, width - t.x), Min(t.h, height - t.y))
  {
    if width < t.x + t.w || height < t.y + t.h then
      if width > t.x && height > t.y then
        Ok(ImgSize(if width < t.x + t.w then width - t.x else t.w,
                   if height < t.y + t.h then height - t.y else t.h))
      else
        Err(InvalidTrimXY)
    else
      Ok(ImgSize(t.w, t.h))
  }

  /** A rectangle that lies inside the image is kept exactly. */
  lemma TrimInsideKeepsRect(width: nat, height: nat, t: Rect)
    requires t.x + t.w <= width && t.y + t.h <= height
    ensures TrimRule(width, height, t) == Ok(ImgSize(t.w, t.h))
  {
  }

  /** An accepted trim never exceeds the request and the trimmed area,
      placed at the requested origin, lies inside the image. */
  lemma TrimStaysInside(width: nat, height: nat, t: Rect)
    requires TrimRule(width, height, t).Ok?
    ensures var s := TrimRule(width, height, t).value;
      s.width <= t.w && s.height <= t.h && t.x + s.width <= width && t.y + s.height <= height
  {
  }

  /** The size the trim rule reports is the size of the image that
      `crop` cuts out with it: after a trim, the size a handle stores and the
      size of its image agree. */
  lemma TrimAgreesWithCrop(img: Image, t: Rect)
    requires TrimRule(img.width, img.height, t).Ok?
    ensures var s := TrimRule(img.width, img.height, t).value;
      var c := Crop(img, t.x, t.y, s.width, s.height);
      c.width == s.width && c.height == s.height
  {
  }

  /** Resizing by 100 percent keeps a dimension. */
  lemma ScaleByHundredKeeps(d: nat)
    ensures ScaleDim(d, 100.0) == d
  {
    assert (d as real) * 100.0 / 100.0 == d as real;
  }

  /** Resizing by less than 100 percent strictly shrinks every non-zero
      dimension, and by more than 100 percent never shrinks one. */
  lemma ScaleDirection(d: nat, ratio: real)
    requires ratio >= 0.0
    ensures 0 < d && ratio < 100.0 ==> ScaleDim(d, ratio) < d
    ensures ratio >= 100.0 ==> ScaleDim(d, ratio) >= d
  {
    var x := (d as real) * ratio / 100.0;
    if 0 < d && ratio < 100.0 {
      assert x < d as real by {
        assert (d as real) * ratio < (d as real) * 100.0;
      }
    }
    if ratio >= 100.0 {
      assert x >= d as real by {
        assert (d as real) * ratio >= (d as real) * 100.0;
      }
    }
  }

  /** Whether resizing a `width` x `height` image by `ratio` percent asks
      the crate for a box it fills exactly. */
  predicate ScalesInProportion(width: nat, height: nat, ratio: real)
    requires ratio >= 0.0
  {
    Proportional(width, height, ScaleDim(width, ratio), ScaleDim(height, ratio))
  }

  /** Cross-multiplied equal fractions are equal. */
  lemma EqualRatios(a: real, b: real, c: real, d: real)
    requires b > 0.0 && d > 0.0 && a * d == c * b
    ensures a / b == c / d
  {
    var p, q := a / b, c / d;
    assert p * b == a && q * d == c;
    assert p * (b * d) == q * (b * d) by {
      calc {
        p * (b * d);
        (p * b) * d;
        a * d;
        c * b;
        (q * d) * b;
        q * (b * d);
      }
    }
  }

  /** A box in the image's own proportions is filled exactly. */
  lemma ResizeFillsProportionalBox(img: Image, w: nat, h: nat)
    requires Proportional(img.width, img.height, w, h)
    ensures Resized(img, w, h).width == w && Resized(img, w, h).height == h
  {
    if (w, h) != (img.width, img.height) {
      var wr, hr := w as real / img.width as real, h as real / img.height as real;
      EqualRatios(w as real, img.width as real, h as real, img.height as real);
      SideFits(img.width, w, wr);
      SideFits(img.height, h, hr);
    }
  }

  /** A box out of proportion is not filled: a 10 x 3 image asked to fit
      5 x 1 becomes 3 x 1. */
  lemma ResizeCanLeaveBox(img: Image)
    requires img.width == 10 && img.height == 3
    ensures Resized(img, 5, 1).width == 3 && Resized(img, 5, 1).height == 1
    ensures !Proportional(10, 3, 5, 1)
  {
    var ratio := RMin(5.0 / 10.0, 1.0 / 3.0);
    assert ratio == 1.0 / 3.0;
    assert Round(10.0 * ratio) == 3;
    assert Round(3.0 * ratio) == 1;
  }

  /** `get_save_filepath`: an explicit destination that is a directory
      receives the source's file name with the handle's extension; any
      other explicit destination is used as it is; without a destination
      the source path gets the handle's extension. */
  function SaveFilepath(source: Path, dest: Option<Path>, newExt: string, fs: FsView): Result<Path, RusimgError> {
    match dest
    case Some(d) =>
      if fs.IsDir(d) then
        match FileName(source)
        case None => Err(FailedToGetFilename(source))
        case Some(n) => Ok(WithExtension(Join(d, n), newExt))
      else
        Ok(d)
    case None =>
      Ok(WithExtension(source, newExt))
  }

  /** Where a save lands: inside the destination directory, or next to the
      source, under the source's stem and carrying the handle's extension;
      an explicit file destination is taken verbatim; a source without a
      file name can only fail when the destination is a directory. */
  lemma SaveFilepathLands(source: Path, dest: Option<Path>, newExt: string, fs: FsView)
    requires newExt != "" && '.' !in newExt
    requires source.name.Some? ==> source.name.value != "" && source.name.value != ".."
    ensures var r := SaveFilepath(source, dest, newExt, fs);
      && (r.Err? <==> dest.Some? && fs.IsDir(dest.value) && source.name.None?)
      && (r.Err? ==> r.error == FailedToGetFilename(source))
      && (dest.Some? && !fs.IsDir(dest.value) ==> r == Ok(dest.value))
      && (dest.Some? && fs.IsDir(dest.value) && r.Ok? ==>
            r.value.dirs == Components(dest.value)
            && Extension(r.value) == Some(newExt)
            && FileStem(r.value) == FileStem(source))
      && (dest.None? && source.name.Some? ==>
            r.value.dirs == source.dirs
            && Extension(r.value) == Some(newExt)
            && FileStem(r.value) == FileStem(source))
  {
    if dest.Some? && fs.IsDir(dest.value) && source.name.Some? {
      var j := Join(dest.value, source.name.value);
      WithExtensionRoundTrip(j, newExt);
    }
    if dest.None? && source.name.Some? {
      WithExtensionRoundTrip(source, newExt);
    }
  }

  /** The write a handle performs, given the file system's answer: the
      bytes reach the file unless creating or writing it failed. */
  function WriteEffect(path: Path, content: Bytes, io: WriteOutcome): (w: Option<FileWrite>)
    ensures w.Some? <==> io.Written? || io.MetadataFailed?
  {
    if io.Written? || io.MetadataFailed? then Some(FileWrite(path, content)) else None
  }

  /** The error of a save through the image library (`DynamicImage::save`
      followed by `std::fs::metadata`). */
  function LibrarySaveError(io: WriteOutcome): RusimgError
    requires !io.Written?
  {
    match io
    case CreateFailed(m) => FailedToSaveImage(m)
    case WriteFailed(m) => FailedToSaveImage(m)
    case MetadataFailed(m) => FailedToGetMetadata(m)
  }

  /** The error of a direct write (`File::create`, `write_all`,
      `File::metadata`). */
  function DirectWriteError(io: WriteOutcome): RusimgError
    requires !io.Written?
  {
    match io
    case CreateFailed(m) => FailedToCreateFile(m)
    case WriteFailed(m) => FailedToWriteFIle(m)
    case MetadataFailed(m) => FailedToGetMetadata(m)
  }
}
