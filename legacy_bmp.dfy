/** The oldest BMP handle (`src/rusimg/bmp.rs`): width and height are kept
    as two fields, errors are plain messages, and its trim uses a clamping
    rule of its own. The path a save goes to is chosen by a trait method
    that is not part of this model, so it is an input here. */
module LegacyBmp {
  import opened Wrappers
  import opened Paths
  import opened Images
  import ArgParse

  /** The fields of the oldest `BmpImage`. */
  datatype BmpState = BmpState(
    image: Image,
    width: nat,
    height: nat,
    metadataInput: nat,
    metadataOutput: Option<nat>,
    filepathInput: Path,
    filepathOutput: Option<Path>)
  {
    /** The stored size is the size of the image. */
    predicate Valid() {
      image.width == width && image.height == height
    }
  }

  /** An operation's new state and its result; errors are messages. */
  datatype Outcome<T> = Outcome(state: BmpState, result: Result<T, string>)

  /** `import`: the size is read off the image; nothing is saved yet. */
  function Imported(image: Image, sourcePath: Path, sourceMetadata: nat): (s: BmpState)
    ensures s.Valid() && s.filepathInput == sourcePath && s.metadataInput == sourceMetadata
    ensures s.image == image && s.filepathOutput.None? && s.metadataOutput.None?
  {
    BmpState(image, image.width, image.height, sourceMetadata, None, sourcePath, None)
  }

  /** The message of a failed `save` through the image library. */
  function SaveMessage(io: WriteOutcome): string
    requires !io.Written?
  {
    match io
    case CreateFailed(m) => "Failed to save image: " + m
    case WriteFailed(m) => "Failed to save image: " + m
    case MetadataFailed(_) => "Failed to get metadata"
  }

  /** `save`: encode the image into `savePath`, then record the output
      file's size and path. */
  function SaveOf(s: BmpState, savePath: Path, io: WriteOutcome): (Outcome<()>, Option<FileWrite>) {
    var w := WriteEffect(savePath, SavedAs(Extension(savePath), s.image), io);
    if io.Written? then
      (Outcome(s.(metadataOutput := Some(io.size), filepathOutput := Some(savePath)), Ok(())), w)
    else
      (Outcome(s, Err(SaveMessage(io))), w)
  }

  /** `resize`: both dimensions scaled by `ratio` percent and truncated. */
  function ResizeOf(s: BmpState, ratio: real): Outcome<()>
    requires ratio >= 0.0
  {
    var nw := ScaleDim(s.width, ratio);
    var nh := ScaleDim(s.height, ratio);
    Outcome(s.(image := Resized(s.image, nw, nh), width := nw, height := nh), Ok(()))
  }

  /** The trim rule of this handle, as written: an overhanging rectangle is
      refused only when its origin is outside the image in both directions,
      and is otherwise clamped to the image's full width and height rather
      than to what is left of the image right of and below the origin. */
  function TrimAsWritten(width: nat, height: nat, t: Rect): (r: Result<ImgSize, string>)
    ensures r.Err? <==> (width < t.x + t.w || height < t.y + t.h) && t.x >= width && t.y >= height
    ensures r.Err? ==> r.error == "Trim: Invalid trim point: " + ArgParse.Decimal(t.x) + "x" + ArgParse.Decimal(t.y)
    ensures r.Ok? && t.x + t.w <= width && t.y + t.h <= height ==> r.value == ImgSize(t.w, t.h)
    ensures r.Ok? && (width < t.x + t.w || height < t.y + t.h) ==>
      r.value == ImgSize(Min(width, t.w), Min(height, t.h))
  {
    if width < t.x + t.w || height < t.y + t.h then
      if width > t.x || height > t.y then
        Ok(ImgSize(Min(width, t.w), Min(height, t.h)))
      else
        Err("Trim: Invalid trim point: " + ArgParse.Decimal(t.x) + "x" + ArgParse.Decimal(t.y))
    else
      Ok(ImgSize(t.w, t.h))
  }

  /** `trim`: crop with the size the rule gives and store that size. */
  function TrimOf(s: BmpState, t: Rect): Outcome<()>
    requires RectInU32(t)
  {
    match TrimAsWritten(s.width, s.height, t)
    case Err(m) => Outcome(s, Err(m))
    case Ok(sz) => Outcome(s.(image := Crop(s.image, t.x, t.y, sz.width, sz.height), width := sz.width, height := sz.height), Ok(()))
  }

  function GrayscaleOf(s: BmpState): BmpState {
    s.(image := Grayscaled(s.image))
  }

  /** `compress` refuses every quality. */
  const COMPRESS_REFUSED: string := "BMP images cannot be compressed"

  /** A save succeeds exactly when the file system lets it; it writes the
      current image to the given path, and only a successful save changes the
      handle, by recording that path and the new file's size. */
  lemma SaveOutcome(s: BmpState, savePath: Path, io: WriteOutcome)
    ensures var (st, w) := SaveOf(s, savePath, io);
      && (st.result.Ok? <==> io.Written?)
      && (st.result.Ok? ==> st.state == s.(metadataOutput := Some(io.size), filepathOutput := Some(savePath)))
      && (st.result.Err? ==> st.state == s)
      && (w.Some? ==> w.value == FileWrite(savePath, SavedAs(Extension(savePath), s.image)))
      && (io.MetadataFailed? ==> st.result == Err("Failed to get metadata") && w.Some?)
  {
  }

  /** Resizing never fails, keeps a valid handle valid and scales both
      dimensions; by 100 percent it keeps them. */
  lemma ResizeScales(s: BmpState, ratio: real)
    requires s.Valid() && ratio >= 0.0
    ensures var st := ResizeOf(s, ratio);
      && st.result.Ok?
      && st.state.width == ScaleDim(s.width, ratio) && st.state.height == ScaleDim(s.height, ratio)
      && st.state.image.width <= Max1(st.state.width) && st.state.image.height <= Max1(st.state.height)
      && (ScalesInProportion(s.width, s.height, ratio) ==> st.state.Valid())
      && (ratio == 100.0 ==> st.state.width == s.width && st.state.height == s.height && st.state.Valid())
  {
    if ScalesInProportion(s.width, s.height, ratio) {
      ResizeFillsProportionalBox(s.image, ScaleDim(s.width, ratio), ScaleDim(s.height, ratio));
    }
    if ratio == 100.0 {
      ScaleByHundredKeeps(s.width);
      ScaleByHundredKeeps(s.height);
    }
  }

  /** A rectangle inside the image is cut out exactly and the handle stays
      valid: the as-written rule is only wrong for overhanging rectangles. */
  lemma TrimInsideIsExact(s: BmpState, t: Rect)
    requires s.Valid() && RectInU32(t) && t.x + t.w <= s.width && t.y + t.h <= s.height
    ensures TrimOf(s, t).result.Ok? && TrimOf(s, t).state.Valid()
    ensures TrimOf(s, t).state.width == t.w && TrimOf(s, t).state.height == t.h
  {
  }

  /** Finding: a 10x10 image trimmed at (5, 0) to 10x10 is cropped to 5x10,
      but the handle records 10x10. */
  lemma TrimOverhangBreaksSize()
    ensures var s := Imported(Image(10, 10, false, FileBytes(0)), Path([], Some("a.bmp")), 0);
      var st := TrimOf(s, Rect(5, 0, 10, 10));
      && st.result.Ok?
      && st.state.width == 10 && st.state.image.width == 5
      && !st.state.Valid()
  {
  }

  /** Finding: an origin to the right of a 10x10 image is accepted because
      it is still above the bottom edge; the crop is empty while the handle
      records 5x10. */
  lemma TrimOutsideOriginAccepted()
    ensures var s := Imported(Image(10, 10, false, FileBytes(0)), Path([], Some("a.bmp")), 0);
      var st := TrimOf(s, Rect(20, 0, 5, 20));
      && st.result.Ok?
      && st.state.image.width == 0 && st.state.width == 5
      && !st.state.Valid()
  {
  }

  /** The corrected rule (the one every current handle applies) keeps the
      handle valid for every rectangle, refuses exactly the rectangles whose
      origin lies outside the image, and agrees with the as-written rule on
      rectangles inside the image. */
  lemma CorrectedTrimKeepsSize(s: BmpState, t: Rect)
    requires s.Valid() && RectInU32(t)
    ensures var r := TrimRule(s.width, s.height, t);
      && (r.Ok? ==> (Crop(s.image, t.x, t.y, r.value.width, r.value.height).width == r.value.width
                     && Crop(s.image, t.x, t.y, r.value.width, r.value.height).height == r.value.height))
      && (r.Err? <==> (s.width < t.x + t.w || s.height < t.y + t.h) && (t.x >= s.width || t.y >= s.height))
      && (t.x + t.w <= s.width && t.y + t.h <= s.height ==>
            r.Ok? && TrimAsWritten(s.width, s.height, t) == Ok(r.value))
  {
    if TrimRule(s.width, s.height, t).Ok? {
      TrimAgreesWithCrop(s.image, t);
    }
  }

  /** The oldest `BmpImage`, updated in place by its operations. */
  class BmpImage {
    var image: Image
    var width: nat
    var height: nat
    var metadataInput: nat
    var metadataOutput: Option<nat>
    var filepathInput: Path
    var filepathOutput: Option<Path>

    function State(): BmpState
      reads this
    {
      BmpState(image, width, height, metadataInput, metadataOutput, filepathInput, filepathOutput)
    }

    constructor Import(img: Image, sourcePath: Path, sourceMetadata: nat)
      ensures State() == Imported(img, sourcePath, sourceMetadata)
    {
      image := img;
      width, height := img.width, img.height;
      metadataInput, metadataOutput := sourceMetadata, None;
      filepathInput, filepathOutput := sourcePath, None;
    }

    method Save(savePath: Path, io: WriteOutcome) returns (r: Result<(), string>, written: Option<FileWrite>)
      modifies this
      ensures (Outcome(State(), r), written) == SaveOf(old(State()), savePath, io)
    {
      written := WriteEffect(savePath, SavedAs(Extension(savePath), image), io);
      if !io.Written? {
        return Err(SaveMessage(io)), written;
      }
      metadataOutput := Some(io.size);
      filepathOutput := Some(savePath);
      r := Ok(());
    }

    method Compress(quality: Option<real>) returns (r: Result<(), string>)
      ensures r == Err(COMPRESS_REFUSED)
    {
      r := Err(COMPRESS_REFUSED);
    }

    method Resize(ratio: real) returns (r: Result<(), string>)
      requires ratio >= 0.0
      modifies this
      ensures Outcome(State(), r) == ResizeOf(old(State()), ratio)
    {
      var nwidth := ScaleDim(width, ratio);
      var nheight := ScaleDim(height, ratio);
      image := Resized(image, nwidth, nheight);
      width, height := nwidth, nheight;
      r := Ok(());
    }

    method Trim(t: Rect) returns (r: Result<(), string>)
      requires RectInU32(t)
      modifies this
      ensures Outcome(State(), r) == TrimOf(old(State()), t)
    {
      var w, h := t.w, t.h;
      if width < t.x + w || height < t.y + h {
        if width > t.x || height > t.y {
          w := Min(width, w);
          h := Min(height, h);
        } else {
          return Err("Trim: Invalid trim point: " + ArgParse.Decimal(t.x) + "x" + ArgParse.Decimal(t.y));
        }
      }
      image := Crop(image, t.x, t.y, w, h);
      width, height := w, h;
      r := Ok(());
    }

    method Grayscale()
      modifies this
      ensures State() == GrayscaleOf(old(State()))
    {
      image := Grayscaled(image);
    }
  }
}
