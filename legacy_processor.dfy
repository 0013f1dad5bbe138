/** The slot-based generation of the library (`src/rusimg/imgprocessor.rs`):
    a `RusImg` holds a tag and one optional handle per format, and every
    operation works on the slot its tag selects. The JPEG slot holds the
    handle of this generation (`LegacyJpeg`); the BMP, PNG and WebP handles
    of this generation are not part of this model, and their slots hold the
    current handles. */
module LegacyProcessor {
  import opened Wrappers
  import opened Paths
  import opened Images
  import BmpFormat
  import JpegFormat
  import PngFormat
  import WebpFormat
  import LegacyJpeg
  import Rusimg

  /** The tags of this generation: no external formats. */
  datatype Extension = Bmp | Jpeg | Png | Webp

  /** `ImgData`: one optional handle per format. */
  datatype ImgData = ImgData(
    bmp: Option<BmpFormat.BmpState>,
    jpeg: Option<JpegFormat.JpegState>,
    png: Option<PngFormat.PngState>,
    webp: Option<WebpFormat.WebpState>)

  /** `ImgData::default()`: every slot empty. */
  const EMPTY: ImgData := ImgData(None, None, None, None)

  /** The fields of a `RusImg` of this generation. */
  datatype ProcImg = ProcImg(extension: Extension, data: ImgData)

  /** The handle in the slot of tag `e`, seen as a handle of any format. */
  function Slot(d: ImgData, e: Extension): Option<Rusimg.HandleState> {
    match e
    case Bmp => if d.bmp.Some? then Some(Rusimg.BmpH(d.bmp.value)) else None
    case Jpeg => if d.jpeg.Some? then Some(Rusimg.JpegH(d.jpeg.value)) else None
    case Png => if d.png.Some? then Some(Rusimg.PngH(d.png.value)) else None
    case Webp => if d.webp.Some? then Some(Rusimg.WebpH(d.webp.value)) else None
  }

  /** Exactly the slot of `e` is filled. */
  predicate OnlyFilled(d: ImgData, e: Extension) {
    forall e': Extension :: Slot(d, e').Some? <==> e' == e
  }

  /** The slots of tags other than `e` are the same in both. */
  predicate OthersUnchanged(d1: ImgData, d2: ImgData, e: Extension) {
    forall e': Extension :: e' != e ==> Slot(d1, e') == Slot(d2, e')
  }

  /** `do_get_image_size`: the dimensions of the selected slot's image. */
  function GetImageSize(img: ProcImg): (r: Result<ImgSize, RusimgError>)
    ensures r.Err? <==> Slot(img.data, img.extension).None?
    ensures r.Err? ==> r.error == FailedToGetDynamicImage
    ensures r.Ok? ==> var i := Slot(img.data, img.extension).value.Image(); r.value == ImgSize(i.width, i.height)
  {
    match img.extension
    case Bmp => if img.data.bmp.None? then Err(FailedToGetDynamicImage)
                else Ok(ImgSize(img.data.bmp.value.image.width, img.data.bmp.value.image.height))
    case Jpeg => if img.data.jpeg.None? then Err(FailedToGetDynamicImage)
                 else Ok(ImgSize(img.data.jpeg.value.image.width, img.data.jpeg.value.image.height))
    case Png => if img.data.png.None? then Err(FailedToGetDynamicImage)
                else Ok(ImgSize(img.data.png.value.image.width, img.data.png.value.image.height))
    case Webp => if img.data.webp.None? then Err(FailedToGetDynamicImage)
                 else Ok(ImgSize(img.data.webp.value.image.width, img.data.webp.value.image.height))
  }

  /** `do_open_image`: read the file, sniff its format and open a handle of
      that format in its slot, every other slot left empty. */
  function OpenImage(path: Path, read: Rusimg.FileRead, sniffed: Result<Rusimg.ImageFormat, string>,
                     decoded: Decoded): Result<ProcImg, RusimgError> {
    match read
    case FileUnreadable(e) => Err(e)
    case FileContent(buf, size) =>
      match sniffed
      case Err(m) => Err(FailedToOpenImage(m))
      case Ok(FormatBmp) =>
        var h :- BmpFormat.Opened(path, buf, size, decoded); Ok(ProcImg(Bmp, EMPTY.(bmp := Some(h))))
      case Ok(FormatJpeg) =>
        var h :- JpegFormat.Opened(path, buf, size, decoded); Ok(ProcImg(Jpeg, EMPTY.(jpeg := Some(h))))
      case Ok(FormatPng) =>
        var h :- PngFormat.Opened(path, buf, size, decoded); Ok(ProcImg(Png, EMPTY.(png := Some(h))))
      case Ok(FormatWebP) =>
        var h :- WebpFormat.Opened(path, buf, size, decoded); Ok(ProcImg(Webp, EMPTY.(webp := Some(h))))
      case Ok(FormatOther(_)) => Err(UnsupportedFileExtension)
  }

  /** `do_resize`. */
  function Resize(img: ProcImg, ratio: real): Step<ProcImg, ImgSize>
    requires ratio >= 0.0
  {
    var d := img.data;
    match img.extension
    case Bmp => if d.bmp.None? then Step(img, Err(ImageDataIsNone))
                else var st := d.bmp.value.Resize(ratio); Step(img.(data := d.(bmp := Some(st.state))), st.result)
    case Jpeg => if d.jpeg.None? then Step(img, Err(ImageDataIsNone))
                 else var st := d.jpeg.value.Resize(ratio); Step(img.(data := d.(jpeg := Some(st.state))), st.result)
    case Png => if d.png.None? then Step(img, Err(ImageDataIsNone))
                else var st := d.png.value.Resize(ratio); Step(img.(data := d.(png := Some(st.state))), st.result)
    case Webp => if d.webp.None? then Step(img, Err(ImageDataIsNone))
                 else var st := d.webp.value.Resize(ratio); Step(img.(data := d.(webp := Some(st.state))), st.result)
  }

  /** `do_trim`, the rectangle passed on as `((x, y), (w, h))`. */
  function Trim(img: ProcImg, t: Rect): Step<ProcImg, ImgSize>
    requires RectInU32(t)
  {
    var d := img.data;
    match img.extension
    case Bmp => if d.bmp.None? then Step(img, Err(ImageDataIsNone))
                else var st := d.bmp.value.Trim(t); Step(img.(data := d.(bmp := Some(st.state))), st.result)
    case Jpeg => if d.jpeg.None? then Step(img, Err(ImageDataIsNone))
                 else var st := LegacyJpeg.OldTrim(d.jpeg.value, t); Step(img.(data := d.(jpeg := Some(st.state))), st.result)
    case Png => if d.png.None? then Step(img, Err(ImageDataIsNone))
                else var st := d.png.value.Trim(t); Step(img.(data := d.(png := Some(st.state))), st.result)
    case Webp => if d.webp.None? then Step(img, Err(ImageDataIsNone))
                 else var st := d.webp.value.Trim(t); Step(img.(data := d.(webp := Some(st.state))), st.result)
  }

  /** `do_grayscale`. */
  function Grayscale(img: ProcImg): Step<ProcImg, ()> {
    var d := img.data;
    match img.extension
    case Bmp => if d.bmp.None? then Step(img, Err(ImageDataIsNone))
                else Step(img.(data := d.(bmp := Some(d.bmp.value.Grayscale()))), Ok(()))
    case Jpeg => if d.jpeg.None? then Step(img, Err(ImageDataIsNone))
                 else Step(img.(data := d.(jpeg := Some(d.jpeg.value.Grayscale()))), Ok(()))
    case Png => if d.png.None? then Step(img, Err(ImageDataIsNone))
                else Step(img.(data := d.(png := Some(d.png.value.Grayscale()))), Ok(()))
    case Webp => if d.webp.None? then Step(img, Err(ImageDataIsNone))
                 else Step(img.(data := d.(webp := Some(d.webp.value.Grayscale()))), Ok(()))
  }

  /** `do_compress`; a BMP handle refuses to compress. */
  function Compress(img: ProcImg, quality: Option<real>, codec: CodecOutcome): Step<ProcImg, ()> {
    var d := img.data;
    match img.extension
    case Bmp => if d.bmp.None? then Step(img, Err(ImageDataIsNone))
                else Step(img, Err(ImageFormatCannotBeCompressed))
    case Jpeg => if d.jpeg.None? then Step(img, Err(ImageDataIsNone))
                 else var st := LegacyJpeg.OldCompress(d.jpeg.value, quality, codec);
                      Step(img.(data := d.(jpeg := Some(st.state))), st.result)
    case Png => if d.png.None? then Step(img, Err(ImageDataIsNone))
                else var st := d.png.value.Compress(quality, codec); Step(img.(data := d.(png := Some(st.state))), st.result)
    case Webp => if d.webp.None? then Step(img, Err(ImageDataIsNone))
                 else Step(img.(data := d.(webp := Some(d.webp.value.Compress(quality)))), Ok(()))
  }

  /** The image, source path and source size of the selected slot. */
  datatype Source = Source(image: Image, filepath: Path, metadata: nat)

  function SourceOf(img: ProcImg): Result<Source, RusimgError> {
    var d := img.data;
    match img.extension
    case Bmp => if d.bmp.None? then Err(ImageDataIsNone)
                else Ok(Source(d.bmp.value.image, d.bmp.value.filepathInput, d.bmp.value.metadataInput))
    case Jpeg => if d.jpeg.None? then Err(ImageDataIsNone)
                 else Ok(Source(d.jpeg.value.image, d.jpeg.value.filepathInput, d.jpeg.value.metadataInput))
    case Png => if d.png.None? then Err(ImageDataIsNone)
                else Ok(Source(d.png.value.image, d.png.value.filepathInput, d.png.value.metadataInput))
    case Webp => if d.webp.None? then Err(ImageDataIsNone)
                 else Ok(Source(d.webp.value.image, d.webp.value.filepathInput, d.webp.value.metadataInput))
  }

  /** `do_convert`: a new `RusImg` whose only handle is imported, in the
      target format, from the selected slot's image, source path and source
      size; the original is left as it is. */
  function Convert(original: ProcImg, to: Extension, codec: CodecOutcome): Result<ProcImg, RusimgError> {
    var src :- SourceOf(original);
    match to
    case Bmp => Ok(ProcImg(Bmp, EMPTY.(bmp := Some(BmpFormat.Imported(src.image, src.filepath, src.metadata)))))
    case Jpeg => Ok(ProcImg(Jpeg, EMPTY.(jpeg := Some(JpegFormat.Imported(src.image, src.filepath, src.metadata)))))
    case Png =>
      var h :- PngFormat.Imported(src.image, src.filepath, src.metadata, codec);
      Ok(ProcImg(Png, EMPTY.(png := Some(h))))
    case Webp => Ok(ProcImg(Webp, EMPTY.(webp := Some(WebpFormat.Imported(src.image, src.filepath, src.metadata)))))
  }

  /** The result of `do_save_image`. */
  datatype ProcSaved = ProcSaved(state: ProcImg, result: Result<SaveStatus, RusimgError>, written: Option<FileWrite>)

  /** The report of a slot after a successful save. */
  function StatusOf(h: Rusimg.HandleState): SaveStatus {
    SaveStatus(h.DestinationPath(), h.MetadataSrc(), h.MetadataDest())
  }

  /** `do_save_image`: save the selected slot's handle, then report its
      output path and the sizes of its input and output files. */
  function SaveImage(img: ProcImg, dest: Option<Path>, fs: FsView, io: WriteOutcome): ProcSaved {
    var d := img.data;
    match img.extension
    case Bmp => if d.bmp.None? then ProcSaved(img, Err(ImageDataIsNone), None)
                else var sv := d.bmp.value.Save(dest, fs, io);
                     SavedSlot(img.(data := d.(bmp := Some(sv.state))), Rusimg.BmpH(sv.state), sv.result, sv.written)
    case Jpeg => if d.jpeg.None? then ProcSaved(img, Err(ImageDataIsNone), None)
                 else var sv := d.jpeg.value.Save(dest, fs, io);
                      SavedSlot(img.(data := d.(jpeg := Some(sv.state))), Rusimg.JpegH(sv.state), sv.result, sv.written)
    case Png => if d.png.None? then ProcSaved(img, Err(ImageDataIsNone), None)
                else var sv := d.png.value.Save(dest, fs, io);
                     SavedSlot(img.(data := d.(png := Some(sv.state))), Rusimg.PngH(sv.state), sv.result, sv.written)
    case Webp => if d.webp.None? then ProcSaved(img, Err(ImageDataIsNone), None)
                 else var sv := d.webp.value.Save(dest, fs, io);
                      SavedSlot(img.(data := d.(webp := Some(sv.state))), Rusimg.WebpH(sv.state), sv.result, sv.written)
  }

  /** The `?` after the handle's save, then the report. */
  function SavedSlot(after: ProcImg, h: Rusimg.HandleState, result: Result<(), RusimgError>,
                     written: Option<FileWrite>): ProcSaved {
    match result
    case Err(e) => ProcSaved(after, Err(e), written)
    case Ok(_) => ProcSaved(after, Ok(StatusOf(h)), written)
  }

  // Every operation on an empty selected slot fails with `ImageDataIsNone`
  // and changes nothing, and no operation on a filled slot gives that
  // error: the error says exactly that the tag points at an empty slot.

  lemma ResizeRefusesEmptySlot(img: ProcImg, ratio: real)
    requires ratio >= 0.0
    ensures Resize(img, ratio).result == Err(ImageDataIsNone) <==> Slot(img.data, img.extension).None?
    ensures Slot(img.data, img.extension).None? ==> Resize(img, ratio).state == img
  {
  }

  lemma TrimRefusesEmptySlot(img: ProcImg, t: Rect)
    requires RectInU32(t)
    ensures Trim(img, t).result == Err(ImageDataIsNone) <==> Slot(img.data, img.extension).None?
    ensures Slot(img.data, img.extension).None? ==> Trim(img, t).state == img
  {
    var h := Slot(img.data, img.extension);
    if h.Some? {
      match h.value {
        case BmpH(s) =>
          assert Trim(img, t).result == s.Trim(t).result;
        case JpegH(s) =>
          assert Trim(img, t).result == LegacyJpeg.OldTrim(s, t).result;
        case PngH(s) =>
          assert Trim(img, t).result == s.Trim(t).result;
        case WebpH(s) =>
          assert Trim(img, t).result == s.Trim(t).result;
      }
    }
  }

  lemma GrayscaleRefusesEmptySlot(img: ProcImg)
    ensures Grayscale(img).result == Err(ImageDataIsNone) <==> Slot(img.data, img.extension).None?
    ensures Slot(img.data, img.extension).None? ==> Grayscale(img).state == img
  {
  }

  lemma CompressRefusesEmptySlot(img: ProcImg, q: Option<real>, c: CodecOutcome)
    ensures Compress(img, q, c).result == Err(ImageDataIsNone) <==> Slot(img.data, img.extension).None?
    ensures Slot(img.data, img.extension).None? ==> Compress(img, q, c).state == img
  {
    var h := Slot(img.data, img.extension);
    if h.Some? {
      match h.value {
        case BmpH(s) =>
        case JpegH(s) =>
          assert Compress(img, q, c).result == LegacyJpeg.OldCompress(s, q, c).result;
        case PngH(s) =>
          assert Compress(img, q, c).result == s.Compress(q, c).result;
        case WebpH(s) =>
      }
    }
  }

  lemma SaveRefusesEmptySlot(img: ProcImg, dest: Option<Path>, fs: FsView, io: WriteOutcome)
    ensures SaveImage(img, dest, fs, io).result == Err(ImageDataIsNone) <==> Slot(img.data, img.extension).None?
    ensures Slot(img.data, img.extension).None? ==>
      SaveImage(img, dest, fs, io).state == img && SaveImage(img, dest, fs, io).written.None?
  {
  }

  /** Resizing keeps the tag and touches only the selected slot, which
      stays filled when it was. */
  lemma ResizeTouchesOnlySlot(img: ProcImg, ratio: real)
    requires ratio >= 0.0
    ensures var e := img.extension; var r := Resize(img, ratio).state;
      && r.extension == e && OthersUnchanged(img.data, r.data, e)
      && (Slot(img.data, e).Some? ==> Slot(r.data, e).Some?)
  {
  }

  /** Trimming keeps the tag and touches only the selected slot, which
      stays filled when it was. */
  lemma TrimTouchesOnlySlot(img: ProcImg, t: Rect)
    requires RectInU32(t)
    ensures var e := img.extension; var r := Trim(img, t).state;
      && r.extension == e && OthersUnchanged(img.data, r.data, e)
      && (Slot(img.data, e).Some? ==> Slot(r.data, e).Some?)
  {
  }

  /** Grayscale keeps the tag and touches only the selected slot. */
  lemma GrayscaleTouchesOnlySlot(img: ProcImg)
    ensures var e := img.extension; var r := Grayscale(img).state;
      r.extension == e && OthersUnchanged(img.data, r.data, e)
  {
  }

  /** Compressing keeps the tag and touches only the selected slot. */
  lemma CompressTouchesOnlySlot(img: ProcImg, q: Option<real>, c: CodecOutcome)
    ensures var e := img.extension; var r := Compress(img, q, c).state;
      r.extension == e && OthersUnchanged(img.data, r.data, e)
  {
  }

  /** Saving keeps the tag and touches only the selected slot. */
  lemma SaveTouchesOnlySlot(img: ProcImg, dest: Option<Path>, fs: FsView, io: WriteOutcome)
    ensures var e := img.extension; var r := SaveImage(img, dest, fs, io).state;
      r.extension == e && OthersUnchanged(img.data, r.data, e)
  {
  }

  /** An opened image has exactly the slot of the sniffed format filled,
      with a handle that holds the input path and size; opening fails on
      the first failing step: reading, sniffing, an unknown format, then
      decoding. */
  lemma OpenFillsOneSlot(path: Path, read: Rusimg.FileRead, sniffed: Result<Rusimg.ImageFormat, string>,
                         decoded: Decoded)
    ensures var r := OpenImage(path, read, sniffed, decoded);
      && (read.FileUnreadable? ==> r == Err(read.error))
      && (read.FileContent? && sniffed.Err? ==> r == Err(FailedToOpenImage(sniffed.error)))
      && (read.FileContent? && sniffed.Ok? && sniffed.value.FormatOther? ==> r == Err(UnsupportedFileExtension))
      && (r.Ok? <==> read.FileContent? && sniffed.Ok? && !sniffed.value.FormatOther? && decoded.DecodedImage?)
      && (r.Ok? ==> OnlyFilled(r.value.data, r.value.extension)
                    && Slot(r.value.data, r.value.extension).value.SourcePath() == path
                    && Slot(r.value.data, r.value.extension).value.MetadataSrc() == read.size
                    && Slot(r.value.data, r.value.extension).value.Valid())
  {
  }

  /** Converting fails exactly when the selected slot is empty or the PNG
      encoding of a conversion to PNG fails; otherwise the new image is
      tagged with the target, has only the target's slot filled, and that
      handle carries the original slot's image, source path and source
      size. */
  lemma ConvertFillsTarget(original: ProcImg, to: Extension, codec: CodecOutcome)
    ensures var r := Convert(original, to, codec);
      var h := Slot(original.data, original.extension);
      && (r.Err? <==> h.None? || (to == Png && codec.CodecFailed?))
      && (h.None? ==> r == Err(ImageDataIsNone))
      && (r.Ok? ==> r.value.extension == to && OnlyFilled(r.value.data, to)
                    && Slot(r.value.data, to).value.Image() == h.value.Image()
                    && Slot(r.value.data, to).value.SourcePath() == h.value.SourcePath()
                    && Slot(r.value.data, to).value.MetadataSrc() == h.value.MetadataSrc()
                    && Slot(r.value.data, to).value.DestinationPath().None?)
  {
  }

  /** A save through a filled slot succeeds exactly when the handle's save
      does, and reports the path the save-path rule chose, the input size and
      the size of the file just written. */
  lemma SaveImageReports(img: ProcImg, dest: Option<Path>, fs: FsView, io: WriteOutcome)
    requires Slot(img.data, img.extension).Some?
    ensures var h := Slot(img.data, img.extension).value;
      var sv := SaveImage(img, dest, fs, io);
      var sp := SaveFilepath(h.SourcePath(), dest, h.SaveExtension(), fs);
      && (sv.result.Ok? <==> sp.Ok? && io.Written?)
      && (sv.result.Err? ==> sv.state == img)
      && (sv.result.Ok? ==> sv.result.value == SaveStatus(Some(sp.value), h.MetadataSrc(), Some(io.size)))
  {
  }

  /** A `RusImg` of this generation, updated in place. */
  class RusImg {
    var extension: Extension
    var data: ImgData

    function State(): ProcImg
      reads this
    {
      ProcImg(extension, data)
    }

    constructor (s: ProcImg)
      ensures State() == s
    {
      extension, data := s.extension, s.data;
    }

    static method DoOpenImage(path: Path, read: Rusimg.FileRead, sniffed: Result<Rusimg.ImageFormat, string>,
                              decoded: Decoded) returns (r: Result<RusImg, RusimgError>)
      ensures r.Err? ==> OpenImage(path, read, sniffed, decoded) == Err(r.error)
      ensures r.Ok? ==> fresh(r.value) && OpenImage(path, read, sniffed, decoded) == Ok(r.value.State())
    {
      var opening := OpenImage(path, read, sniffed, decoded);
      if opening.Err? {
        return Err(opening.error);
      }
      var img := new RusImg(opening.value);
      r := Ok(img);
    }

    function DoGetImageSize(): (r: Result<ImgSize, RusimgError>)
      reads this
      ensures r == GetImageSize(State())
    {
      GetImageSize(State())
    }

    method DoResize(ratio: real) returns (r: Result<ImgSize, RusimgError>)
      requires ratio >= 0.0
      modifies this
      ensures Step(State(), r) == Resize(old(State()), ratio)
    {
      match extension {
        case Bmp =>
          if data.bmp.None? { return Err(ImageDataIsNone); }
          var st := data.bmp.value.Resize(ratio);
          data, r := data.(bmp := Some(st.state)), st.result;
        case Jpeg =>
          if data.jpeg.None? { return Err(ImageDataIsNone); }
          var st := data.jpeg.value.Resize(ratio);
          data, r := data.(jpeg := Some(st.state)), st.result;
        case Png =>
          if data.png.None? { return Err(ImageDataIsNone); }
          var st := data.png.value.Resize(ratio);
          data, r := data.(png := Some(st.state)), st.result;
        case Webp =>
          if data.webp.None? { return Err(ImageDataIsNone); }
          var st := data.webp.value.Resize(ratio);
          data, r := data.(webp := Some(st.state)), st.result;
      }
    }

    method DoTrim(t: Rect) returns (r: Result<ImgSize, RusimgError>)
      requires RectInU32(t)
      modifies this
      ensures Step(State(), r) == Trim(old(State()), t)
    {
      match extension {
        case Bmp =>
          if data.bmp.None? { return Err(ImageDataIsNone); }
          var st := data.bmp.value.Trim(t);
          data, r := data.(bmp := Some(st.state)), st.result;
        case Jpeg =>
          if data.jpeg.None? { return Err(ImageDataIsNone); }
          var st := LegacyJpeg.OldTrim(data.jpeg.value, t);
          data, r := data.(jpeg := Some(st.state)), st.result;
        case Png =>
          if data.png.None? { return Err(ImageDataIsNone); }
          var st := data.png.value.Trim(t);
          data, r := data.(png := Some(st.state)), st.result;
        case Webp =>
          if data.webp.None? { return Err(ImageDataIsNone); }
          var st := data.webp.value.Trim(t);
          data, r := data.(webp := Some(st.state)), st.result;
      }
    }

    method DoGrayscale() returns (r: Result<(), RusimgError>)
      modifies this
      ensures Step(State(), r) == Grayscale(old(State()))
    {
      match extension {
        case Bmp =>
          if data.bmp.None? { return Err(ImageDataIsNone); }
          data := data.(bmp := Some(data.bmp.value.Grayscale()));
        case Jpeg =>
          if data.jpeg.None? { return Err(ImageDataIsNone); }
          data := data.(jpeg := Some(data.jpeg.value.Grayscale()));
        case Png =>
          if data.png.None? { return Err(ImageDataIsNone); }
          data := data.(png := Some(data.png.value.Grayscale()));
        case Webp =>
          if data.webp.None? { return Err(ImageDataIsNone); }
          data := data.(webp := Some(data.webp.value.Grayscale()));
      }
      r := Ok(());
    }

    method DoCompress(quality: Option<real>, codec: CodecOutcome) returns (r: Result<(), RusimgError>)
      modifies this
      ensures Step(State(), r) == Compress(old(State()), quality, codec)
    {
      match extension {
        case Bmp =>
          if data.bmp.None? { return Err(ImageDataIsNone); }
          r := Err(ImageFormatCannotBeCompressed);
        case Jpeg =>
          if data.jpeg.None? { return Err(ImageDataIsNone); }
          var st := LegacyJpeg.OldCompress(data.jpeg.value, quality, codec);
          data, r := data.(jpeg := Some(st.state)), st.result;
        case Png =>
          if data.png.None? { return Err(ImageDataIsNone); }
          var st := data.png.value.Compress(quality, codec);
          data, r := data.(png := Some(st.state)), st.result;
        case Webp =>
          if data.webp.None? { return Err(ImageDataIsNone); }
          data := data.(webp := Some(data.webp.value.Compress(quality)));
          r := Ok(());
      }
    }

    /** `do_convert` leaves this image as it is and returns a new one. */
    method DoConvert(to: Extension, codec: CodecOutcome) returns (r: Result<RusImg, RusimgError>)
      ensures r.Err? ==> Convert(State(), to, codec) == Err(r.error)
      ensures r.Ok? ==> fresh(r.value) && Convert(State(), to, codec) == Ok(r.value.State())
    {
      var src := SourceOf(State());
      if src.Err? {
        return Err(src.error);
      }
      var s := src.value;
      var built: ProcImg;
      match to {
        case Bmp => built := ProcImg(Bmp, EMPTY.(bmp := Some(BmpFormat.Imported(s.image, s.filepath, s.metadata))));
        case Jpeg => built := ProcImg(Jpeg, EMPTY.(jpeg := Some(JpegFormat.Imported(s.image, s.filepath, s.metadata))));
        case Png =>
          var h := PngFormat.Imported(s.image, s.filepath, s.metadata, codec);
          if h.Err? {
            return Err(h.error);
          }
          built := ProcImg(Png, EMPTY.(png := Some(h.value)));
        case Webp => built := ProcImg(Webp, EMPTY.(webp := Some(WebpFormat.Imported(s.image, s.filepath, s.metadata))));
      }
      var img := new RusImg(built);
      r := Ok(img);
    }

    method DoSaveImage(dest: Option<Path>, fs: FsView, io: WriteOutcome)
      returns (r: Result<SaveStatus, RusimgError>, written: Option<FileWrite>)
      modifies this
      ensures ProcSaved(State(), r, written) == SaveImage(old(State()), dest, fs, io)
    {
      var h: Rusimg.HandleState;
      var saved: Result<(), RusimgError>;
      match extension {
        case Bmp =>
          if data.bmp.None? { return Err(ImageDataIsNone), None; }
          var sv := data.bmp.value.Save(dest, fs, io);
          data, h, saved, written := data.(bmp := Some(sv.state)), Rusimg.BmpH(sv.state), sv.result, sv.written;
        case Jpeg =>
          if data.jpeg.None? { return Err(ImageDataIsNone), None; }
          var sv := data.jpeg.value.Save(dest, fs, io);
          data, h, saved, written := data.(jpeg := Some(sv.state)), Rusimg.JpegH(sv.state), sv.result, sv.written;
        case Png =>
          if data.png.None? { return Err(ImageDataIsNone), None; }
          var sv := data.png.value.Save(dest, fs, io);
          data, h, saved, written := data.(png := Some(sv.state)), Rusimg.PngH(sv.state), sv.result, sv.written;
        case Webp =>
          if data.webp.None? { return Err(ImageDataIsNone), None; }
          var sv := data.webp.value.Save(dest, fs, io);
          data, h, saved, written := data.(webp := Some(sv.state)), Rusimg.WebpH(sv.state), sv.result, sv.written;
      }
      if saved.Err? {
        return Err(saved.error), written;
      }
      r := Ok(StatusOf(h));
    }
  }
}
