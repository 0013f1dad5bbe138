/** The oldest PNG handle (`src/rusimg/png.rs`): the same fields as the
    current handle, errors as plain messages, and compression level 4 when no
    quality is given. The path a save goes to is chosen by a trait method
    that is not part of this model, so it is an input here. */
module LegacyPng {
  import opened Wrappers
  import opened Paths
  import opened Images
  import opened PngFormat

  /** The oxipng preset for a quality: the six bands of the current handle,
      but level 4 when no quality is given. */
  function OldCompressionLevel(quality: Option<real>): (level: nat)
    ensures quality.None? ==> level == 4
  {
    match quality
    case None => 4
    case Some(q) =>
      if q <= 17.0 then 1
      else if q > 17.0 && q <= 34.0 then 2
      else if q > 34.0 && q <= 51.0 then 3
      else if q > 51.0 && q <= 68.0 then 4
      else if q > 68.0 && q <= 85.0 then 5
      else 6
  }

  /** The two generations pick the same level for every given quality and
      differ only in the default: 4 here, 5 in the current handle. */
  lemma LevelsDifferOnlyInDefault(quality: Option<real>)
    ensures quality.Some? ==> OldCompressionLevel(quality) == CompressionLevel(quality)
    ensures quality.None? ==> OldCompressionLevel(quality) + 1 == CompressionLevel(quality)
    ensures 1 <= OldCompressionLevel(quality) <= 6
  {
  }

  /** The errors oxipng reports. */
  datatype OxipngError =
    | DeflatedDataTooLong(size: string)
    | TimedOut
    | NotPNG
    | APNGNotSupported
    | InvalidData
    | TruncatedData
    | ChunkMissing(chunk: string)
    | Other(detail: string)
    | Unknown

  /** What `oxipng::optimize_from_memory` answers. */
  datatype OxipngOutcome = Optimized | OxipngFailed(error: OxipngError)

  /** The message `compress` turns an oxipng error into. */
  function OxipngMessage(e: OxipngError): string {
    match e
    case DeflatedDataTooLong(s) => "deflated data too long: " + s
    case TimedOut => "timed out"
    case NotPNG => "not png"
    case APNGNotSupported => "apng not supported"
    case InvalidData => "invalid data"
    case TruncatedData => "truncated data"
    case ChunkMissing(s) => "chunk missing: " + s
    case Other(s) => "other: " + s
    case Unknown => "unknown error"
  }

  /** An operation's new state and its result; errors are messages. */
  datatype Outcome<T> = Outcome(state: PngState, result: Result<T, string>)

  /** `import`: encode the image as PNG to get the bytes compression starts
      from; nothing is compressed or saved yet. */
  function OldImported(image: Image, sourcePath: Path, sourceMetadata: nat, codec: CodecOutcome): Result<PngState, string> {
    match codec
    case CodecFailed(m) => Err("Failed to write image: " + m)
    case CodecOk =>
      Ok(PngState(PngEncoded(image), image, None, image.width, image.height, 0, sourceMetadata, None, sourcePath, None))
  }

  /** `compress`: run oxipng over the bytes the handle was created from. */
  function OldCompress(s: PngState, quality: Option<real>, oxi: OxipngOutcome): Outcome<()> {
    match oxi
    case OxipngFailed(e) => Outcome(s, Err(OxipngMessage(e)))
    case Optimized =>
      Outcome(s.(imageBytes := Some(Oxipng(s.binaryData, OldCompressionLevel(quality))),
                 operationsCount := s.operationsCount + 1), Ok(()))
  }

  /** The message of a failed save: through the image library when nothing
      was compressed, by a direct write otherwise. */
  function OldSaveMessage(compressed: bool, io: WriteOutcome): string
    requires !io.Written?
  {
    match io
    case CreateFailed(m) => if compressed then "Failed to create file" else "Failed to save image: " + m
    case WriteFailed(m) => if compressed then "Failed to write file" else "Failed to save image: " + m
    case MetadataFailed(_) => "Failed to get metadata"
  }

  /** `save`: write the oxipng output if there is one, the image otherwise,
      then record the output file's size and path. */
  function OldSave(s: PngState, savePath: Path, io: WriteOutcome): (Outcome<()>, Option<FileWrite>) {
    var content := if s.imageBytes.None? then SavedAs(Extension(savePath), s.image) else s.imageBytes.value;
    var w := WriteEffect(savePath, content, io);
    if io.Written? then
      (Outcome(s.(metadataOutput := Some(io.size), filepathOutput := Some(savePath)), Ok(())), w)
    else
      (Outcome(s, Err(OldSaveMessage(s.imageBytes.Some?, io))), w)
  }

  /** A fresh handle holds a PNG encoding of the image, no compressed bytes,
      no operations and no output; it fails only when the encoding fails. */
  lemma ImportStartsClean(image: Image, sourcePath: Path, sourceMetadata: nat, codec: CodecOutcome)
    ensures var r := OldImported(image, sourcePath, sourceMetadata, codec);
      && (r.Ok? <==> codec.CodecOk?)
      && (r.Ok? ==> r.value.Valid() && r.value.binaryData == PngEncoded(image) && r.value.imageBytes.None?
                    && r.value.operationsCount == 0 && r.value.filepathOutput.None? && r.value.metadataOutput.None?
                    && r.value.filepathInput == sourcePath)
  {
  }

  /** Compression counts as an operation and stores oxipng's output of the
      original bytes only when oxipng succeeds; a failure changes nothing.
      A compressed handle then saves exactly those bytes. */
  lemma CompressThenSave(s: PngState, quality: Option<real>, oxi: OxipngOutcome, savePath: Path, io: WriteOutcome)
    ensures var c := OldCompress(s, quality, oxi);
      && (c.result.Ok? <==> oxi.Optimized?)
      && (c.result.Err? ==> c.state == s && c.result.error == OxipngMessage(oxi.error))
      && (c.result.Ok? ==> c.state.operationsCount == s.operationsCount + 1
                           && c.state.imageBytes == Some(Oxipng(s.binaryData, OldCompressionLevel(quality))))
      && (c.result.Ok? && OldSave(c.state, savePath, io).1.Some? ==>
            OldSave(c.state, savePath, io).1.value == FileWrite(savePath, Oxipng(s.binaryData, OldCompressionLevel(quality))))
  {
  }

  /** A save succeeds exactly when the file system lets it; only a
      successful save changes the handle, by recording the path and size of
      the new file. */
  lemma SaveOutcome(s: PngState, savePath: Path, io: WriteOutcome)
    ensures var (st, w) := OldSave(s, savePath, io);
      && (st.result.Ok? <==> io.Written?)
      && (st.result.Ok? ==> st.state == s.(metadataOutput := Some(io.size), filepathOutput := Some(savePath)))
      && (st.result.Err? ==> st.state == s)
      && (w.Some? && s.imageBytes.None? ==> w.value == FileWrite(savePath, SavedAs(Extension(savePath), s.image)))
      && (w.Some? && s.imageBytes.Some? ==> w.value == FileWrite(savePath, s.imageBytes.value))
  {
  }

  /** The oldest `PngImage`, updated in place by its operations. */
  class PngImage {
    var binaryData: Bytes
    var image: Image
    var imageBytes: Option<Bytes>
    var width: nat
    var height: nat
    var operationsCount: nat
    var metadataInput: nat
    var metadataOutput: Option<nat>
    var filepathInput: Path
    var filepathOutput: Option<Path>

    function State(): PngState
      reads this
    {
      PngState(binaryData, image, imageBytes, width, height, operationsCount,
               metadataInput, metadataOutput, filepathInput, filepathOutput)
    }

    constructor FromState(s: PngState)
      ensures State() == s
    {
      binaryData, image, imageBytes := s.binaryData, s.image, s.imageBytes;
      width, height, operationsCount := s.width, s.height, s.operationsCount;
      metadataInput, metadataOutput := s.metadataInput, s.metadataOutput;
      filepathInput, filepathOutput := s.filepathInput, s.filepathOutput;
    }

    static method Import(img: Image, sourcePath: Path, sourceMetadata: nat, codec: CodecOutcome)
      returns (r: Result<PngImage, string>)
      ensures r.Err? ==> OldImported(img, sourcePath, sourceMetadata, codec) == Err(r.error)
      ensures r.Ok? ==> fresh(r.value) && OldImported(img, sourcePath, sourceMetadata, codec) == Ok(r.value.State())
    {
      if codec.CodecFailed? {
        return Err("Failed to write image: " + codec.msg);
      }
      var h := new PngImage.FromState(PngState(PngEncoded(img), img, None, img.width, img.height, 0,
                                               sourceMetadata, None, sourcePath, None));
      r := Ok(h);
    }

    method Save(savePath: Path, io: WriteOutcome) returns (r: Result<(), string>, written: Option<FileWrite>)
      modifies this
      ensures (Outcome(State(), r), written) == OldSave(old(State()), savePath, io)
    {
      if imageBytes.None? {
        written := WriteEffect(savePath, SavedAs(Extension(savePath), image), io);
      } else {
        written := WriteEffect(savePath, imageBytes.value, io);
      }
      if !io.Written? {
        return Err(OldSaveMessage(imageBytes.Some?, io)), written;
      }
      metadataOutput := Some(io.size);
      filepathOutput := Some(savePath);
      r := Ok(());
    }

    method Compress(quality: Option<real>, oxi: OxipngOutcome) returns (r: Result<(), string>)
      modifies this
      ensures Outcome(State(), r) == OldCompress(old(State()), quality, oxi)
    {
      var level := OldCompressionLevel(quality);
      match oxi {
        case OxipngFailed(e) =>
          return Err(OxipngMessage(e));
        case Optimized =>
          imageBytes := Some(Oxipng(binaryData, level));
          operationsCount := operationsCount + 1;
          r := Ok(());
      }
    }
  }
}
