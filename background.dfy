/** The command line tool's decision rules (`src/bin/rusimg/background.rs`):
    reading a tag from a file name or from the `--convert` text, choosing the
    destination tag and the output path, the overwrite check, and the
    per-step helpers that drive a `RusImg`. */
module Background {
  import opened Wrappers
  import opened Paths
  import opened Images
  import Rusimg
  import ArgParse

  /** How to treat an output file that already exists. */
  datatype FileOverwriteAsk = YesToAll | NoToAll | AskEverytime

  datatype ExistsCheckResult = AllOverwrite | AllSkip | NeedToAsk | NoProblem

  /** The errors of one file's processing; each names the file. */
  datatype ProcessingError =
    | RusimgErr(error: RusimgError, filepath: Path)
    | IOError(filepath: Path)
    | FailedToViewImage(msg: string)
    | FailedToConvertExtension(filepath: Path)

  datatype ConvertResult = ConvertResult(beforeExtension: Rusimg.Extension, afterExtension: Rusimg.Extension)

  /** `TrimResult` and `ResizeResult`: the size before and after. */
  datatype SizeChange = SizeChange(beforeSize: ImgSize, afterSize: ImgSize)

  /** `convert_str_to_extension`: the `--convert` text, matched exactly. */
  function ConvertStrToExtension(s: string): Result<Rusimg.Extension, RusimgError> {
    if s == "bmp" then Ok(Rusimg.Bmp)
    else if s == "jpg" then Ok(Rusimg.Jpg)
    else if s == "jpeg" || s == "jfif" then Ok(Rusimg.Jpeg)
    else if s == "png" then Ok(Rusimg.Png)
    else if s == "webp" then Ok(Rusimg.Webp)
    else Err(UnsupportedFileExtension)
  }

  /** `get_extension`: the extension of the lower-cased path, looked up in
      the same table. */
  function GetExtension(p: Path): Result<Rusimg.Extension, RusimgError> {
    ExtensionTag(Extension(LowerPath(p)))
  }

  /** The table `get_extension` matches the (lower-cased) extension
      against. */
  function ExtensionTag(e: Option<string>): Result<Rusimg.Extension, RusimgError> {
    if e == Some("bmp") then Ok(Rusimg.Bmp)
    else if e == Some("jpg") then Ok(Rusimg.Jpg)
    else if e == Some("jpeg") || e == Some("jfif") then Ok(Rusimg.Jpeg)
    else if e == Some("png") then Ok(Rusimg.Png)
    else if e == Some("webp") then Ok(Rusimg.Webp)
    else Err(UnsupportedFileExtension)
  }

  /** The `--convert` table and the display names are inverse: every
      built-in tag is found under its own name, `jfif` also names `Jpeg`,
      and no text yields an external format. */
  lemma ConvertStrRoundTrip(s: string, e: Rusimg.Extension)
    ensures !e.ExternalFormat? ==> ConvertStrToExtension(e.Display()) == Ok(e)
    ensures ConvertStrToExtension(s).Ok? ==>
      !ConvertStrToExtension(s).value.ExternalFormat?
      && (ConvertStrToExtension(s).value.Display() == s || (s == "jfif" && ConvertStrToExtension(s).value == Rusimg.Jpeg))
    ensures ConvertStrToExtension(s).Err? ==> ConvertStrToExtension(s).error == UnsupportedFileExtension
  {
  }

  /** Reading the tag of a file is the `--convert` lookup applied to the
      lower-cased extension, so it ignores letter case; a path without an
      extension is unsupported. */
  lemma GetExtensionIsLoweredLookup(p: Path)
    ensures Extension(p).None? ==> GetExtension(p) == Err(UnsupportedFileExtension)
    ensures Extension(p).Some? ==> GetExtension(p) == ConvertStrToExtension(Lower(Extension(p).value))
  {
    LowerPathExtension(p);
    var e := Extension(p);
    assert GetExtension(p) == ExtensionTag(LowerOpt(e));
    if e.Some? {
      TagOfSome(Lower(e.value));
    }
  }

  lemma TagOfSome(x: string)
    ensures ExtensionTag(Some(x)) == ConvertStrToExtension(x)
  {
  }

  /** Two paths whose extensions agree up to ASCII case get the same tag. */
  lemma GetExtensionIgnoresCase(p: Path, q: Path)
    requires LowerOpt(Extension(p)) == LowerOpt(Extension(q))
    ensures GetExtension(p) == GetExtension(q)
  {
    LowerPathExtension(p);
    LowerPathExtension(q);
  }

  /** The extension of `stem.ext`, for a non-empty stem and a dot-free
      extension, is `ext`. */
  lemma ExtensionOfName(stem: string, ext: string)
    requires stem != [] && ext != [] && '.' !in ext
    ensures Extension(FromName(stem + "." + ext)) == Some(ext)
  {
    var n := stem + "." + ext;
    LastDotOfSuffix(stem, ext);
    assert n[|stem| + 1..] == ext;
    assert |n| >= 3;
  }

  /** `image.PNG` is a PNG file: the extension's case does not matter. */
  lemma UpperCaseExtensionExample()
    ensures GetExtension(FromName("image.PNG")) == Ok(Rusimg.Png)
  {
    assert Lower("PNG") == "png" by {
      assert LowerChar('P') == 'p' && LowerChar('N') == 'n' && LowerChar('G') == 'g';
    }
    ExtensionExample("image", "PNG", "png");
    assert "image" + "." + "PNG" == "image.PNG";
  }

  /** `test_image.jpg` is tagged `Jpg`, not `Jpeg`. */
  lemma JpgExtensionExample()
    ensures GetExtension(FromName("test_image.jpg")) == Ok(Rusimg.Jpg)
  {
    assert Lower("jpg") == "jpg";
    ExtensionExample("test_image", "jpg", "jpg");
    assert "test_image" + "." + "jpg" == "test_image.jpg";
  }

  lemma ExtensionExample(stem: string, ext: string, lower: string)
    requires stem != [] && ext != [] && '.' !in ext && Lower(ext) == lower
    ensures GetExtension(FromName(stem + "." + ext)) == ConvertStrToExtension(lower)
  {
    ExtensionOfName(stem, ext);
    GetExtensionIsLoweredLookup(FromName(stem + "." + ext));
  }

  /** `get_destination_extension`: the `--convert` tag, else the source
      file's tag, else PNG. */
  function GetDestinationExtension(source: Path, dest: Option<Rusimg.Extension>): Rusimg.Extension {
    match dest
    case Some(e) => e
    case None =>
      match GetExtension(source)
      case Ok(e) => e
      case Err(_) => Rusimg.Png
  }

  /** The destination tag is the requested one when there is one; without
      one it is the source's own tag, so a plain run keeps the format; it is
      never an external format unless one was requested. */
  lemma DestinationExtensionChoice(source: Path, dest: Option<Rusimg.Extension>)
    ensures dest.Some? ==> GetDestinationExtension(source, dest) == dest.value
    ensures dest.None? && GetExtension(source).Ok? ==> GetDestinationExtension(source, dest) == GetExtension(source).value
    ensures dest.None? && GetExtension(source).Err? ==> GetDestinationExtension(source, dest) == Rusimg.Png
    ensures (dest.None? || !dest.value.ExternalFormat?) ==> !GetDestinationExtension(source, dest).ExternalFormat?
  {
  }

  /** `is_save_required`: some step, or an output path, was asked for. */
  predicate IsSaveRequired(args: ArgParse.ArgStruct) {
    args.destinationExtension.Some? || args.trim.Some? || args.resize.Some? || args.grayscale
    || args.quality.Some? || args.destinationPath.Some?
  }

  /** `get_output_path`. A directory destination receives the input's file
      name under the new extension; another destination with an extension is
      used as it is, and one without is taken as a directory to create; no
      destination replaces the input's extension. `--append` then keeps
      only the stem of that path, adds the suffix and the extension, and
      drops the directories. */
  function GetOutputPath(input: Path, output: Option<Path>, doubleExtension: bool, append: Option<string>,
                         ext: Rusimg.Extension, fs: FsView): Path
    requires input.name.Some?
    requires doubleExtension ==> Extension(input).Some?
  {
    var e := if doubleExtension then Extension(input).value + "." + ext.Display() else ext.Display();
    var p :=
      match output
      case Some(d) =>
        if fs.IsDir(d) then WithExtension(Join(d, FileName(input).value), e)
        else if Extension(d).Some? then d
        else WithExtension(Join(d, FileName(input).value), e)
      case None => WithExtension(input, e);
    match append
    case Some(a) => FromName(FileStem(p).value + a + "." + e)
    case None => p
  }

  /** With no destination and no suffix the output is the input with its
      extension replaced by the tag's name: it stays in the input's
      directory, keeps its stem and carries the new extension
      (`test_image.png` becomes `test_image.jpg`). */
  lemma OutputPathBesideInput(input: Path, ext: Rusimg.Extension, fs: FsView)
    requires input.name.Some? && input.name.value != "" && input.name.value != ".."
    requires !ext.ExternalFormat?
    ensures var p := GetOutputPath(input, None, false, None, ext, fs);
      p.dirs == input.dirs && FileStem(p) == FileStem(input) && Extension(p) == Some(ext.Display())
  {
    Rusimg.BuiltinDisplays(ext, ext);
    WithExtensionRoundTrip(input, ext.Display());
  }

  /** With `--double-extension` the new name is the whole input name, a
      dot and the tag's name (`a.jpg` becomes `a.jpg.webp`), and the path's
      extension is the tag's name. */
  lemma OutputPathDoubleExtension(input: Path, ext: Rusimg.Extension, fs: FsView)
    requires input.name.Some? && Extension(input).Some?
    requires !ext.ExternalFormat?
    ensures var p := GetOutputPath(input, None, true, None, ext, fs);
      p.dirs == input.dirs && p.name == Some(input.name.value + "." + ext.Display())
      && Extension(p) == Some(ext.Display())
  {
    Rusimg.BuiltinDisplays(ext, ext);
    var n := input.name.value;
    var parts := SplitName(n);
    var a := Extension(input).value;
    assert n == parts.stem + "." + a;
    assert n != "" && n != "..";
    WithDoubleExtension(input, a, ext.Display());
    assert parts.stem + ("." + (a + "." + ext.Display())) == n + "." + ext.Display();
  }

  /** A destination that is a directory, or that has no extension, receives
      the input's stem under the new extension inside it; any other
      destination is used as it is. */
  lemma OutputPathWithDestination(input: Path, d: Path, ext: Rusimg.Extension, fs: FsView)
    requires input.name.Some? && input.name.value != "" && input.name.value != ".."
    requires !ext.ExternalFormat?
    ensures var p := GetOutputPath(input, Some(d), false, None, ext, fs);
      && (fs.IsDir(d) || Extension(d).None? ==>
            p.dirs == Components(d) && FileStem(p) == FileStem(input) && Extension(p) == Some(ext.Display()))
      && (!fs.IsDir(d) && Extension(d).Some? ==> p == d)
  {
    Rusimg.BuiltinDisplays(ext, ext);
    var j := Join(d, FileName(input).value);
    WithExtensionRoundTrip(j, ext.Display());
  }

  /** With `--append` the output is a bare file name in the current
      directory, whatever the destination: the stem of the computed path,
      the suffix, a dot and the extension. */
  lemma OutputPathAppendDropsDirectory(input: Path, output: Option<Path>, doubleExtension: bool, a: string,
                                       ext: Rusimg.Extension, fs: FsView)
    requires input.name.Some?
    requires doubleExtension ==> Extension(input).Some?
    ensures var p := GetOutputPath(input, output, doubleExtension, Some(a), ext, fs);
      var e := if doubleExtension then Extension(input).value + "." + ext.Display() else ext.Display();
      var q := GetOutputPath(input, output, doubleExtension, None, ext, fs);
      p.dirs == [] && q.name.Some? && p.name == Some(FileStem(q).value + a + "." + e)
  {
  }

  /** `check_file_exists`. */
  function CheckFileExists(path: Path, mode: FileOverwriteAsk, fs: FsView): ExistsCheckResult {
    if fs.Exists(path) then
      match mode
      case YesToAll => AllOverwrite
      case NoToAll => AllSkip
      case AskEverytime => NeedToAsk
    else NoProblem
  }

  /** A missing output file is never a problem, whatever the mode; an
      existing one is overwritten, skipped or asked about as the mode says,
      and the three modes are told apart. */
  lemma CheckFileExistsModes(path: Path, mode: FileOverwriteAsk, fs: FsView)
    ensures CheckFileExists(path, mode, fs) == NoProblem <==> !fs.Exists(path)
    ensures fs.Exists(path) ==>
      (CheckFileExists(path, mode, fs) == AllOverwrite <==> mode == YesToAll)
      && (CheckFileExists(path, mode, fs) == AllSkip <==> mode == NoToAll)
      && (CheckFileExists(path, mode, fs) == NeedToAsk <==> mode == AskEverytime)
  {
  }

  /** A step of the pipeline: the handle's state after it and its result. */
  datatype Stepped<T> = Stepped(state: Rusimg.ImgState, result: Result<T, ProcessingError>)

  /** `process_convert` on a state: converts to the given tag, reporting the
      tags before and after; without a tag it fails. */
  function ConvertStep(extension: Option<Rusimg.Extension>, s: Rusimg.ImgState, features: set<Rusimg.Feature>,
                       codec: CodecOutcome, file: Path): Stepped<Option<ConvertResult>> {
    match extension
    case None => Stepped(s, Err(ProcessingError.FailedToConvertExtension(s.data.SourcePath())))
    case Some(e) =>
      var st := s.Convert(e, features, codec);
      match st.result
      case Err(err) => Stepped(st.state, Err(RusimgErr(err, file)))
      case Ok(_) => Stepped(st.state, Ok(Some(ConvertResult(s.extension, e))))
  }

  /** `process_trim` on a state. */
  function TrimStep(s: Rusimg.ImgState, t: Rect, file: Path): Stepped<Option<SizeChange>>
    requires RectInU32(t)
  {
    var st := s.Trim(t);
    match st.result
    case Err(err) => Stepped(st.state, Err(RusimgErr(err, file)))
    case Ok(after) => Stepped(st.state, Ok(Some(SizeChange(s.data.Size(), after))))
  }

  /** `process_resize` on a state. */
  function ResizeStep(s: Rusimg.ImgState, ratio: real, file: Path): Stepped<Option<SizeChange>>
    requires ratio >= 0.0
  {
    var st := s.Resize(ratio);
    match st.result
    case Err(err) => Stepped(st.state, Err(RusimgErr(err, file)))
    case Ok(after) => Stepped(st.state, Ok(Some(SizeChange(s.data.Size(), after))))
  }

  /** `process_compress` on a state: compresses only when a quality is
      given. */
  function CompressStep(s: Rusimg.ImgState, quality: Option<real>, codec: CodecOutcome, file: Path): Stepped<Option<bool>> {
    if quality.None? then Stepped(s, Ok(Some(true)))
    else
      var st := s.Compress(quality, codec);
      match st.result
      case Err(err) => Stepped(st.state, Err(RusimgErr(err, file)))
      case Ok(_) => Stepped(st.state, Ok(Some(true)))
  }

  method ProcessConvert(extension: Option<Rusimg.Extension>, image: Rusimg.RusImg, features: set<Rusimg.Feature>,
                        codec: CodecOutcome, file: Path) returns (r: Result<Option<ConvertResult>, ProcessingError>)
    modifies image
    ensures Stepped(image.State(), r) == ConvertStep(extension, old(image.State()), features, codec, file)
    ensures r.Err? ==> image.data == old(image.data)
    ensures r.Ok? ==> fresh(image.data.Obj())
  {
    if extension.Some? {
      var before := image.GetExtension();
      var c := image.Convert(extension.value, features, codec);
      if c.Err? {
        return Err(RusimgErr(c.error, file));
      }
      r := Ok(Some(ConvertResult(before, extension.value)));
    } else {
      var p := image.GetInputFilepath();
      r := Err(ProcessingError.FailedToConvertExtension(p));
    }
  }

  method ProcessTrim(image: Rusimg.RusImg, t: Rect, file: Path) returns (r: Result<Option<SizeChange>, ProcessingError>)
    requires RectInU32(t)
    modifies image.data.Obj()
    ensures Stepped(image.State(), r) == TrimStep(old(image.State()), t, file)
  {
    var before := image.GetImageSize();
    var after := image.TrimRect(t);
    if after.Err? {
      return Err(RusimgErr(after.error, file));
    }
    r := Ok(Some(SizeChange(before.value, after.value)));
  }

  method ProcessResize(image: Rusimg.RusImg, ratio: real, file: Path) returns (r: Result<Option<SizeChange>, ProcessingError>)
    requires ratio >= 0.0
    modifies image.data.Obj()
    ensures Stepped(image.State(), r) == ResizeStep(old(image.State()), ratio, file)
  {
    var before := image.GetImageSize();
    // No handle's resize fails, so the error of the source's `?` cannot
    // arise here.
    var after := image.Resize(ratio);
    r := Ok(Some(SizeChange(before.value, after.value)));
  }

  method ProcessGrayscale(image: Rusimg.RusImg) returns (r: Result<Option<bool>, ProcessingError>)
    modifies image.data.Obj()
    ensures r == Ok(Some(true)) && image.State() == old(image.State()).Grayscale()
  {
    var g := image.Grayscale();
    r := Ok(Some(true));
  }

  method ProcessCompress(image: Rusimg.RusImg, quality: Option<real>, codec: CodecOutcome, file: Path)
    returns (r: Result<Option<bool>, ProcessingError>)
    modifies image.data.Obj()
    ensures Stepped(image.State(), r) == CompressStep(old(image.State()), quality, codec, file)
  {
    if quality.Some? {
      var c := image.Compress(quality, codec);
      if c.Err? {
        return Err(RusimgErr(c.error, file));
      }
    }
    r := Ok(Some(true));
  }
}
