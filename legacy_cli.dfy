/** The second generation of the command line tool (`src/bin/rusimg.rs`,
    with the argument checks of `src/bin/rusimg/parse.rs`): one file at a
    time, in the order found, through the second-generation front end. A
    step decides by itself whether a save is needed, the overwrite question
    is asked just before saving, and `--view` comes last. */
module LegacyCli {
  import opened Wrappers
  import opened Paths
  import opened Images
  import Rusimg
  import ArgParse
  import Background
  import CliMain
  import opened LegacyRusimg

  // ---------------------------------------------------------------
  // The argument checks

  /** Rust's `u8`. */
  newtype U8 = x: int | 0 <= x < 256

  /** The arguments as the command line parser delivers them; `--resize`
      and `--threads` are `u8`. */
  datatype OldArgs = OldArgs(
    source: Option<seq<Path>>,
    recursive: bool,
    output: Option<Path>,
    append: Option<string>,
    convert: Option<string>,
    resize: Option<U8>,
    trim: Option<string>,
    grayscale: bool,
    quality: Option<real>,
    doubleExtension: bool,
    view: bool,
    yes: bool,
    no: bool,
    delete: bool,
    threads: U8)

  /** The validated arguments. */
  datatype OldArgStruct = OldArgStruct(
    sourcePath: Option<seq<Path>>,
    destinationPath: Option<Path>,
    destinationExtension: Option<string>,
    destinationAppendName: Option<string>,
    recursive: bool,
    quality: Option<real>,
    delete: bool,
    resize: Option<U8>,
    trim: Option<Rect>,
    grayscale: bool,
    view: bool,
    yes: bool,
    no: bool,
    doubleExtension: bool,
    threads: U8)

  /** `parser`, as written: trim, then quality, then resize, then threads.
      The resize check compares a `u8` with zero by `<`. */
  function Parser(args: OldArgs): Result<OldArgStruct, ArgParse.ArgError> {
    var trim: Option<Rect> :=
      if args.trim.Some? then
        match ArgParse.CheckTrimFormat(args.trim.value)
        case Err(_) => None
        case Ok(t) => Some(t)
      else None;
    if args.trim.Some? && trim.None? then Err(ArgParse.InvalidTrimFormat)
    else if args.quality.Some? && (args.quality.value < 0.0 || args.quality.value > 100.0) then Err(ArgParse.InvalidQuality)
    else if args.resize.Some? && args.resize.value < 0 then Err(ArgParse.InvalidResize)
    else if args.threads < 1 then Err(ArgParse.InvalidThreads)
    else Ok(OldArgStruct(args.source, args.output, args.convert, args.append, args.recursive, args.quality,
                         args.delete, args.resize, trim, args.grayscale, args.view, args.yes, args.no,
                         args.doubleExtension, args.threads))
  }

  function RealOf(r: Option<U8>): Option<real> {
    if r.None? then None else Some(r.value as real)
  }

  /** The same arguments as the current tool receives them. */
  function Lift(args: OldArgs): ArgParse.Args {
    ArgParse.Args(args.source, args.recursive, args.output, args.append, args.convert, RealOf(args.resize),
                  args.trim, args.grayscale, args.quality, args.doubleExtension, args.view, args.yes, args.no,
                  args.delete, args.threads as nat)
  }

  function LiftStruct(a: OldArgStruct): ArgParse.ArgStruct {
    ArgParse.ArgStruct(a.sourcePath, a.destinationPath, a.destinationExtension, a.destinationAppendName, a.recursive,
                       a.quality, a.delete, RealOf(a.resize), a.trim, a.grayscale, a.view, a.yes, a.no,
                       a.doubleExtension, a.threads as nat)
  }

  /** Finding: no `u8` is below zero, so the resize check never rejects
      anything. */
  lemma ResizeCheckNeverFires(args: OldArgs)
    ensures Parser(args).Err? ==> Parser(args).error != ArgParse.InvalidResize
    ensures args.trim.None? && args.quality.None? && args.threads >= 1 ==> Parser(args).Ok?
  {
  }

  /** Finding: `--resize 0` is accepted and passed on, where the intended
      check ("Resize must be size > 0", as the current tool applies it)
      rejects it. */
  lemma ZeroResizeAccepted()
    ensures var args := OldArgs(None, false, None, None, None, Some(0), None, false, None, false, false, false,
                                false, false, 4);
      && Parser(args).Ok? && Parser(args).value.resize == Some(0)
      && ArgParse.CheckAndGenerate(Lift(args)) == Err(ArgParse.InvalidResize)
  {
  }

  /** A resize by zero percent records an empty size: every dimension
      becomes zero (the image crate itself keeps one pixel per side). */
  lemma ZeroResizeEmptiesImage(s: OldImgState)
    ensures s.Resize(0).result == Ok(ImgSize(0, 0))
    ensures s.Resize(0).state.data.Size() == ImgSize(0, 0)
  {
    assert ScaleDim(s.data.Size().width, 0.0) == 0;
    assert ScaleDim(s.data.Size().height, 0.0) == 0;
  }

  /** Apart from a zero resize, the checks as written accept and reject
      exactly what the corrected checks do, with the same first error and
      the same validated arguments. */
  lemma ParserAgreesOffZero(args: OldArgs)
    requires args.resize.None? || args.resize.value > 0
    ensures var older := Parser(args);
      var cur := ArgParse.CheckAndGenerate(Lift(args));
      && (older.Ok? <==> cur.Ok?)
      && (older.Err? ==> older.error == cur.error)
      && (older.Ok? ==> LiftStruct(older.value) == cur.value)
  {
    var a := Lift(args);
    assert args.resize.Some? ==> a.resize.value > 0.0;
  }

  // ---------------------------------------------------------------
  // Tags

  /** `convert_str_to_extension`: `jpg`, `jpeg` and `jfif` all name JPEG. */
  function ConvertStrToExtension(s: string): Result<OldExtension, RusimgError> {
    if s == "bmp" then Ok(Bmp)
    else if s == "jpg" || s == "jpeg" || s == "jfif" then Ok(Jpeg)
    else if s == "png" then Ok(Png)
    else if s == "webp" then Ok(Webp)
    else Err(UnsupportedFileExtension)
  }

  /** `get_extension`: the same table on the lower-cased extension. */
  function GetExtension(p: Path): Result<OldExtension, RusimgError> {
    match Extension(LowerPath(p))
    case Some(x) => ConvertStrToExtension(x)
    case None => Err(UnsupportedFileExtension)
  }

  /** The `--convert` table agrees with the current tool's once its `Jpg`
      tag is read as `Jpeg`: the same texts are accepted and name the same
      formats; every tag of this generation is found under its own name. */
  lemma ConvertTablesAgree(s: string, e: OldExtension)
    ensures ConvertStrToExtension(s).Ok? <==> Background.ConvertStrToExtension(s).Ok?
    ensures ConvertStrToExtension(s).Ok? ==> ConvertStrToExtension(s).value == Demote(Background.ConvertStrToExtension(s).value)
    ensures ConvertStrToExtension(s).Err? ==> ConvertStrToExtension(s).error == UnsupportedFileExtension
    ensures !e.ExternalFormat? ==> ConvertStrToExtension(e.Display()) == Ok(e)
  {
  }

  /** Reading a file's tag agrees with the current tool the same way. */
  lemma ExtensionTablesAgree(p: Path)
    ensures GetExtension(p).Ok? <==> Background.GetExtension(p).Ok?
    ensures GetExtension(p).Ok? ==> GetExtension(p).value == Demote(Background.GetExtension(p).value)
  {
    var x := Extension(LowerPath(p));
    if x.Some? {
      Background.TagOfSome(x.value);
      ConvertTablesAgree(x.value, Bmp);
    }
  }

  // ---------------------------------------------------------------
  // Processing one file

  /** The errors of one file's processing. `view` reports a failure of the
      terminal viewer as a library error (`FailedToViewImage`); that variant
      is kept apart here. */
  datatype ProcessingError =
    | RusimgFailure(error: RusimgError)
    | ViewFailed(msg: string)
    | IOError
    | ArgError(msg: string)

  const BOTH_ANSWERS: string := "Cannot specify both --yes and --no."

  /** What `process` needs of the arguments and the file to run without a
      panic: a trim rectangle within `u32`, and a file name to take the stem
      of when `--append` is given. */
  predicate Admissible(args: OldArgStruct, file: Path) {
    && (args.trim.Some? ==> RectInU32(args.trim.value))
    && (args.destinationAppendName.Some? ==>
          if args.destinationPath.Some? then args.destinationPath.value.name.Some? else file.name.Some?)
  }

  /** What processing one file returns and does: the file it writes,
      whether it removes the source, and how many answer lines it reads. */
  datatype Outcome = Outcome(result: Result<CliMain.RusimgStatus, ProcessingError>, written: Option<FileWrite>,
                             deleted: bool, used: nat)

  /** The state after the steps, and whether one of them asks for a save. */
  datatype Staged = Staged(state: OldImgState, saveRequired: bool)

  function ConvertStage(args: OldArgStruct, env: CliMain.Env, s: OldImgState): (r: Result<Staged, ProcessingError>)
    ensures r.Ok? ==> r.value.state.data.SourcePath() == s.data.SourcePath()
    ensures r.Ok? ==> (r.value.saveRequired <==> args.destinationExtension.Some?)
  {
    if args.destinationExtension.None? then Ok(Staged(s, false)) else
    match ConvertStrToExtension(args.destinationExtension.value)
    case Err(e) => Err(RusimgFailure(e))
    case Ok(e) =>
      ConvertCommitsOnlyOnSuccess(s, e, env.features, env.convertCodec);
      var st := s.Convert(e, env.features, env.convertCodec);
      if st.result.Err? then Err(RusimgFailure(st.result.error)) else Ok(Staged(st.state, true))
  }

  /** A trim asks for a save only when it changed the size. */
  function TrimStage(args: OldArgStruct, g: Staged): (r: Result<Staged, ProcessingError>)
    requires args.trim.Some? ==> RectInU32(args.trim.value)
    ensures r.Ok? ==> r.value.state.data.SourcePath() == g.state.data.SourcePath()
    ensures r.Ok? && g.saveRequired ==> r.value.saveRequired
  {
    if args.trim.None? then Ok(g) else
    var t := args.trim.value;
    var before := g.state.GetImageSize().value;
    var st := g.state.Trim(t.x, t.y, t.w, t.h);
    match st.result
    case Err(e) => Err(RusimgFailure(e))
    case Ok(after) => Ok(Staged(st.state, g.saveRequired || before != after))
  }

  function ResizeStage(args: OldArgStruct, g: Staged): (r: Result<Staged, ProcessingError>)
    ensures r.Ok? ==> r.value.state.data.SourcePath() == g.state.data.SourcePath()
    ensures r.Ok? ==> (r.value.saveRequired <==> g.saveRequired || args.resize.Some?)
  {
    if args.resize.None? then Ok(g) else
    var st := g.state.Resize(args.resize.value as nat);
    match st.result
    case Err(e) => Err(RusimgFailure(e))
    case Ok(_) => Ok(Staged(st.state, true))
  }

  function GrayscaleStage(args: OldArgStruct, g: Staged): (r: Staged)
    ensures r.state.data.SourcePath() == g.state.data.SourcePath()
    ensures r.saveRequired <==> g.saveRequired || args.grayscale
  {
    if args.grayscale then Staged(g.state.Grayscale().state, true) else g
  }

  function CompressStage(args: OldArgStruct, env: CliMain.Env, g: Staged): (r: Result<Staged, ProcessingError>)
    ensures r.Ok? ==> r.value.state.data.SourcePath() == g.state.data.SourcePath()
    ensures r.Ok? ==> (r.value.saveRequired <==> g.saveRequired || args.quality.Some?)
  {
    if args.quality.None? then Ok(g) else
    var st := g.state.Compress(args.quality, env.compressCodec);
    if st.result.Err? then Err(RusimgFailure(st.result.error)) else Ok(Staged(st.state, true))
  }

  /** The steps in the order of `process`: convert, trim, resize,
      grayscale, compress; the first failure ends them. None of them changes
      the source path. */
  function Pipeline(args: OldArgStruct, env: CliMain.Env, s0: OldImgState): (r: Result<Staged, ProcessingError>)
    requires args.trim.Some? ==> RectInU32(args.trim.value)
    ensures r.Ok? ==> r.value.state.data.SourcePath() == s0.data.SourcePath()
    ensures r.Ok? && !r.value.saveRequired ==>
      args.destinationExtension.None? && args.resize.None? && !args.grayscale && args.quality.None?
  {
    var c :- ConvertStage(args, env, s0);
    var t :- TrimStage(args, c);
    var z :- ResizeStage(args, t);
    var q :- CompressStage(args, env, GrayscaleStage(args, z));
    Ok(q)
  }

  /** The output path: `--output` as given, else the input path under the
      tag's name; `--append` then keeps only the stem, adds the suffix and
      the tag's name, and drops the directories. */
  function OutputPath(args: OldArgStruct, input: Path, ext: OldExtension): Path
    requires args.destinationAppendName.Some? ==>
      if args.destinationPath.Some? then args.destinationPath.value.name.Some? else input.name.Some?
  {
    var p := if args.destinationPath.Some? then args.destinationPath.value else WithExtension(input, ext.Display());
    match args.destinationAppendName
    case Some(a) => FromName(FileStem(p).value + a + "." + ext.Display())
    case None => p
  }

  /** `check_file_exists`, reading its answers from `lines`: whether to
      write, and how many lines were read. */
  function CheckFileExists(path: Path, mode: Background.FileOverwriteAsk, fs: FsView, lines: seq<string>): (r: (bool, nat))
    ensures r.1 <= |lines|
  {
    if !fs.Exists(path) then (true, 0)
    else match mode
      case YesToAll => (true, 0)
      case NoToAll => (false, 0)
      case AskEverytime => CliMain.AskedReadsAtMost(lines); CliMain.Asked(lines)
  }

  /** The end of `process` after the steps: save when required (unless the
      answer is not to overwrite), then remove the source under `--delete`
      when the saved file is elsewhere. */
  function SaveStage(args: OldArgStruct, file: Path, env: CliMain.Env, lines: seq<string>,
                     mode: Background.FileOverwriteAsk, g: Staged): (o: Outcome)
    requires Admissible(args, g.state.data.SourcePath())
    ensures o.used <= |lines|
    ensures o.result == Ok(CliMain.NotNeeded) <==> !g.saveRequired
    ensures !g.saveRequired ==> o == Outcome(Ok(CliMain.NotNeeded), None, false, 0)
    ensures o.result == Ok(CliMain.Cancel) ==> o.written.None? && !o.deleted && mode != Background.YesToAll
    ensures o.deleted ==> && o.result == Ok(CliMain.Success) && args.delete && env.removeOk
                          && o.written.Some? && o.written.value.path != file
  {
    if !g.saveRequired then Outcome(Ok(CliMain.NotNeeded), None, false, 0) else
    var out := OutputPath(args, g.state.data.SourcePath(), g.state.extension);
    var (go, used) := CheckFileExists(out, mode, env.fs, lines);
    if !go then Outcome(Ok(CliMain.Cancel), None, false, used) else
    SaveImageReports(g.state, Some(out), env.fs, env.io);
    Rusimg.SaveImageReports(g.state.Current(), Some(out), env.fs, env.io);
    var (_, r, w) := g.state.SaveImage(Some(out), env.fs, env.io);
    match r
    case Err(e) => Outcome(Err(RusimgFailure(e)), w, false, used)
    case Ok(status) =>
      var delete := status.outputPath.Some? && args.delete && file != status.outputPath.value;
      if delete && !env.removeOk then Outcome(Err(IOError), w, false, used)
      else Outcome(Ok(CliMain.Success), w, delete, used)
  }

  function OverwriteMode(yes: bool, no: bool): Background.FileOverwriteAsk
    requires !(yes && no)
  {
    if yes then Background.YesToAll else if no then Background.NoToAll else Background.AskEverytime
  }

  /** An opened image holds the path it was opened from. */
  lemma OpenedKeepsPath(file: Path, env: CliMain.Env)
    ensures var r := Opened(file, env.read, env.sniffed, env.decoded, env.features);
      r.Ok? ==> r.value.data.SourcePath() == file
  {
    OpenImageDispatch(file, env.read, env.sniffed, env.decoded, env.features);
  }

  /** `process`: refuse `--yes` with `--no`, open the file, run the steps,
      save, and finally show the image under `--view`; `view` is the
      viewer's failure, if it fails. */
  function Processed(args: OldArgStruct, file: Path, env: CliMain.Env, lines: seq<string>, view: Option<string>): (o: Outcome)
    requires Admissible(args, file)
    ensures o.used <= |lines|
  {
    if args.yes && args.no then Outcome(Err(ArgError(BOTH_ANSWERS)), None, false, 0) else
    var opening := Opened(file, env.read, env.sniffed, env.decoded, env.features);
    if opening.Err? then Outcome(Err(RusimgFailure(opening.error)), None, false, 0) else
    OpenedKeepsPath(file, env);
    var p := Pipeline(args, env, opening.value);
    if p.Err? then Outcome(Err(p.error), None, false, 0) else
    var o := SaveStage(args, file, env, lines, OverwriteMode(args.yes, args.no), p.value);
    if o.result.Ok? && args.view && view.Some? then o.(result := Err(ViewFailed(view.value))) else o
  }

  /** `--yes` with `--no` is refused before the file is even opened. */
  lemma BothAnswersRefused(args: OldArgStruct, file: Path, env: CliMain.Env, lines: seq<string>, view: Option<string>)
    requires Admissible(args, file) && args.yes && args.no
    ensures Processed(args, file, env, lines, view) == Outcome(Err(ArgError(BOTH_ANSWERS)), None, false, 0)
  {
  }

  /** The status says why a file was or was not saved: not needed when no
      step asked for a save, cancelled when the answer was not to
      overwrite. Neither writes, removes, or (when not needed) reads an
      answer. */
  lemma ProcessStatusRule(args: OldArgStruct, file: Path, env: CliMain.Env, lines: seq<string>, view: Option<string>)
    requires Admissible(args, file)
    ensures var o := Processed(args, file, env, lines, view);
      && (o.result == Ok(CliMain.NotNeeded) ==> o.written.None? && !o.deleted && o.used == 0)
      && (o.result == Ok(CliMain.Cancel) ==> o.written.None? && !o.deleted && !args.yes)
      && (o.result == Ok(CliMain.NotNeeded) ==>
            args.destinationExtension.None? && args.resize.None? && !args.grayscale && args.quality.None?)
      && (o.written.Some? ==> !(args.yes && args.no))
  {
  }

  /** `--delete` removes the source only after a successful save of a file
      that is not the source. The viewer runs after that: a viewer failure
      is reported even though the file was already written and the source
      removed. */
  lemma ProcessDeleteRule(args: OldArgStruct, file: Path, env: CliMain.Env, lines: seq<string>, view: Option<string>)
    requires Admissible(args, file)
    ensures var o := Processed(args, file, env, lines, view);
      && (o.deleted ==> args.delete && env.removeOk && o.written.Some? && o.written.value.path != file)
      && (o.deleted ==> o.result.Ok? || (args.view && view.Some? && o.result == Err(ViewFailed(view.value))))
      && (o.result.Ok? && o.result.value == CliMain.Success && args.view ==> view.None?)
  {
    if !(args.yes && args.no) {
      var opening := Opened(file, env.read, env.sniffed, env.decoded, env.features);
      if opening.Ok? {
        OpenedKeepsPath(file, env);
      }
    }
  }

  /** Unlike the current tool, a trim that keeps the size asks for no save:
      trimming a whole image, with no other step, leaves the file alone. */
  lemma WholeImageTrimSavesNothing(args: OldArgStruct, file: Path, env: CliMain.Env, lines: seq<string>)
    requires Admissible(args, file) && !(args.yes && args.no) && !args.view
    requires args.destinationExtension.None? && args.resize.None? && !args.grayscale && args.quality.None?
    requires Opened(file, env.read, env.sniffed, env.decoded, env.features).Ok?
    requires var s := Opened(file, env.read, env.sniffed, env.decoded, env.features).value.data.Size();
      args.trim == Some(Rect(0, 0, s.width, s.height))
    ensures Processed(args, file, env, lines, None) == Outcome(Ok(CliMain.NotNeeded), None, false, 0)
  {
    var s0 := Opened(file, env.read, env.sniffed, env.decoded, env.features).value;
    var sz := s0.data.Size();
    TrimInsideKeepsRect(sz.width, sz.height, Rect(0, 0, sz.width, sz.height));
  }

  /** `--convert` on the opened image. */
  method ConvertImage(args: OldArgStruct, env: CliMain.Env, image: LegacyRusimg.RusImg) returns (r: Result<Staged, ProcessingError>)
    modifies image
    ensures r == ConvertStage(args, env, old(image.State()))
    ensures r.Ok? ==> r.value.state == image.State()
    ensures image.data == old(image.data) || fresh(image.data.Obj())
  {
    if args.destinationExtension.None? {
      return Ok(Staged(image.State(), false));
    }
    var extension := ConvertStrToExtension(args.destinationExtension.value);
    if extension.Err? {
      return Err(RusimgFailure(extension.error));
    }
    var c := image.Convert(extension.value, env.features, env.convertCodec);
    if c.Err? {
      return Err(RusimgFailure(c.error));
    }
    r := Ok(Staged(image.State(), true));
  }

  /** `--trim`: the size is read before and compared after. */
  method TrimImage(args: OldArgStruct, g: Staged, image: LegacyRusimg.RusImg) returns (r: Result<Staged, ProcessingError>)
    requires args.trim.Some? ==> RectInU32(args.trim.value)
    requires g.state == image.State()
    modifies image.data.Obj()
    ensures r == TrimStage(args, g)
    ensures r.Ok? ==> r.value.state == image.State()
  {
    if args.trim.None? {
      return Ok(g);
    }
    var t := args.trim.value;
    var before := image.GetImageSize();
    var trimmed := image.Trim(t.x, t.y, t.w, t.h);
    if trimmed.Err? {
      return Err(RusimgFailure(trimmed.error));
    }
    r := Ok(Staged(image.State(), g.saveRequired || before.value != trimmed.value));
  }

  /** `--resize`. */
  method ResizeImage(args: OldArgStruct, g: Staged, image: LegacyRusimg.RusImg) returns (r: Result<Staged, ProcessingError>)
    requires g.state == image.State()
    modifies image.data.Obj()
    ensures r == ResizeStage(args, g)
    ensures r.Ok? ==> r.value.state == image.State()
  {
    if args.resize.None? {
      return Ok(g);
    }
    // No handle's resize fails, so the error of the source's `?` cannot
    // arise here.
    var after := image.Resize(args.resize.value as nat);
    r := Ok(Staged(image.State(), true));
  }

  /** `--grayscale`. */
  method GrayscaleImage(args: OldArgStruct, g: Staged, image: LegacyRusimg.RusImg) returns (r: Staged)
    requires g.state == image.State()
    modifies image.data.Obj()
    ensures r == GrayscaleStage(args, g) && r.state == image.State()
  {
    if !args.grayscale {
      return g;
    }
    var done := image.Grayscale();
    r := Staged(image.State(), true);
  }

  /** `--quality`. */
  method CompressImage(args: OldArgStruct, env: CliMain.Env, g: Staged, image: LegacyRusimg.RusImg)
    returns (r: Result<Staged, ProcessingError>)
    requires g.state == image.State()
    modifies image.data.Obj()
    ensures r == CompressStage(args, env, g)
    ensures r.Ok? ==> r.value.state == image.State()
  {
    if args.quality.None? {
      return Ok(g);
    }
    var c := image.Compress(args.quality, env.compressCodec);
    if c.Err? {
      return Err(RusimgFailure(c.error));
    }
    r := Ok(Staged(image.State(), true));
  }

  /** The steps of `process`, on the opened image. */
  method RunSteps(args: OldArgStruct, env: CliMain.Env, image: LegacyRusimg.RusImg) returns (r: Result<Staged, ProcessingError>)
    requires args.trim.Some? ==> RectInU32(args.trim.value)
    modifies image, image.data.Obj()
    ensures r == Pipeline(args, env, old(image.State()))
    ensures r.Ok? ==> r.value.state == image.State()
    ensures image.data == old(image.data) || fresh(image.data.Obj())
  {
    var c := ConvertImage(args, env, image);
    if c.Err? {
      return Err(c.error);
    }
    var t := TrimImage(args, c.value, image);
    if t.Err? {
      return Err(t.error);
    }
    var z := ResizeImage(args, t.value, image);
    if z.Err? {
      return Err(z.error);
    }
    var g := GrayscaleImage(args, z.value, image);
    r := CompressImage(args, env, g, image);
  }

  /** `check_file_exists`, prompting on `lines`. */
  method AskOverwrite(path: Path, mode: Background.FileOverwriteAsk, fs: FsView, lines: seq<string>)
    returns (go: bool, used: nat)
    ensures (go, used) == CheckFileExists(path, mode, fs, lines)
  {
    if !fs.Exists(path) {
      return true, 0;
    }
    match mode {
      case YesToAll => go, used := true, 0;
      case NoToAll => go, used := false, 0;
      case AskEverytime => go, used := CliMain.AskFileExists(lines);
    }
  }

  /** `process` on one file. */
  method Process(args: OldArgStruct, file: Path, env: CliMain.Env, lines: seq<string>, view: Option<string>)
    returns (r: Result<CliMain.RusimgStatus, ProcessingError>, written: Option<FileWrite>, deleted: bool, used: nat)
    requires Admissible(args, file)
    ensures Outcome(r, written, deleted, used) == Processed(args, file, env, lines, view)
  {
    written, deleted, used := None, false, 0;
    if args.yes && args.no {
      return Err(ArgError(BOTH_ANSWERS)), written, deleted, used;
    }
    var mode := OverwriteMode(args.yes, args.no);
    var opening := LegacyRusimg.RusImg.OpenImage(file, env.read, env.sniffed, env.decoded, env.features);
    if opening.Err? {
      return Err(RusimgFailure(opening.error)), written, deleted, used;
    }
    var image := opening.value;
    OpenedKeepsPath(file, env);
    var steps := RunSteps(args, env, image);
    if steps.Err? {
      return Err(steps.error), written, deleted, used;
    }
    var o := SaveAndRemove(args, file, env, lines, mode, steps.value, image);
    written, deleted, used := o.written, o.deleted, o.used;
    if o.result.Ok? && args.view && view.Some? {
      return Err(ViewFailed(view.value)), written, deleted, used;
    }
    r := o.result;
  }

  /** The end of `process` on the image object: ask, save, remove the
      source. */
  method SaveAndRemove(args: OldArgStruct, file: Path, env: CliMain.Env, lines: seq<string>,
                       mode: Background.FileOverwriteAsk, g: Staged, image: LegacyRusimg.RusImg)
    returns (o: Outcome)
    requires Admissible(args, g.state.data.SourcePath()) && g.state == image.State()
    modifies image.data.Obj()
    ensures o == SaveStage(args, file, env, lines, mode, g)
  {
    if !g.saveRequired {
      return Outcome(Ok(CliMain.NotNeeded), None, false, 0);
    }
    var output := OutputPath(args, image.data.State().SourcePath(), image.extension);
    var go, used := AskOverwrite(output, mode, env.fs, lines);
    if !go {
      return Outcome(Ok(CliMain.Cancel), None, false, used);
    }
    var saved, written := image.SaveImage(Some(output), env.fs, env.io);
    if saved.Err? {
      return Outcome(Err(RusimgFailure(saved.error)), written, false, used);
    }
    var deleted := false;
    if saved.value.outputPath.Some? && args.delete && file != saved.value.outputPath.value {
      if !env.removeOk {
        return Outcome(Err(IOError), written, false, used);
      }
      deleted := true;
    }
    o := Outcome(Ok(CliMain.Success), written, deleted, used);
  }

  // ---------------------------------------------------------------
  // The program as a whole

  /** The files processed in order, the prompt's answers read from one
      shared input. */
  function Ran(args: OldArgStruct, files: seq<Path>, envs: seq<CliMain.Env>, lines: seq<string>,
               views: seq<Option<string>>): (os: seq<Outcome>)
    requires |envs| == |files| && |views| == |files|
    requires forall k :: 0 <= k < |files| ==> Admissible(args, files[k])
    ensures |os| == |files|
    decreases |files|
  {
    if files == [] then []
    else
      var o := Processed(args, files[0], envs[0], lines, views[0]);
      [o] + Ran(args, files[1..], envs[1..], lines[o.used..], views[1..])
  }

  /** One step of `Ran`: the first file's outcome, then the rest on the
      answers it left unread. */
  lemma RanFirst(args: OldArgStruct, files: seq<Path>, envs: seq<CliMain.Env>, lines: seq<string>,
                 views: seq<Option<string>>, o: Outcome)
    requires |envs| == |files| && |views| == |files| && files != []
    requires forall k :: 0 <= k < |files| ==> Admissible(args, files[k])
    requires o == Processed(args, files[0], envs[0], lines, views[0])
    ensures o.used <= |lines|
    ensures Ran(args, files, envs, lines, views) == [o] + Ran(args, files[1..], envs[1..], lines[o.used..], views[1..])
  {
  }

  /** The first of the remaining files processed: its outcome starts the
      run of the rest. */
  method ProcessNext(args: OldArgStruct, files: seq<Path>, envs: seq<CliMain.Env>, lines: seq<string>,
                     views: seq<Option<string>>) returns (o: Outcome)
    requires |envs| == |files| && |views| == |files| && files != []
    requires forall k :: 0 <= k < |files| ==> Admissible(args, files[k])
    ensures o.used <= |lines|
    ensures Ran(args, files, envs, lines, views) == [o] + Ran(args, files[1..], envs[1..], lines[o.used..], views[1..])
  {
    var r, written, deleted, used := Process(args, files[0], envs[0], lines, views[0]);
    o := Outcome(r, written, deleted, used);
    RanFirst(args, files, envs, lines, views, o);
  }

  /** The number of failed files among the outcomes. */
  function Failures(outcomes: seq<Outcome>): (n: nat)
    ensures n <= |outcomes|
  {
    if outcomes == [] then 0
    else Failures(outcomes[..|outcomes| - 1]) + (if outcomes[|outcomes| - 1].result.Err? then 1 else 0)
  }

  /** Counting one more outcome. */
  lemma FailuresSnoc(before: seq<Outcome>, o: Outcome)
    ensures Failures(before + [o]) == Failures(before) + (if o.result.Err? then 1 else 0)
  {
    assert (before + [o])[..|before|] == before;
  }

  /** One turn of the loop of `main`: the next file is processed, its
      outcome recorded and counted, and the rest of the run continues on
      the answers it left unread. */
  method Advance(args: OldArgStruct, ghost whole: seq<Outcome>, rest: seq<Path>, restEnvs: seq<CliMain.Env>,
                 lines: seq<string>, restViews: seq<Option<string>>, outcomes: seq<Outcome>, errorCount: nat)
    returns (outcomes': seq<Outcome>, errorCount': nat, lines': seq<string>)
    requires |restEnvs| == |rest| && |restViews| == |rest| && rest != []
    requires forall k :: 0 <= k < |rest| ==> Admissible(args, rest[k])
    requires whole == outcomes + Ran(args, rest, restEnvs, lines, restViews)
    requires errorCount == Failures(outcomes)
    ensures whole == outcomes' + Ran(args, rest[1..], restEnvs[1..], lines', restViews[1..])
    ensures errorCount' == Failures(outcomes') && |outcomes'| == |outcomes| + 1
  {
    var o := ProcessNext(args, rest, restEnvs, lines, restViews);
    lines' := lines[o.used..];
    ghost var later := Ran(args, rest[1..], restEnvs[1..], lines', restViews[1..]);
    outcomes' := outcomes + [o];
    assert outcomes + ([o] + later) == outcomes' + later;
    FailuresSnoc(outcomes, o);
    errorCount' := errorCount + if o.result.Err? then 1 else 0;
  }

  /** `main` after parsing: every found file is processed in turn; a file
      that fails is counted and the rest go on; the summary counts the
      files processed without error. */
  method RunFiles(args: OldArgStruct, files: seq<Path>, envs: seq<CliMain.Env>, stdin: seq<string>,
                  views: seq<Option<string>>) returns (summary: CliMain.Summary, outcomes: seq<Outcome>)
    requires |envs| == |files| && |views| == |files|
    requires forall k :: 0 <= k < |files| ==> Admissible(args, files[k])
    ensures outcomes == Ran(args, files, envs, stdin, views)
    ensures summary == CliMain.Summary(|files|, |files| - Failures(outcomes), Failures(outcomes))
  {
    var errorCount := 0;
    var rest, restEnvs, restViews, lines := files, envs, views, stdin;
    outcomes := [];
    while rest != []
      invariant |restEnvs| == |rest| && |restViews| == |rest| && |outcomes| + |rest| == |files|
      invariant forall k :: 0 <= k < |rest| ==> Admissible(args, rest[k])
      invariant Ran(args, files, envs, stdin, views) == outcomes + Ran(args, rest, restEnvs, lines, restViews)
      invariant errorCount == Failures(outcomes)
      decreases |rest|
    {
      outcomes, errorCount, lines := Advance(args, Ran(args, files, envs, stdin, views), rest, restEnvs, lines,
                                             restViews, outcomes, errorCount);
      rest, restEnvs, restViews := rest[1..], restEnvs[1..], restViews[1..];
    }
    summary := CliMain.Summary(|files|, |files| - errorCount, errorCount);
  }
}
