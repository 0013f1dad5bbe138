/** The command line tool's driver (`src/bin/rusimg/main.rs`): the
    overwrite prompt, turning the found files into tasks, the per-file
    pipeline `process`, and draining the queue of thread tasks. The worker pool is
    modelled as one worker that pops tasks from the end of the queue. */
module CliMain {
  import opened Wrappers
  import opened Paths
  import opened Images
  import Rusimg
  import ArgParse
  import opened Background

  datatype AskResult = Overwrite | Skip | NoProblem

  datatype RusimgStatus = Success | Cancel | NotNeeded

  datatype SaveResult = SaveResult(status: RusimgStatus, inputPath: Path, outputPath: Option<Path>,
                                   beforeFilesize: nat, afterFilesize: Option<nat>, delete: bool)

  /** The results of the steps that ran. */
  datatype Steps = Steps(convert: Option<ConvertResult>, trim: Option<SizeChange>, resize: Option<SizeChange>,
                         grayscale: Option<bool>, compress: Option<bool>)

  datatype ProcessResult = ProcessResult(viuerImage: Option<Image>, steps: Steps, saveResult: SaveResult)

  datatype ThreadTask = ThreadTask(args: ArgParse.ArgStruct, inputPath: Path, outputPath: Option<Path>,
                                   extension: Option<Rusimg.Extension>, askResult: AskResult)

  /** What the outside world answers while one file is processed: the
      file's content and format, the codecs, the file system, the write
      and whether removing the source succeeds. */
  datatype Env = Env(read: Rusimg.FileRead, sniffed: Result<Rusimg.ImageFormat, string>, decoded: Decoded,
                     features: set<Rusimg.Feature>, convertCodec: CodecOutcome, compressCodec: CodecOutcome,
                     fs: FsView, io: WriteOutcome, removeOk: bool)

  /** What processing one file returns and does: the file it writes and
      whether it removes the source. */
  datatype Outcome = Outcome(result: Result<ProcessResult, ProcessingError>, written: Option<FileWrite>, deleted: bool)

  // ---------------------------------------------------------------
  // The overwrite prompt

  /** The characters with the Unicode `White_Space` property, which
      `str::trim` removes. */
  predicate IsSpace(c: char) {
    ('\U{0009}' <= c <= '\U{000D}') || c == ' ' || c == '\U{0085}' || c == '\U{00A0}' || c == '\U{1680}' ||
    ('\U{2000}' <= c <= '\U{200A}') || c == '\U{2028}' || c == '\U{2029}' || c == '\U{202F}' ||
    c == '\U{205F}' || c == '\U{3000}'
  }

  function TrimStart(s: string): (r: string)
    ensures |r| <= |s| && (r == [] || !IsSpace(r[0]))
  {
    if s != [] && IsSpace(s[0]) then TrimStart(s[1..]) else s
  }

  function TrimEnd(s: string): (r: string)
    ensures |r| <= |s| && (r == [] || !IsSpace(r[|r| - 1]))
  {
    if s != [] && IsSpace(s[|s| - 1]) then TrimEnd(s[..|s| - 1]) else s
  }

  /** `str::trim`: white space removed from both ends. */
  function Trim(s: string): string {
    TrimEnd(TrimStart(s))
  }

  /** One answer to the prompt: `y`/`yes` overwrite and `n`/`no`/nothing
      skip, ignoring case and surrounding space; anything else asks again. */
  function PromptAnswer(line: string): Option<bool> {
    var t := Lower(Trim(line));
    if t == "y" || t == "yes" then Some(true)
    else if t == "n" || t == "no" || Trim(line) == "" then Some(false)
    else None
  }

  /** ` Yes` with its line break overwrites. */
  lemma PromptYes()
    ensures PromptAnswer(" Yes\n") == Some(true)
  {
    assert TrimStart(" Yes\n") == "Yes\n";
    assert TrimEnd("Yes\n") == "Yes";
    assert Lower("Yes") == "yes";
  }
  /** A line of only Unicode white space (a no-break space and an
      ideographic space) counts as empty and skips. */
  lemma PromptUnicodeSpace()
    ensures PromptAnswer("\U{00A0}\U{3000}\n") == Some(false)
  {
    assert TrimStart("\U{00A0}\U{3000}\n") == "";
  }


  /** An empty line skips. */
  lemma PromptEmpty()
    ensures PromptAnswer("\n") == Some(false)
  {
    assert TrimStart("\n") == "";
  }

  /** `N` skips. */
  lemma PromptNo()
    ensures PromptAnswer("N") == Some(false)
  {
    assert Lower("N") == "n";
  }

  /** `maybe` answers nothing, so the prompt asks again. */
  lemma PromptUnclear()
    ensures PromptAnswer("maybe\n") == None
  {
    assert TrimStart("maybe\n") == "maybe\n";
    assert TrimEnd("maybe\n") == "maybe";
    assert Lower("maybe") == "maybe";
  }

  /** The prompt over the remaining input lines: whether to overwrite and
      how many lines were read. At the end of the input a read gives an
      empty line, which skips. */
  function Asked(lines: seq<string>): (bool, nat) {
    if lines == [] then (false, 0)
    else match PromptAnswer(lines[0])
      case Some(b) => (b, 1)
      case None => (Asked(lines[1..]).0, Asked(lines[1..]).1 + 1)
  }

  /** The prompt reads up to and including the first line that answers it
      and takes that answer; if no line answers, it reads all of them and
      skips. */
  lemma {:induction false} AskedTakesFirstAnswer(lines: seq<string>)
    ensures var (b, n) := Asked(lines);
      && n <= |lines|
      && (forall k :: 0 <= k < n - 1 ==> PromptAnswer(lines[k]).None?)
      && (n > 0 && PromptAnswer(lines[n - 1]).Some? ==> PromptAnswer(lines[n - 1]) == Some(b))
      && (n == 0 || PromptAnswer(lines[n - 1]).None? ==>
            n == |lines| && !b && forall k :: 0 <= k < |lines| ==> PromptAnswer(lines[k]).None?)
  {
    if lines != [] && PromptAnswer(lines[0]).None? {
      AskedTakesFirstAnswer(lines[1..]);
      var (b, n) := Asked(lines[1..]);
      assert forall k :: 1 <= k < n ==> lines[k] == lines[1..][k - 1];
    }
  }

  /** The prompt never reads more lines than there are. */
  lemma {:induction false} AskedReadsAtMost(lines: seq<string>)
    ensures Asked(lines).1 <= |lines|
  {
    if lines != [] && PromptAnswer(lines[0]).None? {
      AskedReadsAtMost(lines[1..]);
    }
  }

  /** `ask_file_exists`, reading its answers from `lines`. */
  method AskFileExists(lines: seq<string>) returns (overwrite: bool, used: nat)
    ensures (overwrite, used) == Asked(lines)
  {
    var i := 0;
    while true
      invariant 0 <= i <= |lines|
      invariant Asked(lines) == (Asked(lines[i..]).0, Asked(lines[i..]).1 + i)
      decreases |lines| - i
    {
      if i == |lines| {
        return false, i;
      }
      var answer := PromptAnswer(lines[i]);
      if answer.Some? {
        return answer.value, i + 1;
      }
      assert lines[i..][1..] == lines[i + 1..];
      i := i + 1;
    }
  }

  // ---------------------------------------------------------------
  // From found files to tasks

  /** `--yes` wins over `--no`; with neither, ask every time. */
  function OverwriteMode(yes: bool, no: bool): FileOverwriteAsk {
    if yes then YesToAll else if no then NoToAll else AskEverytime
  }

  /** How an existence check becomes a thread task's answer, asking on the
      remaining input when needed; also the number of lines read. */
  function AskFor(check: ExistsCheckResult, lines: seq<string>): (AskResult, nat) {
    match check
    case AllOverwrite => (Overwrite, 0)
    case AllSkip => (Skip, 0)
    case NeedToAsk => (if Asked(lines).0 then Overwrite else Skip, Asked(lines).1)
    case NoProblem => (AskResult.NoProblem, 0)
  }

  /** What building a task needs of a found file: a file name, and an
      extension when `--double-extension` keeps it. */
  predicate Nameable(args: ArgParse.ArgStruct, f: Path) {
    f.name.Some? && (args.doubleExtension ==> Extension(f).Some?)
  }

  /** Where one found file's output goes, worked out before anything is
      asked: nowhere when no save is required, else the output path and
      the tag it is saved under. */
  datatype Plan = NoSave | SaveTo(out: Path, ext: Rusimg.Extension)

  /** The plan for one found file. A `--convert` text outside the table
      fails. */
  function PlanFor(args: ArgParse.ArgStruct, f: Path, fs: FsView): Result<Plan, RusimgError>
    requires Nameable(args, f)
  {
    if IsSaveRequired(args) then
      var argDest: Option<Rusimg.Extension> :-
        if args.destinationExtension.Some? then
          match ConvertStrToExtension(args.destinationExtension.value)
          case Ok(e) => Ok(Some(e))
          case Err(e) => Err(e)
        else Ok(None);
      var ext := GetDestinationExtension(f, argDest);
      Ok(SaveTo(GetOutputPath(f, args.destinationPath, args.doubleExtension, args.destinationAppendName, ext, fs), ext))
    else
      Ok(NoSave)
  }

  /** The thread task for a planned file: for an output path, the existence check
      turned into an answer, asking on the remaining input when needed;
      also the number of input lines the prompt read. */
  function TaskOf(args: ArgParse.ArgStruct, mode: FileOverwriteAsk, f: Path, fs: FsView, p: Plan, lines: seq<string>)
    : (r: (ThreadTask, nat))
    ensures r.1 <= |lines|
  {
    AskedReadsAtMost(lines);
    match p
    case NoSave => (ThreadTask(args, f, None, None, AskResult.NoProblem), 0)
    case SaveTo(out, ext) =>
      var ask := AskFor(CheckFileExists(out, mode, fs), lines);
      (ThreadTask(args, f, Some(out), Some(ext), ask.0), ask.1)
  }

  /** The plans of the found files, in order. Working a plan out reads no
      input, so computing them all up front and then walking them gives
      the loop's own result. */
  function Plans(args: ArgParse.ArgStruct, files: seq<Path>, fs: FsView): seq<Result<Plan, RusimgError>>
    requires forall k :: 0 <= k < |files| ==> Nameable(args, files[k])
  {
    seq(|files|, k requires 0 <= k < |files| => PlanFor(args, files[k], fs))
  }

  datatype Built = Built(tasks: seq<ThreadTask>, used: nat)

  /** The loop over the found files from file `i` on, given each file's
      plan, the tasks built so far and the input lines read so far; the
      first failed plan ends it with its error. */
  function BuildFrom(args: ArgParse.ArgStruct, mode: FileOverwriteAsk, files: seq<Path>, fs: FsView,
                     plans: seq<Result<Plan, RusimgError>>, lines: seq<string>, i: nat, acc: Built)
    : (r: Result<Built, RusimgError>)
    requires |plans| == |files| && i <= |files| && acc.used <= |lines|
    ensures r.Ok? ==> acc.used <= r.value.used <= |lines| && |r.value.tasks| == |acc.tasks| + |files| - i
    decreases |files| - i
  {
    if i == |files| then Ok(acc)
    else
      match plans[i]
      case Err(e) => Err(e)
      case Ok(p) =>
        var tu := TaskOf(args, mode, files[i], fs, p, lines[acc.used..]);
        BuildFrom(args, mode, files, fs, plans, lines, i + 1, Built(acc.tasks + [tu.0], acc.used + tu.1))
  }

  /** The tasks for the found files, in order, with the input lines their
      prompts read. */
  function BuiltTasks(args: ArgParse.ArgStruct, mode: FileOverwriteAsk, files: seq<Path>, fs: FsView,
                      lines: seq<string>): (r: Result<Built, RusimgError>)
    requires forall k :: 0 <= k < |files| ==> Nameable(args, files[k])
    ensures r.Ok? ==> r.value.used <= |lines| && |r.value.tasks| == |files|
  {
    BuildFrom(args, mode, files, fs, Plans(args, files, fs), lines, 0, Built([], 0))
  }

  /** Whether a task asks for any step. */
  predicate StepsRequested(args: ArgParse.ArgStruct) {
    args.destinationExtension.Some? || args.trim.Some? || args.resize.Some? || args.grayscale || args.quality.Some?
  }

  /** What `process` relies on: a trim rectangle that fits in `u32`, a
      non-negative resize ratio, and an output path whenever a step runs. */
  predicate Admissible(task: ThreadTask) {
    && (task.args.trim.Some? ==> RectInU32(task.args.trim.value))
    && (task.args.resize.Some? ==> task.args.resize.value >= 0.0)
    && (StepsRequested(task.args) ==> task.outputPath.Some?)
  }

  /** A save is required and the `--convert` text is not in the table. */
  predicate ConvertFails(args: ArgParse.ArgStruct) {
    IsSaveRequired(args) && args.destinationExtension.Some? && ConvertStrToExtension(args.destinationExtension.value).Err?
  }

  /** A plan fails exactly when the `--convert` text does, and otherwise
      names an output exactly when a save is required. */
  predicate PlanShape(args: ArgParse.ArgStruct, p: Result<Plan, RusimgError>) {
    && (p.Err? <==> ConvertFails(args))
    && (p.Ok? ==> (p.value.SaveTo? <==> IsSaveRequired(args)))
  }

  /** What a task built for file `f` carries: the file and arguments, an
      output path and a tag exactly when a save is required, and the
      answer to the overwrite question: `NoProblem` when nothing is saved
      or the output file does not exist; for an existing output file,
      overwrite under `--yes`, skip under `--no`, the prompt otherwise.
      Validated arguments whose trim fits in `u32` make it admissible. */
  predicate TaskShape(args: ArgParse.ArgStruct, mode: FileOverwriteAsk, fs: FsView, f: Path, t: ThreadTask) {
    && t.inputPath == f && t.args == args
    && (t.outputPath.Some? <==> IsSaveRequired(args))
    && (t.extension.Some? <==> IsSaveRequired(args))
    && (!IsSaveRequired(args) ==> t.askResult == AskResult.NoProblem)
    && (IsSaveRequired(args) && !fs.Exists(t.outputPath.value) ==> t.askResult == AskResult.NoProblem)
    && (IsSaveRequired(args) && fs.Exists(t.outputPath.value) ==>
          && (mode == YesToAll ==> t.askResult == Overwrite)
          && (mode == NoToAll ==> t.askResult == Skip)
          && (mode == AskEverytime ==> t.askResult != AskResult.NoProblem))
    && (((args.trim.Some? ==> RectInU32(args.trim.value)) && (args.resize.Some? ==> args.resize.value > 0.0))
          ==> Admissible(t))
  }

  /** Every file's plan has the shape above. */
  lemma PlanForShape(args: ArgParse.ArgStruct, f: Path, fs: FsView)
    requires Nameable(args, f)
    ensures PlanShape(args, PlanFor(args, f, fs))
  {
  }

  /** A plan that names an output exactly when a save is required gives a
      task of the shape above. */
  lemma TaskOfShape(args: ArgParse.ArgStruct, mode: FileOverwriteAsk, f: Path, fs: FsView, p: Plan, lines: seq<string>)
    requires p.SaveTo? <==> IsSaveRequired(args)
    ensures TaskShape(args, mode, fs, f, TaskOf(args, mode, f, fs, p, lines).0)
  {
    if p.SaveTo? {
      CheckFileExistsModes(p.out, mode, fs);
    }
    assert StepsRequested(args) ==> IsSaveRequired(args);
  }

  /** Every task has the shape above for the file at its index. */
  predicate AllShaped(args: ArgParse.ArgStruct, mode: FileOverwriteAsk, fs: FsView, files: seq<Path>,
                      tasks: seq<ThreadTask>) {
    |tasks| == |files| && forall k :: 0 <= k < |files| ==> TaskShape(args, mode, fs, files[k], tasks[k])
  }

  /** A task of the right shape for file `i` extends the shaped tasks of
      the files before it. */
  lemma ShapedSnoc(args: ArgParse.ArgStruct, mode: FileOverwriteAsk, fs: FsView, files: seq<Path>, i: nat,
                   tasks: seq<ThreadTask>, t: ThreadTask)
    requires i < |files| && AllShaped(args, mode, fs, files[..i], tasks) && TaskShape(args, mode, fs, files[i], t)
    ensures AllShaped(args, mode, fs, files[..i + 1], tasks + [t])
  {
    forall k | 0 <= k < i + 1
      ensures TaskShape(args, mode, fs, files[..i + 1][k], (tasks + [t])[k])
    {
      if k < i {
        assert files[..i + 1][k] == files[..i][k] && (tasks + [t])[k] == tasks[k];
      }
    }
  }

  /** A file with a plan of the shape above moves the loop on by one
      task of the shape above. */
  lemma PlanStep(args: ArgParse.ArgStruct, mode: FileOverwriteAsk, files: seq<Path>, fs: FsView,
                 plans: seq<Result<Plan, RusimgError>>, lines: seq<string>, i: nat, acc: Built) returns (next: Built)
    requires |plans| == |files| && i < |files| && acc.used <= |lines|
    requires plans[i].Ok? && (plans[i].value.SaveTo? <==> IsSaveRequired(args))
    requires AllShaped(args, mode, fs, files[..i], acc.tasks)
    ensures next.used <= |lines| && AllShaped(args, mode, fs, files[..i + 1], next.tasks)
    ensures BuildFrom(args, mode, files, fs, plans, lines, i + 1, next) == BuildFrom(args, mode, files, fs, plans, lines, i, acc)
  {
    var p := plans[i].value;
    var tu := TaskOf(args, mode, files[i], fs, p, lines[acc.used..]);
    TaskOfShape(args, mode, files[i], fs, p, lines[acc.used..]);
    ShapedSnoc(args, mode, fs, files, i, acc.tasks, tu.0);
    next := Built(acc.tasks + [tu.0], acc.used + tu.1);
  }

  /** The loop from file `i` on, over plans of the shape above, fails
      exactly when a file remains and the `--convert` text fails;
      otherwise it adds one task of the shape above per remaining file. */
  lemma {:induction false} BuildFromShape(args: ArgParse.ArgStruct, mode: FileOverwriteAsk, files: seq<Path>, fs: FsView,
                                          plans: seq<Result<Plan, RusimgError>>, lines: seq<string>, i: nat, acc: Built)
    requires |plans| == |files| && i <= |files| && acc.used <= |lines|
    requires forall k :: 0 <= k < |plans| ==> PlanShape(args, plans[k])
    requires AllShaped(args, mode, fs, files[..i], acc.tasks)
    ensures BuildFrom(args, mode, files, fs, plans, lines, i, acc).Err? <==> i < |files| && ConvertFails(args)
    ensures BuildFrom(args, mode, files, fs, plans, lines, i, acc).Ok? ==>
      AllShaped(args, mode, fs, files, BuildFrom(args, mode, files, fs, plans, lines, i, acc).value.tasks)
    decreases |files| - i
  {
    if i == |files| {
      assert files[..i] == files;
    } else if plans[i].Ok? {
      var next := PlanStep(args, mode, files, fs, plans, lines, i, acc);
      BuildFromShape(args, mode, files, fs, plans, lines, i + 1, next);
    }
  }

  /** Building tasks fails exactly when there is a file, a save is required
      and the `--convert` text is not in the table; otherwise there is one
      task per file, in order, each of the shape above. */
  lemma BuiltTasksShape(args: ArgParse.ArgStruct, mode: FileOverwriteAsk, files: seq<Path>, fs: FsView,
                        lines: seq<string>)
    requires forall k :: 0 <= k < |files| ==> Nameable(args, files[k])
    ensures BuiltTasks(args, mode, files, fs, lines).Err? <==> files != [] && ConvertFails(args)
    ensures BuiltTasks(args, mode, files, fs, lines).Ok? ==>
      AllShaped(args, mode, fs, files, BuiltTasks(args, mode, files, fs, lines).value.tasks)
  {
    var plans := Plans(args, files, fs);
    forall k | 0 <= k < |plans|
      ensures PlanShape(args, plans[k])
    {
      PlanForShape(args, files[k], fs);
    }
    assert files[..0] == [];
    BuildFromShape(args, mode, files, fs, plans, lines, 0, Built([], 0));
  }

  /** Shaped tasks for validated arguments whose trim fits in `u32` are
      all admissible. */
  lemma ShapedAdmissible(args: ArgParse.ArgStruct, mode: FileOverwriteAsk, fs: FsView, files: seq<Path>,
                         tasks: seq<ThreadTask>)
    requires AllShaped(args, mode, fs, files, tasks)
    requires (args.trim.Some? ==> RectInU32(args.trim.value)) && (args.resize.Some? ==> args.resize.value > 0.0)
    ensures forall k :: 0 <= k < |tasks| ==> Admissible(tasks[k])
  {
    forall k | 0 <= k < |tasks|
      ensures Admissible(tasks[k])
    {
      assert TaskShape(args, mode, fs, files[k], tasks[k]);
    }
  }

  /** `--yes` wins over `--no`; `--no` alone skips; neither asks. */
  lemma OverwriteModeChoice(yes: bool, no: bool)
    ensures yes ==> OverwriteMode(yes, no) == YesToAll
    ensures !yes && no ==> OverwriteMode(yes, no) == NoToAll
    ensures !yes && !no ==> OverwriteMode(yes, no) == AskEverytime
  {
  }

  /** The existence check turns into a thread task's answer: overwrite-all and
      skip-all without reading input, the prompt's answer when asking, and
      no problem for a missing file. */
  lemma AskForMapping(check: ExistsCheckResult, lines: seq<string>)
    ensures check == AllOverwrite ==> AskFor(check, lines) == (Overwrite, 0)
    ensures check == AllSkip ==> AskFor(check, lines) == (Skip, 0)
    ensures check == ExistsCheckResult.NoProblem ==> AskFor(check, lines) == (AskResult.NoProblem, 0)
    ensures check == NeedToAsk ==>
      AskFor(check, lines).0 == (if Asked(lines).0 then Overwrite else Skip) && AskFor(check, lines).1 == Asked(lines).1
  {
  }

  /** The first half of the loop body: where one found file's output
      goes. */
  method PlanFile(args: ArgParse.ArgStruct, f: Path, fs: FsView) returns (r: Result<Plan, RusimgError>)
    requires Nameable(args, f)
    ensures r == PlanFor(args, f, fs)
  {
    if !IsSaveRequired(args) {
      return Ok(NoSave);
    }
    var argDest: Option<Rusimg.Extension> := None;
    if args.destinationExtension.Some? {
      var e := ConvertStrToExtension(args.destinationExtension.value);
      if e.Err? {
        return Err(e.error);
      }
      argDest := Some(e.value);
    }
    var ext := GetDestinationExtension(f, argDest);
    var out := GetOutputPath(f, args.destinationPath, args.doubleExtension, args.destinationAppendName, ext, fs);
    r := Ok(SaveTo(out, ext));
  }

  /** The second half: the overwrite question for a planned file, asked on
      the remaining input when needed. */
  method AskTask(args: ArgParse.ArgStruct, mode: FileOverwriteAsk, f: Path, fs: FsView, p: Plan, lines: seq<string>)
    returns (r: (ThreadTask, nat))
    ensures r == TaskOf(args, mode, f, fs, p, lines)
  {
    if p.NoSave? {
      return (ThreadTask(args, f, None, None, AskResult.NoProblem), 0);
    }
    var ask := AskResult.NoProblem;
    var n: nat := 0;
    match CheckFileExists(p.out, mode, fs) {
      case AllOverwrite => ask := Overwrite;
      case AllSkip => ask := Skip;
      case NeedToAsk =>
        var yes;
        yes, n := AskFileExists(lines);
        ask := if yes then Overwrite else Skip;
      case NoProblem => ask := AskResult.NoProblem;
    }
    r := (ThreadTask(args, f, Some(p.out), Some(p.ext), ask), n);
  }

  /** One turn of the loop over the found files, given file `i`'s plan:
      its task appended to those before it, from where the rest of the
      loop goes on; or the error that ends the loop. */
  method ExtendTasks(args: ArgParse.ArgStruct, mode: FileOverwriteAsk, files: seq<Path>, fs: FsView,
                     ghost plans: seq<Result<Plan, RusimgError>>, lines: seq<string>, i: nat, b: Built,
                     p: Result<Plan, RusimgError>)
    returns (r: Result<Built, RusimgError>)
    requires |plans| == |files| && i < |files| && b.used <= |lines| && plans[i] == p
    ensures r.Err? ==> r == BuildFrom(args, mode, files, fs, plans, lines, i, b)
    ensures r.Ok? ==> && r.value.used <= |lines| && |r.value.tasks| == |b.tasks| + 1
                      && BuildFrom(args, mode, files, fs, plans, lines, i + 1, r.value)
                         == BuildFrom(args, mode, files, fs, plans, lines, i, b)
  {
    if p.Err? {
      return Err(p.error);
    }
    var tu := AskTask(args, mode, files[i], fs, p.value, lines[b.used..]);
    r := Ok(Built(b.tasks + [tu.0], b.used + tu.1));
  }

  /** The loop of `main` that turns the found files into tasks. */
  method BuildTasks(args: ArgParse.ArgStruct, mode: FileOverwriteAsk, files: seq<Path>, fs: FsView, lines: seq<string>)
    returns (r: Result<seq<ThreadTask>, RusimgError>)
    requires forall k :: 0 <= k < |files| ==> Nameable(args, files[k])
    ensures r.Ok? <==> BuiltTasks(args, mode, files, fs, lines).Ok?
    ensures r.Ok? ==> r.value == BuiltTasks(args, mode, files, fs, lines).value.tasks
    ensures r.Err? ==> r.error == BuiltTasks(args, mode, files, fs, lines).error
  {
    ghost var plans := Plans(args, files, fs);
    var built := Built([], 0);
    for i := 0 to |files|
      invariant built.used <= |lines|
      invariant BuildFrom(args, mode, files, fs, plans, lines, i, built) == BuiltTasks(args, mode, files, fs, lines)
    {
      var p := PlanFile(args, files[i], fs);
      var next := ExtendTasks(args, mode, files, fs, plans, lines, i, built, p);
      if next.Err? {
        return Err(next.error);
      }
      built := next.value;
    }
    r := Ok(built.tasks);
  }

  // ---------------------------------------------------------------
  // Processing one file

  /** The steps of `process` on an opened image, in the source's order:
      convert, trim, resize, grayscale, compress. The first failing step
      ends the pipeline with its error. */
  function Pipeline(task: ThreadTask, env: Env, s0: Rusimg.ImgState): Stepped<Steps>
    requires Admissible(task)
  {
    var c := ConvertStage(task, env, s0);
    if c.result.Err? then Stepped(c.state, Err(c.result.error)) else
    var t := TrimStage(task, c.state);
    if t.result.Err? then Stepped(t.state, Err(t.result.error)) else
    var r := ResizeStage(task, t.state);
    if r.result.Err? then Stepped(r.state, Err(r.result.error)) else
    var g := GrayscaleStage(task, r.state);
    var q := CompressStage(task, env, g.state);
    if q.result.Err? then Stepped(q.state, Err(q.result.error)) else
    Stepped(q.state, Ok(Steps(c.result.value, t.result.value, r.result.value, g.result.value, q.result.value)))
  }

  /** Each stage runs its step when its thread task asks for it, and otherwise
      leaves the image alone. */
  function ConvertStage(task: ThreadTask, env: Env, s: Rusimg.ImgState): Stepped<Option<ConvertResult>> {
    if task.args.destinationExtension.Some? then ConvertStep(task.extension, s, env.features, env.convertCodec, task.inputPath)
    else Stepped(s, Ok(None))
  }

  function TrimStage(task: ThreadTask, s: Rusimg.ImgState): Stepped<Option<SizeChange>>
    requires Admissible(task)
  {
    if task.args.trim.Some? then TrimStep(s, task.args.trim.value, task.inputPath) else Stepped(s, Ok(None))
  }

  function ResizeStage(task: ThreadTask, s: Rusimg.ImgState): Stepped<Option<SizeChange>>
    requires Admissible(task)
  {
    if task.args.resize.Some? then ResizeStep(s, task.args.resize.value, task.inputPath) else Stepped(s, Ok(None))
  }

  function GrayscaleStage(task: ThreadTask, s: Rusimg.ImgState): Stepped<Option<bool>> {
    if task.args.grayscale then Stepped(s.Grayscale(), Ok(Some(true))) else Stepped(s, Ok(None))
  }

  function CompressStage(task: ThreadTask, env: Env, s: Rusimg.ImgState): Stepped<Option<bool>> {
    if task.args.quality.Some? then CompressStep(s, task.args.quality, env.compressCodec, task.inputPath)
    else Stepped(s, Ok(None))
  }

  /** Whether `process` saves: some step ran, or the output path differs
      from the input. */
  predicate SaveRequired(task: ThreadTask) {
    StepsRequested(task.args) || (task.outputPath.Some? && task.inputPath != task.outputPath.value)
  }

  /** `process`: open the file, run the requested steps, keep the image
      for `--view`, then save when required (unless the answer was to
      skip) and remove the source under `--delete` when the saved file is
      elsewhere. */
  function Processed(task: ThreadTask, env: Env): Outcome
    requires Admissible(task)
  {
    var args := task.args;
    var file := task.inputPath;
    match Rusimg.Opened(file, env.read, env.sniffed, env.decoded, env.features)
    case Err(e) => Outcome(Err(RusimgErr(e, file)), None, false)
    case Ok(s0) =>
      var p := Pipeline(task, env, s0);
      if p.result.Err? then Outcome(Err(p.result.error), None, false) else
      var view := if args.view then Some(p.state.data.Image()) else None;
      Saved(task, env, p.state, view, p.result.value)
  }

  /** The end of `process` once the steps have left the image in `s`:
      save when required (unless the answer was to skip), then remove the
      source under `--delete` when the saved file is elsewhere. */
  function Saved(task: ThreadTask, env: Env, s: Rusimg.ImgState, view: Option<Image>, steps: Steps): Outcome
    requires Admissible(task)
  {
    var file := task.inputPath;
    if !SaveRequired(task) then
      Outcome(Ok(ProcessResult(view, steps, SaveResult(NotNeeded, s.data.SourcePath(), None, 0, None, false))), None, false)
    else if task.askResult == Skip then
      Outcome(Ok(ProcessResult(view, steps, SaveResult(Cancel, s.data.SourcePath(), None, 0, None, false))), None, false)
    else
      var sv := s.SaveImage(Some(task.outputPath.value), env.fs, env.io);
      match sv.result
      case Err(e) => Outcome(Err(RusimgErr(e, file)), sv.written, false)
      case Ok(status) =>
        var delete := status.outputPath.Some? && task.args.delete && file != status.outputPath.value;
        if delete && !env.removeOk then Outcome(Err(IOError(file)), sv.written, false)
        else
          Outcome(Ok(ProcessResult(view, steps,
                                   SaveResult(Success, sv.state.data.SourcePath(), status.outputPath,
                                              status.beforeFilesize, status.afterFilesize, delete))),
                  sv.written, delete)
  }

  /** Each stage of `process` on the opened image, run when its thread task asks
      for it. Converting may replace the image's handle. */
  method RunConvert(task: ThreadTask, env: Env, image: Rusimg.RusImg) returns (r: Result<Option<ConvertResult>, ProcessingError>)
    modifies image
    ensures Stepped(image.State(), r) == ConvertStage(task, env, old(image.State()))
    ensures image.data == old(image.data) || fresh(image.data.Obj())
  {
    r := Ok(None);
    if task.args.destinationExtension.Some? {
      r := ProcessConvert(task.extension, image, env.features, env.convertCodec, task.inputPath);
    }
  }

  method RunTrim(task: ThreadTask, image: Rusimg.RusImg) returns (r: Result<Option<SizeChange>, ProcessingError>)
    requires Admissible(task)
    modifies image.data.Obj()
    ensures Stepped(image.State(), r) == TrimStage(task, old(image.State()))
  {
    r := Ok(None);
    if task.args.trim.Some? {
      r := ProcessTrim(image, task.args.trim.value, task.inputPath);
    }
  }

  method RunResize(task: ThreadTask, image: Rusimg.RusImg) returns (r: Result<Option<SizeChange>, ProcessingError>)
    requires Admissible(task)
    modifies image.data.Obj()
    ensures Stepped(image.State(), r) == ResizeStage(task, old(image.State()))
  {
    r := Ok(None);
    if task.args.resize.Some? {
      r := ProcessResize(image, task.args.resize.value, task.inputPath);
    }
  }

  method RunGrayscale(task: ThreadTask, image: Rusimg.RusImg) returns (r: Result<Option<bool>, ProcessingError>)
    modifies image.data.Obj()
    ensures Stepped(image.State(), r) == GrayscaleStage(task, old(image.State()))
  {
    r := Ok(None);
    if task.args.grayscale {
      r := ProcessGrayscale(image);
    }
  }

  method RunCompress(task: ThreadTask, env: Env, image: Rusimg.RusImg) returns (r: Result<Option<bool>, ProcessingError>)
    modifies image.data.Obj()
    ensures Stepped(image.State(), r) == CompressStage(task, env, old(image.State()))
  {
    r := Ok(None);
    if task.args.quality.Some? {
      r := ProcessCompress(image, task.args.quality, env.compressCodec, task.inputPath);
    }
  }

  /** The steps of `process`, on the opened image. */
  method RunSteps(task: ThreadTask, env: Env, image: Rusimg.RusImg) returns (r: Result<Steps, ProcessingError>)
    requires Admissible(task)
    modifies image, image.data.Obj()
    ensures Stepped(image.State(), r) == Pipeline(task, env, old(image.State()))
    ensures image.data == old(image.data) || fresh(image.data.Obj())
  {
    var c := RunConvert(task, env, image);
    if c.Err? {
      return Err(c.error);
    }
    var t := RunTrim(task, image);
    if t.Err? {
      return Err(t.error);
    }
    var z := RunResize(task, image);
    if z.Err? {
      return Err(z.error);
    }
    var g := RunGrayscale(task, image);
    var q := RunCompress(task, env, image);
    if q.Err? {
      return Err(q.error);
    }
    r := Ok(Steps(c.value, t.value, z.value, g.value, q.value));
  }

  /** `process` on one task. */
  method Process(task: ThreadTask, env: Env) returns (r: Result<ProcessResult, ProcessingError>,
                                                      written: Option<FileWrite>, deleted: bool)
    requires Admissible(task)
    ensures Outcome(r, written, deleted) == Processed(task, env)
  {
    var args := task.args;
    var file := task.inputPath;
    var open := Rusimg.RusImg.OpenImage(file, env.read, env.sniffed, env.decoded, env.features);
    if open.Err? {
      return Err(RusimgErr(open.error, file)), None, false;
    }
    var image := open.value;
    var steps := RunSteps(task, env, image);
    if steps.Err? {
      return Err(steps.error), None, false;
    }
    var view: Option<Image> := None;
    if args.view {
      var img := image.GetDynamicImage();
      view := Some(img.value);
    }
    r, written, deleted := SaveAndRemove(task, env, image, view, steps.value);
  }

  /** The save and the removal of `process`, on the image its steps left. */
  method SaveAndRemove(task: ThreadTask, env: Env, image: Rusimg.RusImg, view: Option<Image>, steps: Steps)
    returns (r: Result<ProcessResult, ProcessingError>, written: Option<FileWrite>, deleted: bool)
    requires Admissible(task)
    modifies image.data.Obj()
    ensures Outcome(r, written, deleted) == Saved(task, env, old(image.State()), view, steps)
  {
    var saveRequired := StepsRequested(task.args);
    if !saveRequired && task.outputPath.Some? && task.inputPath != task.outputPath.value {
      saveRequired := true;
    }
    if !saveRequired {
      var input := image.GetInputFilepath();
      return Ok(ProcessResult(view, steps, SaveResult(NotNeeded, input, None, 0, None, false))), None, false;
    }
    if task.askResult == Skip {
      var input := image.GetInputFilepath();
      return Ok(ProcessResult(view, steps, SaveResult(Cancel, input, None, 0, None, false))), None, false;
    }
    var status;
    status, written := image.SaveImage(Some(task.outputPath.value), env.fs, env.io);
    if status.Err? {
      return Err(RusimgErr(status.error, task.inputPath)), written, false;
    }
    var delete := false;
    if status.value.outputPath.Some? {
      if task.args.delete && task.inputPath != status.value.outputPath.value {
        if !env.removeOk {
          return Err(IOError(task.inputPath)), written, false;
        }
        delete := true;
      }
    }
    var input := image.GetInputFilepath();
    r := Ok(ProcessResult(view, steps, SaveResult(Success, input, status.value.outputPath,
                                                  status.value.beforeFilesize, status.value.afterFilesize, delete)));
    deleted := delete;
  }

  /** A file that cannot be opened is reported with its path, and nothing
      is written or removed. */
  lemma ProcessOpenFails(task: ThreadTask, env: Env)
    requires Admissible(task)
    requires Rusimg.Opened(task.inputPath, env.read, env.sniffed, env.decoded, env.features).Err?
    ensures Processed(task, env) ==
      Outcome(Err(RusimgErr(Rusimg.Opened(task.inputPath, env.read, env.sniffed, env.decoded, env.features).error,
                            task.inputPath)), None, false)
  {
  }

  /** Nothing is written unless the file opened, every step succeeded, a
      save is required and the answer was not to skip; nothing is removed
      unless a file was written. */
  lemma ProcessWritesOnlyWhenSaving(task: ThreadTask, env: Env)
    requires Admissible(task)
    ensures var o := Processed(task, env);
      var op := Rusimg.Opened(task.inputPath, env.read, env.sniffed, env.decoded, env.features);
      o.written.Some? ==>
        && op.Ok? && Pipeline(task, env, op.value).result.Ok?
        && SaveRequired(task) && task.askResult != Skip
    ensures Processed(task, env).deleted ==> Processed(task, env).written.Some?
  {
    var op := Rusimg.Opened(task.inputPath, env.read, env.sniffed, env.decoded, env.features);
    if op.Ok? {
      var p := Pipeline(task, env, op.value);
      if p.result.Ok? && SaveRequired(task) && task.askResult != Skip {
        SaveImageWrites(p.state, Some(task.outputPath.value), env.fs, env.io);
      }
    }
  }

  /** A successful save has written its file. */
  lemma SaveImageWrites(s: Rusimg.ImgState, dest: Option<Path>, fs: FsView, io: WriteOutcome)
    ensures s.SaveImage(dest, fs, io).result.Ok? ==> s.SaveImage(dest, fs, io).written.Some?
  {
  }

  /** The status tells why a file was or was not saved: not needed exactly
      when no step ran and the output is the input; cancelled exactly when
      a save was needed and the answer was to skip. Neither writes,
      removes or reports an output path. */
  lemma ProcessStatusRule(task: ThreadTask, env: Env)
    requires Admissible(task)
    ensures var o := Processed(task, env);
      o.result.Ok? ==>
        && (o.result.value.saveResult.status == NotNeeded <==> !SaveRequired(task))
        && (o.result.value.saveResult.status == Cancel <==> SaveRequired(task) && task.askResult == Skip)
        && (o.result.value.saveResult.status != Success ==>
              && o.written.None? && !o.deleted && o.result.value.saveResult.outputPath.None?
              && !o.result.value.saveResult.delete && o.result.value.saveResult.beforeFilesize == 0)
  {
  }

  /** `--delete` removes the source exactly when the save succeeded and
      the saved file is not the source; the removed file is then never the
      one just written. A failed removal is an I/O error on the source. */
  lemma ProcessDeleteRule(task: ThreadTask, env: Env)
    requires Admissible(task)
    ensures var o := Processed(task, env);
      && (o.deleted ==>
            && task.args.delete && o.result.Ok? && o.result.value.saveResult.status == Success
            && o.result.value.saveResult.delete
            && o.written.Some? && o.written.value.path != task.inputPath)
      && (o.result.Ok? && o.result.value.saveResult.status == Success ==>
            (o.deleted <==> task.args.delete && o.result.value.saveResult.outputPath.Some?
                            && o.result.value.saveResult.outputPath.value != task.inputPath))
      && (o.result.Err? && o.result.error.IOError? ==>
            task.args.delete && !env.removeOk && o.result.error.filepath == task.inputPath && o.written.Some?)
  {
    var op := Rusimg.Opened(task.inputPath, env.read, env.sniffed, env.decoded, env.features);
    if op.Ok? {
      var p := Pipeline(task, env, op.value);
      if p.result.Ok? && SaveRequired(task) && task.askResult != Skip {
        var dest := Some(task.outputPath.value);
        Rusimg.SaveImageReports(p.state, dest, env.fs, env.io);
        SaveImageWrites(p.state, dest, env.fs, env.io);
      }
    }
  }

  // ---------------------------------------------------------------
  // Step order, against a plain fold over the requested operations

  datatype Op = OpConvert | OpTrim(rect: Rect) | OpResize(ratio: real) | OpGrayscale | OpCompress(quality: real)

  predicate OpFits(op: Op) {
    match op
    case OpTrim(t) => RectInU32(t)
    case OpResize(ratio) => ratio >= 0.0
    case _ => true
  }

  function Opt(b: bool, op: Op): seq<Op> {
    if b then [op] else []
  }

  function ConvertOps(args: ArgParse.ArgStruct): seq<Op> { Opt(args.destinationExtension.Some?, OpConvert) }
  function TrimOps(args: ArgParse.ArgStruct): seq<Op> { Opt(args.trim.Some?, OpTrim(args.trim.GetOr(Rect(0, 0, 0, 0)))) }
  function ResizeOps(args: ArgParse.ArgStruct): seq<Op> { Opt(args.resize.Some?, OpResize(args.resize.GetOr(0.0))) }
  function GrayscaleOps(args: ArgParse.ArgStruct): seq<Op> { Opt(args.grayscale, OpGrayscale) }
  function CompressOps(args: ArgParse.ArgStruct): seq<Op> { Opt(args.quality.Some?, OpCompress(args.quality.GetOr(0.0))) }

  /** The operations a task asks for, in the order `process` runs them. */
  function Requested(args: ArgParse.ArgStruct): seq<Op> {
    ConvertOps(args) + (TrimOps(args) + (ResizeOps(args) + (GrayscaleOps(args) + CompressOps(args))))
  }

  /** One operation on the image state; `None` when it fails. */
  function ApplyOp(s: Rusimg.ImgState, op: Op, extension: Option<Rusimg.Extension>, env: Env): Option<Rusimg.ImgState>
    requires OpFits(op)
  {
    match op
    case OpConvert =>
      if extension.None? then None
      else
        var st := s.Convert(extension.value, env.features, env.convertCodec);
        if st.result.Ok? then Some(st.state) else None
    case OpTrim(t) => var st := s.Trim(t); if st.result.Ok? then Some(st.state) else None
    case OpResize(ratio) => var st := s.Resize(ratio); if st.result.Ok? then Some(st.state) else None
    case OpGrayscale => Some(s.Grayscale())
    case OpCompress(q) =>
      var st := s.Compress(Some(q), env.compressCodec);
      if st.result.Ok? then Some(st.state) else None
  }

  /** The operations applied left to right, stopping at the first failure. */
  function ApplyOps(s: Rusimg.ImgState, ops: seq<Op>, extension: Option<Rusimg.Extension>, env: Env): Option<Rusimg.ImgState>
    requires forall k :: 0 <= k < |ops| ==> OpFits(ops[k])
    decreases |ops|
  {
    if ops == [] then Some(s)
    else
      match ApplyOp(s, ops[0], extension, env)
      case None => None
      case Some(s') => ApplyOps(s', ops[1..], extension, env)
  }

  lemma {:induction false} ApplyOpsAppend(s: Rusimg.ImgState, a: seq<Op>, b: seq<Op>, extension: Option<Rusimg.Extension>, env: Env)
    requires forall k :: 0 <= k < |a| ==> OpFits(a[k])
    requires forall k :: 0 <= k < |b| ==> OpFits(b[k])
    ensures forall k :: 0 <= k < |a + b| ==> OpFits((a + b)[k])
    ensures ApplyOps(s, a + b, extension, env) ==
      match ApplyOps(s, a, extension, env)
      case None => None
      case Some(s') => ApplyOps(s', b, extension, env)
    decreases |a|
  {
    assert forall k :: 0 <= k < |a + b| ==> OpFits((a + b)[k]) by {
      forall k | 0 <= k < |a + b| ensures OpFits((a + b)[k]) {
        if k < |a| { assert (a + b)[k] == a[k]; } else { assert (a + b)[k] == b[k - |a|]; }
      }
    }
    if a == [] {
      assert a + b == b;
    } else {
      assert (a + b)[0] == a[0];
      assert (a + b)[1..] == a[1..] + b;
      match ApplyOp(s, a[0], extension, env)
      case None =>
      case Some(s') => ApplyOpsAppend(s', a[1..], b, extension, env);
    }
  }

  /** A stage and the fold of its operations agree: both fail, or both
      succeed with the same image. */
  predicate StageAgrees<T>(st: Stepped<T>, f: Option<Rusimg.ImgState>) {
    (st.result.Ok? <==> f.Some?) && (st.result.Ok? ==> st.state == f.value)
  }

  lemma ConvertStageAgrees(task: ThreadTask, env: Env, s: Rusimg.ImgState)
    ensures StageAgrees(ConvertStage(task, env, s), ApplyOps(s, ConvertOps(task.args), task.extension, env))
  {
    SingleOps(s, ConvertOps(task.args), task.extension, env);
  }

  lemma TrimStageAgrees(task: ThreadTask, env: Env, s: Rusimg.ImgState)
    requires Admissible(task)
    ensures forall k :: 0 <= k < |TrimOps(task.args)| ==> OpFits(TrimOps(task.args)[k])
    ensures StageAgrees(TrimStage(task, s), ApplyOps(s, TrimOps(task.args), task.extension, env))
  {
    SingleOps(s, TrimOps(task.args), task.extension, env);
  }

  lemma ResizeStageAgrees(task: ThreadTask, env: Env, s: Rusimg.ImgState)
    requires Admissible(task)
    ensures forall k :: 0 <= k < |ResizeOps(task.args)| ==> OpFits(ResizeOps(task.args)[k])
    ensures StageAgrees(ResizeStage(task, s), ApplyOps(s, ResizeOps(task.args), task.extension, env))
  {
    SingleOps(s, ResizeOps(task.args), task.extension, env);
  }

  lemma GrayscaleStageAgrees(task: ThreadTask, env: Env, s: Rusimg.ImgState)
    ensures StageAgrees(GrayscaleStage(task, s), ApplyOps(s, GrayscaleOps(task.args), task.extension, env))
  {
    SingleOps(s, GrayscaleOps(task.args), task.extension, env);
  }

  lemma CompressStageAgrees(task: ThreadTask, env: Env, s: Rusimg.ImgState)
    ensures StageAgrees(CompressStage(task, env, s), ApplyOps(s, CompressOps(task.args), task.extension, env))
  {
    SingleOps(s, CompressOps(task.args), task.extension, env);
  }

  /** `process` runs exactly the requested steps, in the order convert,
      trim, resize, grayscale, compress: its pipeline succeeds exactly when
      folding those operations over the opened image succeeds, and then
      leaves the same image. */
  lemma PipelineRunsRequestedInOrder(task: ThreadTask, env: Env, s0: Rusimg.ImgState)
    requires Admissible(task)
    ensures forall k :: 0 <= k < |Requested(task.args)| ==> OpFits(Requested(task.args)[k])
    ensures StageAgrees(Pipeline(task, env, s0), ApplyOps(s0, Requested(task.args), task.extension, env))
  {
    var args := task.args;
    var ext := task.extension;
    var a, b, c, d, e := ConvertOps(args), TrimOps(args), ResizeOps(args), GrayscaleOps(args), CompressOps(args);
    TrimStageAgrees(task, env, s0);
    ResizeStageAgrees(task, env, s0);
    ApplyOpsAppend(s0, d, e, ext, env);
    ApplyOpsAppend(s0, c, d + e, ext, env);
    ApplyOpsAppend(s0, b, c + (d + e), ext, env);
    ApplyOpsAppend(s0, a, b + (c + (d + e)), ext, env);
    var sc := ConvertStage(task, env, s0);
    ConvertStageAgrees(task, env, s0);
    if sc.result.Ok? {
      var st := TrimStage(task, sc.state);
      TrimStageAgrees(task, env, sc.state);
      ApplyOpsAppend(sc.state, b, c + (d + e), ext, env);
      if st.result.Ok? {
        var sr := ResizeStage(task, st.state);
        ResizeStageAgrees(task, env, st.state);
        ApplyOpsAppend(st.state, c, d + e, ext, env);
        if sr.result.Ok? {
          var sg := GrayscaleStage(task, sr.state);
          GrayscaleStageAgrees(task, env, sr.state);
          ApplyOpsAppend(sr.state, d, e, ext, env);
          CompressStageAgrees(task, env, sg.state);
        }
      }
    }
  }

  /** Folding no operation, or one. */
  lemma SingleOps(s: Rusimg.ImgState, ops: seq<Op>, extension: Option<Rusimg.Extension>, env: Env)
    requires |ops| <= 1 && forall k :: 0 <= k < |ops| ==> OpFits(ops[k])
    ensures ops == [] ==> ApplyOps(s, ops, extension, env) == Some(s)
    ensures ops != [] ==> ApplyOps(s, ops, extension, env) == ApplyOp(s, ops[0], extension, env)
  {
    if ops != [] {
      assert ops[1..] == [];
      match ApplyOp(s, ops[0], extension, env)
      case None =>
      case Some(s') => assert ApplyOps(s', ops[1..], extension, env) == Some(s');
    }
  }

  // ---------------------------------------------------------------
  // Draining the queue and the program as a whole

  /** The number of failed files among the outcomes. */
  function Failures(outcomes: seq<Outcome>): (n: nat)
    ensures n <= |outcomes|
  {
    if outcomes == [] then 0
    else Failures(outcomes[..|outcomes| - 1]) + (if outcomes[|outcomes| - 1].result.Err? then 1 else 0)
  }

  /** Every task is admissible and processed once, last first: the k-th
      outcome is that of the k-th task from the end. */
  predicate Drained(tasks: seq<ThreadTask>, envs: seq<Env>, outcomes: seq<Outcome>) {
    && |envs| == |tasks| && |outcomes| == |tasks|
    && forall k :: 0 <= k < |tasks| ==>
         && Admissible(tasks[|tasks| - 1 - k])
         && outcomes[k] == Processed(tasks[|tasks| - 1 - k], envs[|tasks| - 1 - k])
  }

  /** A worker's loop: pop the last task, process it, count successes and
      failures. Every task is processed once, last first. */
  method DrainTasks(tasks: seq<ThreadTask>, envs: seq<Env>) returns (count: nat, errorCount: nat, outcomes: seq<Outcome>)
    requires |envs| == |tasks|
    requires forall k :: 0 <= k < |tasks| ==> Admissible(tasks[k])
    ensures Drained(tasks, envs, outcomes)
    ensures count + errorCount == |tasks|
    ensures errorCount == Failures(outcomes)
  {
    var queue := tasks;
    count, errorCount, outcomes := 0, 0, [];
    while |queue| > 0
      invariant |queue| <= |tasks| && queue == tasks[..|queue|]
      invariant |outcomes| == |tasks| - |queue|
      invariant forall k :: 0 <= k < |outcomes| ==> outcomes[k] == Processed(tasks[|tasks| - 1 - k], envs[|tasks| - 1 - k])
      invariant count + errorCount == |outcomes|
      invariant errorCount == Failures(outcomes)
    {
      var task := queue[|queue| - 1];
      queue := queue[..|queue| - 1];
      outcomes, count, errorCount := Drain(task, envs[|queue|], outcomes, count, errorCount);
    }
  }

  /** One turn of a worker's loop: process the popped task, record its
      outcome and count it as processed or failed. */
  method Drain(task: ThreadTask, env: Env, outcomes: seq<Outcome>, count: nat, errorCount: nat)
    returns (outcomes': seq<Outcome>, count': nat, errorCount': nat)
    requires Admissible(task)
    requires count + errorCount == |outcomes| && errorCount == Failures(outcomes)
    ensures outcomes' == outcomes + [Processed(task, env)]
    ensures count' + errorCount' == |outcomes'| && errorCount' == Failures(outcomes')
  {
    var r, written, deleted := Process(task, env);
    outcomes' := outcomes + [Outcome(r, written, deleted)];
    assert outcomes'[..|outcomes'| - 1] == outcomes;
    if r.Ok? {
      count', errorCount' := count + 1, errorCount;
    } else {
      count', errorCount' := count, errorCount + 1;
    }
  }

  datatype MainError = ParseError(argError: ArgParse.ArgError) | TaskError(taskError: RusimgError)

  /** The final count: images detected, processed and failed. */
  datatype Summary = Summary(total: nat, processed: nat, failed: nat)

  /** What `main` ends with once the arguments are checked: the error of
      task building, if any; otherwise every task is admissible and
      processed once, last first, and the summary counts the files, the
      failures among the outcomes and the rest. */
  predicate MainOutcome(args: ArgParse.ArgStruct, files: seq<Path>, fs: FsView, stdin: seq<string>, envs: seq<Env>,
                        r: Result<Summary, MainError>, outcomes: seq<Outcome>)
    requires |envs| == |files|
    requires forall k :: 0 <= k < |files| ==> Nameable(args, files[k])
  {
    var built := BuiltTasks(args, OverwriteMode(args.yes, args.no), files, fs, stdin);
      && (built.Err? ==> r == Err(TaskError(built.error)))
      && (built.Ok? ==>
            && r.Ok? && Drained(built.value.tasks, envs, outcomes)
            && r.value == Summary(|files|, |files| - Failures(outcomes), Failures(outcomes)))
  }

  /** `main` once the arguments are checked: turn the found files into
      tasks, then process every task. */
  method RunTasks(args: ArgParse.ArgStruct, files: seq<Path>, fs: FsView, stdin: seq<string>, envs: seq<Env>)
    returns (r: Result<Summary, MainError>, outcomes: seq<Outcome>)
    requires |envs| == |files|
    requires forall k :: 0 <= k < |files| ==> Nameable(args, files[k])
    requires (args.trim.Some? ==> RectInU32(args.trim.value)) && (args.resize.Some? ==> args.resize.value > 0.0)
    ensures MainOutcome(args, files, fs, stdin, envs, r, outcomes)
  {
    outcomes := [];
    var mode := OverwriteMode(args.yes, args.no);
    var tasks := BuildTasks(args, mode, files, fs, stdin);
    if tasks.Err? {
      return Err(TaskError(tasks.error)), outcomes;
    }
    BuiltTasksShape(args, mode, files, fs, stdin);
    ShapedAdmissible(args, mode, fs, files, tasks.value);
    var count, errorCount;
    count, errorCount, outcomes := DrainTasks(tasks.value, envs);
    r := Ok(Summary(|files|, count, errorCount));
  }

  /** `main`: check the arguments, turn the found files into tasks
      (asking on `stdin` when an output file exists), then process every
      task. Only bad arguments and a bad `--convert` end the program with
      an error; a file that fails is counted and the rest go on. */
  method RunMain(raw: ArgParse.Args, files: seq<Path>, fs: FsView, stdin: seq<string>, envs: seq<Env>)
    returns (r: Result<Summary, MainError>, outcomes: seq<Outcome>)
    requires |envs| == |files|
    requires forall k :: 0 <= k < |files| ==> files[k].name.Some? && (raw.doubleExtension ==> Extension(files[k]).Some?)
    requires raw.trim.Some? && ArgParse.CheckTrimFormat(raw.trim.value).Ok? ==>
               RectInU32(ArgParse.CheckTrimFormat(raw.trim.value).value)
    ensures ArgParse.CheckAndGenerate(raw).Err? ==> r == Err(ParseError(ArgParse.CheckAndGenerate(raw).error))
    ensures ArgParse.CheckAndGenerate(raw).Ok? ==>
      MainOutcome(ArgParse.CheckAndGenerate(raw).value, files, fs, stdin, envs, r, outcomes)
  {
    outcomes := [];
    var parsed := ArgParse.CheckAndGenerate(raw);
    if parsed.Err? {
      return Err(ParseError(parsed.error)), outcomes;
    }
    ArgParse.CheckAndGenerateOrder(raw);
    r, outcomes := RunTasks(parsed.value, files, fs, stdin, envs);
  }
}
