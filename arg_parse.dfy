/** Validation of the command line after parsing (`background/parse.rs`): the
    `XxY+WxH` trim syntax, the quality, resize and thread ranges, and
    `check_and_generate`, which turns the raw arguments into an `ArgStruct`
    or the first `ArgError`. */
module ArgParse {
  import opened Wrappers
  import opened Paths
  import opened Images

  /** The thread count when `--threads` is not given. */
  const DEFAULT_THREADS: nat := 4

  datatype ArgError =
    | InvalidTrimFormat
    | FailedToParseTrim(msg: string)
    | InvalidQuality
    | InvalidResize
    | InvalidThreads

  /** The arguments as the command line parser delivers them. */
  datatype Args = Args(
    input: Option<seq<Path>>,
    recursive: bool,
    output: Option<Path>,
    append: Option<string>,
    convert: Option<string>,
    resize: Option<real>,
    trim: Option<string>,
    grayscale: bool,
    quality: Option<real>,
    doubleExtension: bool,
    view: bool,
    yes: bool,
    no: bool,
    delete: bool,
    threads: nat)

  /** The validated arguments. */
  datatype ArgStruct = ArgStruct(
    sourcePath: Option<seq<Path>>,
    destinationPath: Option<Path>,
    destinationExtension: Option<string>,
    destinationAppendName: Option<string>,
    recursive: bool,
    quality: Option<real>,
    delete: bool,
    resize: Option<real>,
    trim: Option<Rect>,
    grayscale: bool,
    view: bool,
    yes: bool,
    no: bool,
    doubleExtension: bool,
    threads: nat)

  predicate IsDigit(c: char) {
    '0' <= c <= '9'
  }

  /** The length of the run of ASCII digits that starts at `i`. */
  function DigitRun(s: string, i: nat): (n: nat)
    requires i <= |s|
    ensures i + n <= |s|
    ensures forall k :: i <= k < i + n ==> IsDigit(s[k])
    ensures i + n == |s| || !IsDigit(s[i + n])
    decreases |s| - i
  {
    if i < |s| && IsDigit(s[i]) then 1 + DigitRun(s, i + 1) else 0
  }

  /** The decimal value of a digit string (`str::parse` of the digits, on
      unbounded integers). */
  function Num(ds: string): nat {
    if ds == [] then 0
    else 10 * Num(ds[..|ds| - 1]) + (if IsDigit(ds[|ds| - 1]) then ds[|ds| - 1] as int - '0' as int else 0)
  }

  /** Runs of digits at `i`, each but the last followed by the next
      character of `seps`; their values if all are there. */
  function Groups(s: string, i: nat, seps: string): (r: Option<seq<nat>>)
    requires i <= |s|
    ensures r.Some? ==> |r.value| == |seps| + 1 && i + 2 * |seps| + 1 <= |s|
    decreases |seps|
  {
    var n := DigitRun(s, i);
    if n == 0 then None
    else if seps == [] then Some([Num(s[i..i + n])])
    else if i + n >= |s| || s[i + n] != seps[0] then None
    else
      match Groups(s, i + n + 1, seps[1..])
      case None => None
      case Some(vs) => Some([Num(s[i..i + n])] + vs)
  }

  /** The match of `(\d+)x(\d+)\+(\d+)x(\d+)` that starts at `i`, if any.
      No digit can match `x` or `+`, so each of the first three greedy groups
      must end where its run of digits ends, and the last takes its whole
      run: a match at `i` is unique. */
  function MatchAt(s: string, i: nat): Option<Rect>
    requires i <= |s|
  {
    match Groups(s, i, "x+x")
    case None => None
    case Some(vs) => Some(Rect(vs[0], vs[1], vs[2], vs[3]))
  }

  /** The leftmost match at or after `i`: the regex is not anchored. */
  function FirstMatch(s: string, i: nat): Option<Rect>
    requires i <= |s|
    decreases |s| - i
  {
    if MatchAt(s, i).Some? then MatchAt(s, i)
    else if i == |s| then None
    else FirstMatch(s, i + 1)
  }

  /** `check_trim_format`: the four numbers of the first match. */
  function CheckTrimFormat(trim: string): Result<Rect, string> {
    match FirstMatch(trim, 0)
    case Some(r) => Ok(r)
    case None => Err("Invalid trim format")
  }

  /** The first match at or after `i` exists exactly when some position at
      or after `i` starts a match, and it is the match at the least such
      position. */
  lemma {:induction false} FirstMatchIsLeftmost(s: string, i: nat)
    requires i <= |s|
    ensures FirstMatch(s, i).Some? <==> exists k :: i <= k <= |s| && MatchAt(s, k).Some?
    ensures FirstMatch(s, i).Some? ==>
      exists k :: i <= k <= |s| && FirstMatch(s, i) == MatchAt(s, k)
                  && forall j :: i <= j < k ==> MatchAt(s, j).None?
    decreases |s| - i
  {
    if MatchAt(s, i).Some? {
    } else if i == |s| {
    } else {
      FirstMatchIsLeftmost(s, i + 1);
      if FirstMatch(s, i + 1).Some? {
        var k :| i + 1 <= k <= |s| && FirstMatch(s, i + 1) == MatchAt(s, k)
                 && forall j :: i + 1 <= j < k ==> MatchAt(s, j).None?;
        assert forall j :: i <= j < k ==> MatchAt(s, j).None?;
      }
    }
  }

  /** A trim argument is accepted exactly when some position of it starts
      `NxN+NxN`, and then the leftmost such occurrence is used. */
  lemma CheckTrimAccepts(trim: string)
    ensures CheckTrimFormat(trim).Ok? <==> exists k :: 0 <= k <= |trim| && MatchAt(trim, k).Some?
    ensures CheckTrimFormat(trim).Ok? ==>
      exists k :: 0 <= k <= |trim| && MatchAt(trim, k) == Some(CheckTrimFormat(trim).value)
                  && forall j :: 0 <= j < k ==> MatchAt(trim, j).None?
  {
    FirstMatchIsLeftmost(trim, 0);
  }

  /** The decimal digits of `n`, without leading zeros. */
  function Decimal(n: nat): (ds: string)
    ensures ds != [] && AllDigits(ds)
    ensures Num(ds) == n
  {
    var d := [(('0' as int) + n % 10) as char];
    if n < 10 then
      assert Num(d) == Num(d[..0]) * 10 + n % 10;
      d
    else
      var ds := Decimal(n / 10) + d;
      assert ds[..|ds| - 1] == Decimal(n / 10);
      ds
  }

  /** Digit strings joined by the separators, in turn. */
  function Interleave(dss: seq<string>, seps: string): string
    requires |dss| == |seps| + 1
    decreases |seps|
  {
    if seps == [] then dss[0] else dss[0] + [seps[0]] + Interleave(dss[1..], seps[1..])
  }

  /** `XxY+WxH` for a rectangle. */
  function RenderTrim(r: Rect): string {
    Interleave([Decimal(r.x), Decimal(r.y), Decimal(r.w), Decimal(r.h)], "x+x")
  }

  /** `m` occurs in `s` at `i`. */
  predicate At(s: string, i: nat, m: string) {
    i + |m| <= |s| && forall k :: 0 <= k < |m| ==> s[i + k] == m[k]
  }

  lemma AtSplit(s: string, i: nat, a: string, b: string)
    requires At(s, i, a + b)
    ensures At(s, i, a) && At(s, i + |a|, b)
  {
    assert forall k :: 0 <= k < |a| ==> (a + b)[k] == a[k];
    assert forall k :: 0 <= k < |b| ==> (a + b)[|a| + k] == b[k];
  }

  /** A digit string sitting at `i` and not followed by a digit is the run
      of digits at `i`. */
  lemma {:induction false} DigitRunOf(s: string, i: nat, ds: string)
    requires At(s, i, ds) && AllDigits(ds)
    requires i + |ds| == |s| || !IsDigit(s[i + |ds|])
    ensures DigitRun(s, i) == |ds| && s[i..i + |ds|] == ds
    decreases |ds|
  {
    if ds != [] {
      assert s[i + 0] == ds[0];
      assert forall k :: 0 <= k < |ds[1..]| ==> ds[1..][k] == ds[k + 1];
      DigitRunOf(s, i + 1, ds[1..]);
    }
  }

  predicate AllDigits(ds: string) {
    forall k :: 0 <= k < |ds| ==> IsDigit(ds[k])
  }

  /** The values of digit strings. */
  function Nums(dss: seq<string>): (vs: seq<nat>)
    ensures |vs| == |dss|
  {
    if dss == [] then [] else [Num(dss[0])] + Nums(dss[1..])
  }

  /** Every digit string is non-empty and made of digits only. */
  predicate DigitGroups(dss: seq<string>)
    decreases |dss|
  {
    dss == [] || (dss[0] != [] && AllDigits(dss[0]) && DigitGroups(dss[1..]))
  }

  /** No character of `t` is a digit. */
  predicate NoDigitChars(t: string)
    decreases |t|
  {
    t == [] || (!IsDigit(t[0]) && NoDigitChars(t[1..]))
  }

  /** A non-empty digit string at `i`, then a separator that is not a digit:
      the run of digits at `i` is that string, the separator follows it and
      what comes next sits after the separator. */
  lemma GroupStep(s: string, i: nat, m: string, d: string, sep: char, rest: string)
    requires d != [] && AllDigits(d) && !IsDigit(sep)
    requires m == d + [sep] + rest && At(s, i, m)
    ensures DigitRun(s, i) == |d| && s[i..i + |d|] == d
    ensures i + |d| < |s| && s[i + |d|] == sep && At(s, i + |d| + 1, rest)
  {
    AtSplit(s, i, d + [sep], rest);
    AtSplit(s, i, d, [sep]);
    assert [sep][0] == sep;
    assert s[i + |d| + 0] == sep;
    DigitRunOf(s, i, d);
  }

  /** Non-empty digit strings joined by separators that are not digits, at
      `i` and not followed by a digit, are read back group by group. */
  lemma {:induction false} GroupsOf(s: string, i: nat, dss: seq<string>, seps: string)
    requires |dss| == |seps| + 1 && DigitGroups(dss) && NoDigitChars(seps)
    requires At(s, i, Interleave(dss, seps))
    requires i + |Interleave(dss, seps)| == |s| || !IsDigit(s[i + |Interleave(dss, seps)|])
    ensures Groups(s, i, seps) == Some(Nums(dss))
    decreases |seps|
  {
    var d, m := dss[0], Interleave(dss, seps);
    if seps == [] {
      assert dss[1..] == [] && Nums(dss) == [Num(d)];
      GroupsLast(s, i, m, d);
    } else {
      var rest := Interleave(dss[1..], seps[1..]);
      assert Nums(dss) == [Num(d)] + Nums(dss[1..]);
      GroupStep(s, i, m, d, seps[0], rest);
      GroupsOf(s, i + |d| + 1, dss[1..], seps[1..]);
      GroupsCons(s, i, seps, |d|, Nums(dss[1..]));
    }
  }

  /** The last group: a non-empty digit string at `i`, not followed by a
      digit, is read back as its value. */
  lemma GroupsLast(s: string, i: nat, m: string, d: string)
    requires d != [] && AllDigits(d) && m == d && At(s, i, m)
    requires i + |m| == |s| || !IsDigit(s[i + |m|])
    ensures Groups(s, i, []) == Some([Num(d)])
  {
    DigitRunOf(s, i, d);
  }

  /** A run of `n` digits at `i` followed by the first separator, then
      groups after it: the groups at `i` start with the run's value. */
  lemma GroupsCons(s: string, i: nat, seps: string, n: nat, vs: seq<nat>)
    requires seps != [] && 0 < n && i + n < |s| && DigitRun(s, i) == n && s[i + n] == seps[0]
    requires Groups(s, i + n + 1, seps[1..]) == Some(vs)
    ensures Groups(s, i, seps) == Some([Num(s[i..i + n])] + vs)
  {
  }

  /** `RenderTrim(r)` at `i`, not followed by a digit, is a match of `r`. */
  lemma MatchOfRendered(s: string, i: nat, r: Rect)
    requires At(s, i, RenderTrim(r))
    requires i + |RenderTrim(r)| == |s| || !IsDigit(s[i + |RenderTrim(r)|])
    ensures MatchAt(s, i) == Some(r)
  {
    var dss := [Decimal(r.x), Decimal(r.y), Decimal(r.w), Decimal(r.h)];
    assert DigitGroups(dss[3..]) by { assert dss[3..][1..] == []; }
    assert DigitGroups(dss[2..]) by { assert dss[2..][1..] == dss[3..]; }
    assert DigitGroups(dss[1..]) by { assert dss[1..][1..] == dss[2..]; }
    assert NoDigitChars("x+x") by { assert "x+x"[1..] == "+x" && "+x"[1..] == "x" && "x"[1..] == []; }
    GroupsOf(s, i, dss, "x+x");
    assert Nums(dss[3..]) == [r.h];
    assert Nums(dss[2..]) == [r.w] + Nums(dss[2..][1..]) == [r.w, r.h] by { assert dss[2..][1..] == dss[3..]; }
    assert Nums(dss[1..]) == [r.y] + Nums(dss[1..][1..]) == [r.y, r.w, r.h] by { assert dss[1..][1..] == dss[2..]; }
    assert Nums(dss) == [r.x, r.y, r.w, r.h];
  }

  /** No digit at the positions from `j` up to `i`. */
  predicate NoDigits(s: string, j: nat, i: nat)
    requires j <= i <= |s|
    decreases i - j
  {
    j == i || (!IsDigit(s[j]) && NoDigits(s, j + 1, i))
  }

  lemma {:induction false} NoDigitsOf(s: string, j: nat, i: nat)
    requires j <= i <= |s|
    requires forall k :: j <= k < i ==> !IsDigit(s[k])
    ensures NoDigits(s, j, i)
    decreases i - j
  {
    if j < i {
      NoDigitsOf(s, j + 1, i);
    }
  }

  /** Positions that hold no digit start no match, so the search for the
      first match passes over them. */
  lemma {:induction false} FirstMatchSkipsText(s: string, j: nat, i: nat)
    requires j <= i <= |s| && NoDigits(s, j, i)
    ensures FirstMatch(s, j) == FirstMatch(s, i)
    decreases i - j
  {
    if j < i {
      FirstMatchSkips(s, j);
      FirstMatchSkipsText(s, j + 1, i);
    }
  }

  /** A position that holds no digit is skipped. */
  lemma FirstMatchSkips(s: string, j: nat)
    requires j < |s| && !IsDigit(s[j])
    ensures FirstMatch(s, j) == FirstMatch(s, j + 1)
  {
    assert DigitRun(s, j) == 0;
    assert MatchAt(s, j).None?;
  }

  /** A rectangle written as `XxY+WxH`, after text with no digits and before
      text that does not start with a digit, is read back as that
      rectangle: `check_trim_format` inverts `RenderTrim` and ignores what
      surrounds the occurrence. */
  lemma TrimFoundInside(pre: string, r: Rect, post: string)
    requires forall k :: 0 <= k < |pre| ==> !IsDigit(pre[k])
    requires post == [] || !IsDigit(post[0])
    ensures CheckTrimFormat(pre + RenderTrim(r) + post) == Ok(r)
  {
    var m := RenderTrim(r);
    var s := pre + m + post;
    var i := |pre|;
    assert At(s, 0, s);
    AtSplit(s, 0, pre + m, post);
    AtSplit(s, 0, pre, m);
    assert i + |m| == |s| || s[i + |m|] == post[0];
    MatchOfRendered(s, i, r);
    forall j | 0 <= j < i
      ensures !IsDigit(s[j])
    {
      assert s[j] == pre[j];
    }
    NoDigitsOf(s, 0, i);
    FirstMatchSkipsText(s, 0, i);
    assert FirstMatch(s, i) == MatchAt(s, i);
  }

  /** The accepted trim argument of the tool's own tests. */
  lemma TrimAcceptedExample()
    ensures CheckTrimFormat("10x10+20x20") == Ok(Rect(10, 10, 20, 20))
  {
    var ten, twenty := Decimal(10), Decimal(20);
    assert Decimal(1) == "1" && Decimal(2) == "2";
    assert ten == "10" && twenty == "20";
    assert RenderTrim(Rect(10, 10, 20, 20)) == "10x10+20x20";
    TrimFoundInside("", Rect(10, 10, 20, 20), "");
    assert "" + "10x10+20x20" + "" == "10x10+20x20";
  }

  /** The rejected trim arguments of the tool's own tests. */
  lemma TrimRejectedExamples()
    ensures CheckTrimFormat("10").Err?
    ensures CheckTrimFormat("10x10").Err?
    ensures CheckTrimFormat("10+10+20+20").Err?
  {
    NoMatchInShort("10");
    NoMatchInShort("10x10");
    NoMatchWithoutX("10+10+20+20");
  }

  /** A match needs the three separators, so at least seven characters. */
  lemma NoMatchInShort(s: string)
    requires |s| < 7
    ensures CheckTrimFormat(s).Err?
  {
    forall k | 0 <= k <= |s|
      ensures MatchAt(s, k).None?
    {
    }
    CheckTrimAccepts(s);
  }

  /** A match needs an `x`. */
  lemma NoMatchWithoutX(s: string)
    requires forall k :: 0 <= k < |s| ==> s[k] != 'x'
    ensures CheckTrimFormat(s).Err?
  {
    forall k | 0 <= k <= |s|
      ensures MatchAt(s, k).None?
    {
      var n := DigitRun(s, k);
      if k + n < |s| {
        assert s[k + n] != 'x';
      }
    }
    CheckTrimAccepts(s);
  }

  /** `check_quality_range`. */
  predicate CheckQualityRange(quality: Option<real>) {
    match quality
    case None => true
    case Some(q) => !(q < 0.0 || q > 100.0)
  }

  /** `check_resize_range`. */
  predicate CheckResizeRange(resize: Option<real>) {
    match resize
    case None => true
    case Some(r) => !(r <= 0.0)
  }

  /** `check_threads_range`. */
  predicate CheckThreadsRange(threads: nat) {
    !(threads < 1)
  }

  /** The range checks of the tool's own tests. */
  lemma RangeExamples()
    ensures !CheckResizeRange(Some(-1.0)) && !CheckResizeRange(Some(0.0))
    ensures !CheckQualityRange(Some(110.0)) && !CheckQualityRange(Some(-1.0)) && CheckQualityRange(Some(50.0))
    ensures !CheckThreadsRange(0) && CheckThreadsRange(DEFAULT_THREADS)
  {
  }

  /** `check_and_generate`: trim, then quality, then resize, then threads;
      the first failing check decides the error. */
  function CheckAndGenerate(args: Args): Result<ArgStruct, ArgError> {
    var trim: Option<Rect> :=
      if args.trim.Some? then
        match CheckTrimFormat(args.trim.value)
        case Err(_) => None
        case Ok(t) => Some(t)
      else None;
    if args.trim.Some? && trim.None? then Err(InvalidTrimFormat)
    else if args.quality.Some? && !CheckQualityRange(args.quality) then Err(InvalidQuality)
    else if args.resize.Some? && !CheckResizeRange(args.resize) then Err(InvalidResize)
    else if !CheckThreadsRange(args.threads) then Err(InvalidThreads)
    else Ok(ArgStruct(args.input, args.output, args.convert, args.append, args.recursive, args.quality,
                      args.delete, args.resize, trim, args.grayscale, args.view, args.yes, args.no,
                      args.doubleExtension, args.threads))
  }

  /** Accepted arguments are passed on unchanged, the trim argument as the
      rectangle it spells. */
  lemma CheckAndGeneratePassesOn(args: Args)
    requires CheckAndGenerate(args).Ok?
    ensures var v := CheckAndGenerate(args).value;
      && v.sourcePath == args.input && v.destinationPath == args.output
      && v.destinationExtension == args.convert && v.destinationAppendName == args.append
      && v.recursive == args.recursive && v.quality == args.quality
      && v.delete == args.delete && v.resize == args.resize
      && v.grayscale == args.grayscale && v.view == args.view
      && v.yes == args.yes && v.no == args.no
      && v.doubleExtension == args.doubleExtension && v.threads == args.threads
      && (args.trim.None? ==> v.trim.None?)
      && (args.trim.Some? ==> Ok(v.trim.value) == CheckTrimFormat(args.trim.value))
  {
  }

  /** The arguments are accepted exactly when every check passes; otherwise
      the error is that of the first failing check in the order trim,
      quality, resize, threads (`FailedToParseTrim` is never produced). On
      success quality lies in [0, 100], resize is positive and at least one
      thread is asked for. */
  lemma CheckAndGenerateOrder(args: Args)
    ensures var r := CheckAndGenerate(args);
      var trimBad := args.trim.Some? && CheckTrimFormat(args.trim.value).Err?;
      var qualityBad := args.quality.Some? && (args.quality.value < 0.0 || args.quality.value > 100.0);
      var resizeBad := args.resize.Some? && args.resize.value <= 0.0;
      var threadsBad := args.threads < 1;
      && (r.Ok? <==> !trimBad && !qualityBad && !resizeBad && !threadsBad)
      && (trimBad ==> r == Err(InvalidTrimFormat))
      && (!trimBad && qualityBad ==> r == Err(InvalidQuality))
      && (!trimBad && !qualityBad && resizeBad ==> r == Err(InvalidResize))
      && (!trimBad && !qualityBad && !resizeBad && threadsBad ==> r == Err(InvalidThreads))
      && (r.Err? ==> !r.error.FailedToParseTrim?)
    ensures CheckAndGenerate(args).Ok? ==>
      var v := CheckAndGenerate(args).value;
      && (v.quality.Some? ==> 0.0 <= v.quality.value <= 100.0)
      && (v.resize.Some? ==> v.resize.value > 0.0)
      && v.threads >= 1
  {
    if CheckAndGenerate(args).Ok? {
      CheckAndGeneratePassesOn(args);
    }
  }
}
