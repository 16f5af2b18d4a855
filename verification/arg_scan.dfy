/** The scan of the forwarded arguments for the first `--target` value
    (the loop at the top of `main_wrapper`). */
module ArgScan {
  import opened Base
  import opened Text
  import opened Os

  const TargetFlag: string := "--target"
  const TargetEq: string := "--target="

  /** What the scan found: a target, no target, or `Err(InvalidUtf8Arg)`. */
  type ScanResult = Result<Option<string>>

  /** One turn of the loop: either carry on with a new `next_is_target`
      flag, or stop with the scan's result. */
  datatype Step = Continue(nextIsTarget: bool) | Stop(outcome: ScanResult)

  function StepArg(nextIsTarget: bool, arg: OsStr): Step {
    match arg
    case NonUtf8(lossy) =>
      if nextIsTarget || StartsWith(lossy, TargetEq) then Stop(Err(InvalidUtf8Arg))
      else Continue(nextIsTarget)
    case Utf8(s) =>
      if nextIsTarget then Stop(Ok(Some(s)))
      else if s == TargetFlag then Continue(true)
      else if StartsWith(s, TargetEq) then Stop(Ok(Some(s[|TargetEq|..])))
      else Continue(false)
  }

  /** The loop, run over `args` from the given flag value. */
  function ScanFrom(args: seq<OsStr>, nextIsTarget: bool): ScanResult
    decreases |args|
  {
    if |args| == 0 then Ok(None)
    else match StepArg(nextIsTarget, args[0])
      case Stop(o) => o
      case Continue(n) => ScanFrom(args[1..], n)
  }

  /** The target named by the forwarded arguments. */
  function FindTarget(args: seq<OsStr>): ScanResult {
    ScanFrom(args, false)
  }

  /** An argument that, seen while no flag is pending, neither names a
      target nor asks for one: it is skipped. */
  predicate Inert(a: OsStr) {
    match a
    case NonUtf8(lossy) => !StartsWith(lossy, TargetEq)
    case Utf8(s) => s != TargetFlag && !StartsWith(s, TargetEq)
  }

  predicate AllInert(args: seq<OsStr>) {
    forall j :: 0 <= j < |args| ==> Inert(args[j])
  }

  /** The position of the first argument that is not inert, or `|args|`. */
  function FirstDecisive(args: seq<OsStr>): (r: nat)
    ensures r <= |args|
    ensures forall j :: 0 <= j < r ==> Inert(args[j])
    ensures r < |args| ==> !Inert(args[r])
  {
    if |args| == 0 || !Inert(args[0]) then 0 else 1 + FirstDecisive(args[1..])
  }

  /** A reference statement of the scan, independent of the loop: only the
      first non-inert argument (and, for a bare `--target`, the one after it)
      decides the outcome. */
  function TargetSpec(args: seq<OsStr>): ScanResult {
    var i := FirstDecisive(args);
    if i == |args| then Ok(None)
    else match args[i]
      case NonUtf8(_) => Err(InvalidUtf8Arg)
      case Utf8(s) =>
        if s == TargetFlag then
          if i + 1 == |args| then Ok(None)
          else match args[i + 1]
            case Utf8(v) => Ok(Some(v))
            case NonUtf8(_) => Err(InvalidUtf8Arg)
        else Ok(Some(s[|TargetEq|..]))
  }

  lemma InertContinues(a: OsStr)
    ensures Inert(a) <==> StepArg(false, a) == Continue(false)
  {
  }

  /** A bare `--target` only raises the flag. */
  lemma BareTargetStep(rest: seq<OsStr>)
    ensures FindTarget([Utf8(TargetFlag)] + rest) == ScanFrom(rest, true)
  {
    assert StepArg(false, Utf8(TargetFlag)) == Continue(true);
    assert ([Utf8(TargetFlag)] + rest)[1..] == rest;
  }

  /** The loop computes the reference statement. */
  lemma {:induction false} FindTargetMatchesSpec(args: seq<OsStr>)
    ensures FindTarget(args) == TargetSpec(args)
    decreases |args|
  {
    if |args| > 0 {
      if Inert(args[0]) {
        InertContinues(args[0]);
        FindTargetMatchesSpec(args[1..]);
        var i := FirstDecisive(args[1..]);
        assert FirstDecisive(args) == i + 1;
        if i < |args[1..]| {
          assert args[i + 1] == args[1..][i];
          if i + 1 < |args[1..]| {
            assert args[i + 2] == args[1..][i + 1];
          }
        }
      } else {
        assert FirstDecisive(args) == 0;
        if args[0] == Utf8(TargetFlag) {
          BareTargetStep(args[1..]);
          assert args == [Utf8(TargetFlag)] + args[1..];
          if |args| > 1 {
            assert args[1..][0] == args[1];
          }
        }
      }
    }
  }

  /** The loop of `main_wrapper` as written, with its `next_is_target` flag
      and early exits. */
  method ScanArgs(args: seq<OsStr>) returns (r: ScanResult)
    ensures r == TargetSpec(args)
  {
    FindTargetMatchesSpec(args);
    var nextIsTarget := false;
    var i := 0;
    while i < |args|
      invariant 0 <= i <= |args|
      invariant ScanFrom(args[i..], nextIsTarget) == FindTarget(args)
    {
      var arg := args[i];
      assert args[i..][0] == arg && args[i..][1..] == args[i + 1..];
      match arg {
        case NonUtf8(lossy) =>
          if nextIsTarget || StartsWith(lossy, TargetEq) {
            return Err(InvalidUtf8Arg);
          }
        case Utf8(s) =>
          if nextIsTarget {
            return Ok(Some(s));
          } else if s == TargetFlag {
            nextIsTarget := true;
          } else if StartsWith(s, TargetEq) {
            return Ok(Some(s[|TargetEq|..]));
          }
      }
      i := i + 1;
    }
    return Ok(None);
  }

  /** Inert arguments in front of the decisive one change nothing. */
  lemma {:induction false} InertPrefixSkipped(prefix: seq<OsStr>, rest: seq<OsStr>)
    requires AllInert(prefix)
    ensures FindTarget(prefix + rest) == FindTarget(rest)
    decreases |prefix|
  {
    if |prefix| > 0 {
      var s := prefix + rest;
      assert s[0] == prefix[0];
      assert s[1..] == prefix[1..] + rest;
      InertContinues(prefix[0]);
      assert StepArg(false, s[0]) == Continue(false);
      assert ScanFrom(s, false) == ScanFrom(s[1..], false);
      InertPrefixSkipped(prefix[1..], rest);
    } else {
      assert prefix + rest == rest;
    }
  }

  /** `--target=X` yields X, and whatever follows, later `--target` flags
      included, is ignored. */
  lemma FirstTargetEqWins(prefix: seq<OsStr>, v: string, rest: seq<OsStr>)
    requires AllInert(prefix)
    ensures FindTarget(prefix + [Utf8(TargetEq + v)] + rest) == Ok(Some(v))
  {
    assert prefix + [Utf8(TargetEq + v)] + rest == prefix + ([Utf8(TargetEq + v)] + rest);
    InertPrefixSkipped(prefix, [Utf8(TargetEq + v)] + rest);
    assert |TargetEq + v| != |TargetFlag|;
    assert (TargetEq + v)[..|TargetEq|] == TargetEq;
    assert (TargetEq + v)[|TargetEq|..] == v;
  }

  /** A bare `--target` takes the next argument as its value, even when that
      argument looks like a flag itself. */
  lemma BareTargetTakesNext(prefix: seq<OsStr>, y: string, rest: seq<OsStr>)
    requires AllInert(prefix)
    ensures FindTarget(prefix + [Utf8(TargetFlag), Utf8(y)] + rest) == Ok(Some(y))
  {
    var tail := [Utf8(TargetFlag), Utf8(y)] + rest;
    assert prefix + [Utf8(TargetFlag), Utf8(y)] + rest == prefix + tail;
    InertPrefixSkipped(prefix, tail);
    BareTargetStep([Utf8(y)] + rest);
    assert tail == [Utf8(TargetFlag)] + ([Utf8(y)] + rest);
  }

  /** A bare `--target` with nothing after it names no target. */
  lemma TrailingBareTarget(prefix: seq<OsStr>)
    requires AllInert(prefix)
    ensures FindTarget(prefix + [Utf8(TargetFlag)]) == Ok(None)
  {
    InertPrefixSkipped(prefix, [Utf8(TargetFlag)]);
    BareTargetStep([]);
    assert [Utf8(TargetFlag)] + [] == [Utf8(TargetFlag)];
  }

  /** A non-UTF-8 argument is an error when it is the value of a bare
      `--target`, or when its lossy form starts with `--target=`. */
  lemma NonUtf8TargetValueRejected(prefix: seq<OsStr>, l: string, rest: seq<OsStr>)
    requires AllInert(prefix)
    ensures FindTarget(prefix + [Utf8(TargetFlag), NonUtf8(l)] + rest) == Err(InvalidUtf8Arg)
    ensures StartsWith(l, TargetEq) ==> FindTarget(prefix + [NonUtf8(l)] + rest) == Err(InvalidUtf8Arg)
  {
    var tail := [Utf8(TargetFlag), NonUtf8(l)] + rest;
    assert prefix + [Utf8(TargetFlag), NonUtf8(l)] + rest == prefix + tail;
    InertPrefixSkipped(prefix, tail);
    BareTargetStep([NonUtf8(l)] + rest);
    assert tail == [Utf8(TargetFlag)] + ([NonUtf8(l)] + rest);
    assert prefix + [NonUtf8(l)] + rest == prefix + ([NonUtf8(l)] + rest);
    InertPrefixSkipped(prefix, [NonUtf8(l)] + rest);
  }

  /** Outside a bare `--target`, any other non-UTF-8 argument is skipped. */
  lemma NonUtf8Skipped(l: string, rest: seq<OsStr>)
    requires !StartsWith(l, TargetEq)
    ensures ScanFrom([NonUtf8(l)] + rest, false) == ScanFrom(rest, false)
  {
    assert ([NonUtf8(l)] + rest)[1..] == rest;
  }

  /** The scan finds no target exactly when every argument is inert, or all
      are but a final bare `--target`. */
  lemma NoTargetIff(args: seq<OsStr>)
    ensures FindTarget(args) == Ok(None) <==>
      AllInert(args) || (|args| > 0 && args[|args| - 1] == Utf8(TargetFlag) && AllInert(args[..|args| - 1]))
  {
    FindTargetMatchesSpec(args);
    var i := FirstDecisive(args);
    var n := |args|;
    if n > 0 && args[n - 1] == Utf8(TargetFlag) && AllInert(args[..n - 1]) {
      forall j | 0 <= j < n - 1
        ensures Inert(args[j])
      {
        assert args[j] == args[..n - 1][j];
      }
      assert i == n - 1;
    }
    if AllInert(args) {
      assert i == n;
    }
  }
}
