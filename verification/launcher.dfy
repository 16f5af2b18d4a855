/** `main_wrapper`, `get_exit_code` and `main`: find the target, add the
    Android variables when it names an Android target, run the build driver,
    and turn how it ended into the wrapper's exit code. */
module Launcher {
  import opened Base
  import opened Text
  import opened Os
  import opened ArgScan
  import opened AndroidEnv

  const CargoVar: string := "CARGO"
  const AndroidMarker: string := "android"

  /** Rust's `i32`. */
  type I32 = x: int | -0x8000_0000 <= x < 0x8000_0000

  /** A terminating signal number as Unix reports it (`WTERMSIG`, seven bits). */
  type SignalNumber = x: int | 0 <= x < 128

  /** `ExitStatus`, through its `code()` and `signal()` accessors. */
  datatype ExitStatus = ExitStatus(code: Option<I32>, signal: Option<SignalNumber>)

  /** What became of the child: it could not be spawned, waiting for it
      failed, or it ended with a status. */
  datatype ChildOutcome = SpawnError | WaitError | Finished(status: ExitStatus)

  /** The command `main_wrapper` runs: the driver named by `CARGO`, the
      forwarded arguments, and the variables added to the inherited
      environment. */
  datatype Launch = Launch(program: OsStr, args: seq<OsStr>, envs: map<string, OsStr>)

  /** `env::args_os().skip(2)`: everything after the wrapper's own path and
      the sub-command name. */
  function ForwardedArgs(argv: seq<OsStr>): (r: seq<OsStr>)
    ensures |argv| >= 2 ==> argv == argv[..2] + r
    ensures |argv| < 2 ==> r == []
  {
    if |argv| < 2 then [] else argv[2..]
  }

  /** Whether the target gets Android variables. */
  function IsAndroid(target: Option<string>): (r: bool)
    ensures r <==> target.Some? && exists i :: OccursAt(target.value, AndroidMarker, i)
  {
    if target.Some? then ContainsAt(target.value, AndroidMarker); Contains(target.value, AndroidMarker) else false
  }

  /** `main_wrapper` up to the spawn: scan, then `CARGO`, then, for an
      Android target, `get_android_env`. */
  function Prepare(host: Host, argv: seq<OsStr>, env: Env, fs: Fs): (r: Result<Launch>)
    ensures r.Ok? ==> r.value.args == ForwardedArgs(argv)
    ensures r.Ok? ==> CargoVar in env && r.value.program == env[CargoVar]
    ensures FindTarget(ForwardedArgs(argv)).Ok? && CargoVar !in env ==> r == Err(CargoNotSet)
  {
    var args := ForwardedArgs(argv);
    var target :- FindTarget(args);
    if CargoVar !in env then Err(CargoNotSet)
    else
      var envs :- if IsAndroid(target) then GetAndroidEnv(host, target.value, env, fs) else Ok(map[]);
      Ok(Launch(env[CargoVar], args, envs))
  }

  /** The child's environment: the parent's, with the added variables on top. */
  function ChildEnv(parent: Env, envs: map<string, OsStr>): (r: Env)
    ensures r.Keys == parent.Keys + envs.Keys
    ensures forall k :: k in envs ==> r[k] == envs[k]
    ensures forall k :: k in parent && k !in envs ==> r[k] == parent[k]
  {
    parent + envs
  }

  /** `main_wrapper`, with the spawn and wait reduced to their outcome. */
  function MainWrapper(host: Host, argv: seq<OsStr>, env: Env, fs: Fs, child: ChildOutcome): (r: Result<ExitStatus>)
    ensures Prepare(host, argv, env, fs).Err? ==> r == Err(Prepare(host, argv, env, fs).error)
    ensures r.Ok? <==> Prepare(host, argv, env, fs).Ok? && child.Finished?
    ensures r.Ok? ==> r.value == child.status
    ensures Prepare(host, argv, env, fs).Ok? && child.SpawnError? ==> r == Err(SpawnFailed)
    ensures Prepare(host, argv, env, fs).Ok? && child.WaitError? ==> r == Err(WaitFailed)
  {
    var launch :- Prepare(host, argv, env, fs);
    match child
    case SpawnError => Err(SpawnFailed)
    case WaitError => Err(WaitFailed)
    case Finished(status) => Ok(status)
  }

  /** `get_exit_code`: the child's own code, else `128 + N` for signal `N`
      where the host has signals, else 255. */
  function ExitCode(host: Host, status: ExitStatus): (r: I32)
    ensures status.code.Some? ==> r == status.code.value
    ensures status.code.None? && host.HasSignals() && status.signal.Some? ==> 128 <= r < 256 && r - 128 == status.signal.value
    ensures status.code.None? && (!host.HasSignals() || status.signal.None?) ==> r == 255
  {
    match status.code
    case Some(c) => c
    case None =>
      if host.HasSignals() && status.signal.Some? then 128 + status.signal.value else 255
  }

  /** `main`: the exit code of the wrapper process. */
  function Main(host: Host, argv: seq<OsStr>, env: Env, fs: Fs, child: ChildOutcome): (code: I32)
    ensures MainWrapper(host, argv, env, fs, child).Err? ==> code == 255
    ensures MainWrapper(host, argv, env, fs, child).Ok? ==> code == ExitCode(host, MainWrapper(host, argv, env, fs, child).value)
  {
    match MainWrapper(host, argv, env, fs, child)
    case Ok(status) => ExitCode(host, status)
    case Err(_) => 255
  }

  /** A scan error comes first: the wrapper fails on it before looking at
      `CARGO` or at anything Android. */
  lemma ScanErrorFirst(host: Host, argv: seq<OsStr>, env: Env, fs: Fs)
    requires FindTarget(ForwardedArgs(argv)).Err?
    ensures Prepare(host, argv, env, fs) == Err(InvalidUtf8Arg)
  {
    FindTargetMatchesSpec(ForwardedArgs(argv));
  }

  /** Without an Android target nothing is added: the launch needs only
      `CARGO`, the child's environment is the parent's, and neither the NDK
      variables nor the filesystem matter. */
  lemma NonAndroidAddsNothing(host: Host, argv: seq<OsStr>, env: Env, fs: Fs, fs': Fs)
    requires FindTarget(ForwardedArgs(argv)).Ok? && !IsAndroid(FindTarget(ForwardedArgs(argv)).value)
    ensures CargoVar in env ==> Prepare(host, argv, env, fs) == Ok(Launch(env[CargoVar], ForwardedArgs(argv), map[]))
    ensures CargoVar !in env ==> Prepare(host, argv, env, fs) == Err(CargoNotSet)
    ensures Prepare(host, argv, env, fs) == Prepare(host, argv, env, fs')
    ensures ChildEnv(env, map[]) == env
  {
  }

  /** Android variables are added exactly when the target contains
      `android`; then they are the whole of `get_android_env`'s map. */
  lemma AndroidGating(host: Host, argv: seq<OsStr>, env: Env, fs: Fs)
    requires Prepare(host, argv, env, fs).Ok?
    ensures var target := FindTarget(ForwardedArgs(argv));
      && target.Ok?
      && (Prepare(host, argv, env, fs).value.envs != map[] <==> IsAndroid(target.value))
      && (IsAndroid(target.value) ==>
            && GetAndroidEnv(host, target.value.value, env, fs).Ok?
            && Prepare(host, argv, env, fs).value.envs == GetAndroidEnv(host, target.value.value, env, fs).value)
  {
    var target := FindTarget(ForwardedArgs(argv));
    if IsAndroid(target.value) {
      var t := target.value.value;
      AndroidEnvKeys(host, t, env, fs);
      var m := GetAndroidEnv(host, t, env, fs).value;
      assert |m| >= 4;
      assert m != map[];
    }
  }

  /** A failed Android resolution stops the wrapper before anything is
      spawned: whatever the child would have done, the exit code is 255. */
  lemma AndroidFailureBlocksSpawn(host: Host, argv: seq<OsStr>, env: Env, fs: Fs, child: ChildOutcome)
    ensures var target := FindTarget(ForwardedArgs(argv));
      target.Ok? && IsAndroid(target.value) && CargoVar in env && GetAndroidEnv(host, target.value.value, env, fs).Err? ==>
        && Prepare(host, argv, env, fs) == Err(GetAndroidEnv(host, target.value.value, env, fs).error)
        && Main(host, argv, env, fs, child) == 255
  {
  }

  /** Every wrapper error, be it from the scan, `CARGO`, the Android
      resolution, the spawn or the wait, ends the process with 255; only a
      child that ran to completion passes its status on. */
  lemma MainExitCodes(host: Host, argv: seq<OsStr>, env: Env, fs: Fs, child: ChildOutcome)
    ensures Prepare(host, argv, env, fs).Err? ==> Main(host, argv, env, fs, child) == 255
    ensures child.SpawnError? || child.WaitError? ==> Main(host, argv, env, fs, child) == 255
    ensures Prepare(host, argv, env, fs).Ok? && child.Finished? ==> Main(host, argv, env, fs, child) == ExitCode(host, child.status)
  {
  }

  /** Signal terminations stay distinguishable: on a host with signals, two
      code-less signalled statuses give the same exit code exactly when they
      carry the same signal; on Windows they all give 255. */
  lemma SignalCodesDistinct(host: Host, s1: ExitStatus, s2: ExitStatus)
    requires s1.code.None? && s2.code.None? && s1.signal.Some? && s2.signal.Some?
    ensures host.HasSignals() ==> (ExitCode(host, s1) == ExitCode(host, s2) <==> s1.signal == s2.signal)
    ensures !host.HasSignals() ==> ExitCode(host, s1) == 255 && ExitCode(host, s2) == 255
  {
  }

  /** A child exiting with 42 gives 42; one killed by signal 9 gives 137 on
      Linux and 255 on Windows. */
  lemma ExitCodeExamples()
    ensures ExitCode(Linux, ExitStatus(Some(42), None)) == 42
    ensures ExitCode(Linux, ExitStatus(None, Some(9))) == 137
    ensures ExitCode(Windows, ExitStatus(None, Some(9))) == 255
  {
  }
}
