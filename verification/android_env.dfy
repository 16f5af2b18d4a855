/** `get_android_env`: the compiler, archiver, bindgen and linker variables
    for an Android target, resolved from an NDK installation. */
module AndroidEnv {
  import opened Base
  import opened Text
  import opened Os
  import opened ApiLevel
  import opened RustFlags

  const NdkRootVar: string := "ANDROID_NDK_ROOT"
  const ArmTriple: string := "armv7a-linux-androideabi"
  const Armv7Alias: string := "armv7-linux-androideabi"
  const ThumbAlias: string := "thumbv7neon-linux-androideabi"

  /** The one target that needs the clang runtime builtins linked explicitly. */
  const X86_64Android: string := "x86_64-linux-android"

  /** The prefix of the NDK's compiler driver for a Rust target: only the
      two 32-bit ARM aliases are renamed, both to the NDK's `armv7a` name. */
  function NdkTarget(t: string): (r: string)
    ensures r != t <==> t == Armv7Alias || t == ThumbAlias
    ensures r != t ==> r == ArmTriple
  {
    if t == Armv7Alias || t == ThumbAlias then ArmTriple else t
  }

  /** Renaming twice changes nothing. */
  lemma NdkTargetNormalises(t: string)
    ensures NdkTarget(NdkTarget(t)) == NdkTarget(t)
  {
  }

  /** The target as it appears inside `CARGO_TARGET_<..>_LINKER`: as long
      as the target, and without a `-`. */
  function UpperTarget(t: string): (r: string)
    ensures |r| == |t| && '-' !in r
  {
    ReplaceCharShape(ToAsciiUppercase(t), '-', '_');
    ReplaceChar(ToAsciiUppercase(t), '-', '_')
  }

  /** The upper form has the triple's length, no `-` and no lower-case ASCII
      letter, keeps every other character, and is a fixed point. */
  lemma UpperTargetShape(t: string)
    ensures |UpperTarget(t)| == |t|
    ensures '-' !in UpperTarget(t)
    ensures forall i :: 0 <= i < |t| ==> !IsAsciiLower(UpperTarget(t)[i])
    ensures forall i :: 0 <= i < |t| && IsAsciiLower(t[i]) ==> UpperTarget(t)[i] as int == t[i] as int - 32
    ensures forall i :: 0 <= i < |t| && t[i] == '-' ==> UpperTarget(t)[i] == '_'
    ensures forall i :: 0 <= i < |t| && t[i] != '-' && !IsAsciiLower(t[i]) ==> UpperTarget(t)[i] == t[i]
    ensures UpperTarget(UpperTarget(t)) == UpperTarget(t)
  {
    var u := UpperTarget(t);
    var up := ToAsciiUppercase(t);
    ToAsciiUppercaseShape(t);
    ReplaceCharShape(up, '-', '_');
    ToAsciiUppercaseShape(u);
    ReplaceCharShape(ToAsciiUppercase(u), '-', '_');
    forall i | 0 <= i < |t|
      ensures !IsAsciiLower(u[i])
    {
      assert up[i] != '-' ==> u[i] == up[i];
    }
    assert UpperTarget(u) == u;
  }

  function ArKey(t: string): string { "AR_" + t }
  function CcKey(t: string): string { "CC_" + t }
  function BindgenKey(t: string): string { "BINDGEN_EXTRA_CLANG_ARGS_" + t }
  function LinkerKey(t: string): string { "CARGO_TARGET_" + UpperTarget(t) + "_LINKER" }

  /** The names `get_android_env` sets for a target. */
  function ProducedKeys(t: string): set<string> {
    {ArKey(t), CcKey(t), BindgenKey(t), LinkerKey(t)} + (if t == X86_64Android then {EncodedVar} else {})
  }

  /** No two of the produced names coincide. */
  lemma KeysDistinct(t: string)
    ensures ArKey(t) != CcKey(t) && ArKey(t) != BindgenKey(t) && ArKey(t) != LinkerKey(t)
    ensures CcKey(t) != BindgenKey(t) && CcKey(t) != LinkerKey(t) && BindgenKey(t) != LinkerKey(t)
    ensures EncodedVar !in {ArKey(t), CcKey(t), BindgenKey(t), LinkerKey(t)}
  {
    var ar, cc, bg, lk := ArKey(t), CcKey(t), BindgenKey(t), LinkerKey(t);
    assert ar[0] == 'A' && ar[1] == 'R';
    assert cc[0] == 'C' && cc[1] == 'C';
    assert bg[0] == 'B';
    assert lk[0] == 'C' && lk[1] == 'A' && lk[6] == 'T';
    assert EncodedVar[0] == 'C' && EncodedVar[1] == 'A' && EncodedVar[6] == 'E';
  }

  /** The produced names never collide: four of them, five for `x86_64-linux-android`. */
  lemma ProducedKeysCount(t: string)
    ensures |ProducedKeys(t)| == if t == X86_64Android then 5 else 4
  {
    KeysDistinct(t);
    var ar, cc, bg, lk := ArKey(t), CcKey(t), BindgenKey(t), LinkerKey(t);
    var base := {ar, cc, bg, lk};
    assert |{ar}| == 1;
    assert |{ar, cc}| == 2;
    assert |{ar, cc, bg}| == 3;
    assert |base| == 4;
    if t == X86_64Android {
      assert EncodedVar !in base;
      assert ProducedKeys(t) == base + {EncodedVar};
    } else {
      assert ProducedKeys(t) == base;
    }
  }

  /** `<ndk>/toolchains/llvm/prebuilt/<os>-x86_64` */
  function ToolchainDir(host: Host, ndk: OsStr): OsStr {
    PushAll(host, ndk, Segs(["toolchains", "llvm", "prebuilt", host.NdkOs() + "-x86_64"]))
  }

  /** `<toolchain>/sysroot` */
  function SysrootDir(host: Host, tc: OsStr): OsStr {
    PushAll(host, tc, Segs(["sysroot"]))
  }

  /** `<sysroot>/usr/lib/<target>`, listed to find the API levels. */
  function LibDir(host: Host, tc: OsStr, target: string): OsStr {
    PushAll(host, SysrootDir(host, tc), Segs(["usr", "lib", target]))
  }

  /** `<toolchain>/bin/llvm-ar<exe>` */
  function ArPath(host: Host, tc: OsStr): OsStr {
    PushAll(host, tc, Segs(["bin", "llvm-ar" + host.ExeSuffix()]))
  }

  /** `<ndk_target><api>-clang<suffix>` */
  function ClangName(host: Host, ndkTarget: string, api: U8): string {
    ndkTarget + FormatDecimal(api) + "-clang" + host.ClangSuffix()
  }

  /** `<toolchain>/bin/<driver>` */
  function ClangPath(host: Host, tc: OsStr, ndkTarget: string, api: U8): OsStr {
    PushAll(host, tc, Segs(["bin", ClangName(host, ndkTarget, api)]))
  }

  /** The toolchain directory extends the NDK root, and is UTF-8 exactly
      when the root is. */
  lemma ToolchainUnderNdk(host: Host, ndk: OsStr)
    ensures StartsWith(ToolchainDir(host, ndk).Lossy(), ndk.Lossy())
    ensures ToolchainDir(host, ndk).Utf8? <==> ndk.Utf8?
  {
    var names := ["toolchains", "llvm", "prebuilt", host.NdkOs() + "-x86_64"];
    FixedComponents(host);
    PushNamesExtends(host, ndk, names);
    PushAllUtf8(host, ndk, Segs(names));
  }

  /** The sysroot extends the toolchain directory. */
  lemma SysrootUnderToolchain(host: Host, tc: OsStr)
    ensures StartsWith(SysrootDir(host, tc).Lossy(), tc.Lossy())
    ensures EndsWith(SysrootDir(host, tc).Lossy(), "sysroot")
  {
    FixedComponents(host);
    PushNamesExtends(host, tc, ["sysroot"]);
  }

  /** The library directory listed for API levels: a rooted target replaces
      the path, any other extends the toolchain directory and ends with the
      target. */
  lemma LibDirPlacement(host: Host, tc: OsStr, target: string)
    ensures Rooted(host, Utf8(target)) ==> LibDir(host, tc, target) == Utf8(target)
    ensures !Rooted(host, Utf8(target)) ==>
      StartsWith(LibDir(host, tc, target).Lossy(), tc.Lossy()) && EndsWith(LibDir(host, tc, target).Lossy(), target)
  {
    var sys := SysrootDir(host, tc);
    var segs := Segs(["usr", "lib", target]);
    if Rooted(host, Utf8(target)) {
      PushAllRootedLast(host, sys, segs);
    } else {
      FixedComponents(host);
      SegsRelative(host, ["usr", "lib", target]);
      PushAllExtends(host, sys, segs);
      SysrootUnderToolchain(host, tc);
      StartsWithTrans(LibDir(host, tc, target).Lossy(), sys.Lossy(), tc.Lossy());
    }
  }

  /** The archiver lies in the toolchain directory and is named
      `llvm-ar<exe>`. */
  lemma ArPathPlacement(host: Host, tc: OsStr)
    ensures StartsWith(ArPath(host, tc).Lossy(), tc.Lossy())
    ensures EndsWith(ArPath(host, tc).Lossy(), "llvm-ar" + host.ExeSuffix())
  {
    FixedComponents(host);
    PushNamesExtends(host, tc, ["bin", "llvm-ar" + host.ExeSuffix()]);
  }

  /** The driver lies in the toolchain directory and ends with its name,
      unless the target is rooted: the driver name is then rooted too and
      replaces the path. */
  lemma ClangPathPlacement(host: Host, tc: OsStr, ndkTarget: string, api: U8)
    ensures Rooted(host, Utf8(ndkTarget)) ==> ClangPath(host, tc, ndkTarget, api) == Utf8(ClangName(host, ndkTarget, api))
    ensures !Rooted(host, Utf8(ndkTarget)) ==>
      && StartsWith(ClangPath(host, tc, ndkTarget, api).Lossy(), tc.Lossy())
      && EndsWith(ClangPath(host, tc, ndkTarget, api).Lossy(), ClangName(host, ndkTarget, api))
  {
    var name := ClangName(host, ndkTarget, api);
    ClangNameComponent(host, ndkTarget, api);
    if Rooted(host, Utf8(ndkTarget)) {
      PushAllRootedLast(host, tc, Segs(["bin", name]));
    } else {
      FixedComponents(host);
      PushNamesExtends(host, tc, ["bin", name]);
    }
  }

  function ClangDir(host: Host, tc: OsStr): OsStr {
    PushAll(host, tc, Segs(["lib", "clang"]))
  }

  /** `<clang dir>/<version>/lib/linux` */
  function ClangRtDir(host: Host, clangDir: OsStr, version: OsStr): OsStr {
    PushAll(host, clangDir, [version] + Segs(["lib", "linux"]))
  }

  /** The clang runtime directory, from the first entry `lib/clang` yields. */
  function ClangRuntimeDir(host: Host, tc: OsStr, fs: Fs): (r: Result<string>)
    ensures ClangDir(host, tc) !in fs.dirs ==> r == Err(ClangDirUnreadable)
    ensures r.Ok? ==> |fs.dirs[ClangDir(host, tc)]| > 0 && fs.dirs[ClangDir(host, tc)][0].Entry?
    ensures r.Ok? ==> Utf8(r.value) == ClangRtDir(host, ClangDir(host, tc), fs.dirs[ClangDir(host, tc)][0].name)
  {
    var cd := ClangDir(host, tc);
    match fs.ReadDir(cd)
    case None => Err(ClangDirUnreadable)
    case Some(entries) =>
      if |entries| == 0 then Err(MissingClangVersion)
      else match entries[0]
        case EntryError => Err(ClangDirUnreadable)
        case Entry(version) =>
          match ClangRtDir(host, cd, version)
          case Utf8(s) => Ok(s)
          case NonUtf8(_) => Err(InvalidUtf8Path)
  }

  /** Every way of resolving the runtime directory: an unlistable
      `lib/clang` or a failed first entry, an empty listing, and a path that
      is not UTF-8. The path is UTF-8 exactly when the version name is and
      so is the toolchain directory; the latter does not matter for a rooted
      name, which a real listing never yields. */
  lemma ClangRuntimeDirOutcomes(host: Host, tc: OsStr, fs: Fs)
    ensures var cd := ClangDir(host, tc);
      var r := ClangRuntimeDir(host, tc, fs);
      && (cd in fs.dirs && |fs.dirs[cd]| == 0 ==> r == Err(MissingClangVersion))
      && (cd in fs.dirs && |fs.dirs[cd]| > 0 && fs.dirs[cd][0].EntryError? ==> r == Err(ClangDirUnreadable))
      && (cd in fs.dirs && |fs.dirs[cd]| > 0 && fs.dirs[cd][0].Entry? ==>
            && (r.Ok? <==> (tc.Utf8? || Rooted(host, fs.dirs[cd][0].name)) && fs.dirs[cd][0].name.Utf8?)
            && (r.Err? ==> r.error == InvalidUtf8Path))
  {
    var cd := ClangDir(host, tc);
    ClangDirUtf8(host, tc);
    if cd in fs.dirs && |fs.dirs[cd]| > 0 && fs.dirs[cd][0].Entry? {
      ClangRtDirUtf8(host, cd, fs.dirs[cd][0].name);
    }
  }

  /** A version directory that is a file name keeps the `lib/clang`
      directory as a prefix. */
  lemma RuntimeDirExtends(host: Host, cd: OsStr, v: OsStr)
    requires !Rooted(host, v)
    ensures StartsWith(ClangRtDir(host, cd, v).Lossy(), cd.Lossy())
    ensures EndsWith(ClangRtDir(host, cd, v).Lossy(), "linux")
  {
    var tail := Segs(["lib", "linux"]);
    var segs := [v] + tail;
    assert segs[0] == v && segs[1..] == tail;
    assert PushAll(host, cd, segs) == PushAll(host, Push(host, cd, v), tail);
    PushExtends(host, cd, v);
    FixedComponents(host);
    PushNamesExtends(host, Push(host, cd, v), ["lib", "linux"]);
    StartsWithTrans(ClangRtDir(host, cd, v).Lossy(), Push(host, cd, v).Lossy(), cd.Lossy());
  }

  /** The fixed names the wrapper pushes are plain components. */
  lemma FixedComponents(host: Host)
    ensures Component(host, "toolchains") && Component(host, "llvm") && Component(host, "prebuilt")
    ensures Component(host, host.NdkOs() + "-x86_64")
    ensures Component(host, "sysroot") && Component(host, "usr") && Component(host, "lib")
    ensures Component(host, "bin") && Component(host, "clang") && Component(host, "linux")
    ensures Component(host, "llvm-ar" + host.ExeSuffix())
  {
    var os := host.NdkOs() + "-x86_64";
    assert os[0] == host.NdkOs()[0] && os[|os| - 1] == '4';
    var ar := "llvm-ar" + host.ExeSuffix();
    assert ar[0] == 'l' && ar[|ar| - 1] == if host.Windows? then 'e' else 'r';
  }

  /** A driver name is rooted exactly when the target it starts with is,
      and is otherwise a plain component. */
  lemma ClangNameComponent(host: Host, ndkTarget: string, api: U8)
    ensures Rooted(host, Utf8(ClangName(host, ndkTarget, api))) <==> Rooted(host, Utf8(ndkTarget))
    ensures !Rooted(host, Utf8(ndkTarget)) ==> Component(host, ClangName(host, ndkTarget, api))
  {
    var name := ClangName(host, ndkTarget, api);
    var d := FormatDecimal(api);
    assert name[|name| - 1] == if host.Windows? then 'd' else 'g';
    if |ndkTarget| > 0 {
      assert name[0] == ndkTarget[0];
    } else {
      assert name[0] == d[0] && IsDigit(d[0]);
    }
  }

  lemma ClangDirUtf8(host: Host, tc: OsStr)
    ensures ClangDir(host, tc).Utf8? <==> tc.Utf8?
  {
    FixedComponents(host);
    SegsRelative(host, ["lib", "clang"]);
    PushAllUtf8(host, tc, Segs(["lib", "clang"]));
  }

  lemma ClangRtDirUtf8(host: Host, cd: OsStr, v: OsStr)
    ensures ClangRtDir(host, cd, v).Utf8? <==> (cd.Utf8? || Rooted(host, v)) && v.Utf8?
  {
    var tail := Segs(["lib", "linux"]);
    var segs := [v] + tail;
    assert segs[0] == v && segs[1..] == tail;
    assert PushAll(host, cd, segs) == PushAll(host, Push(host, cd, v), tail);
    PushUtf8(host, cd, v);
    FixedComponents(host);
    PushNamesUtf8(host, Push(host, cd, v), ["lib", "linux"]);
  }

  /** The clang runtime directory, built from a file name, lies under the
      toolchain and ends in `linux`. */
  lemma ClangRuntimeDirUnderToolchain(host: Host, tc: OsStr, fs: Fs)
    requires fs.FileNames(host)
    requires ClangRuntimeDir(host, tc, fs).Ok?
    ensures StartsWith(ClangRuntimeDir(host, tc, fs).value, tc.Lossy())
    ensures EndsWith(ClangRuntimeDir(host, tc, fs).value, "linux")
  {
    var cd := ClangDir(host, tc);
    var v := fs.dirs[cd][0].name;
    assert !Rooted(host, v);
    FixedComponents(host);
    PushNamesExtends(host, tc, ["lib", "clang"]);
    RuntimeDirExtends(host, cd, v);
    StartsWithTrans(ClangRtDir(host, cd, v).Lossy(), cd.Lossy(), tc.Lossy());
  }

  /** The four variables every Android target gets. */
  function BaseVars(host: Host, target: string, tc: OsStr, api: U8): (vars: map<string, OsStr>)
    ensures vars.Keys == {ArKey(target), CcKey(target), BindgenKey(target), LinkerKey(target)}
    ensures vars[CcKey(target)] == vars[LinkerKey(target)] == ClangPath(host, tc, NdkTarget(target), api)
    ensures vars[ArKey(target)] == ArPath(host, tc)
    ensures vars[BindgenKey(target)] == Concat(Utf8("--sysroot="), SysrootDir(host, tc))
  {
    KeysDistinct(target);
    var clang := ClangPath(host, tc, NdkTarget(target), api);
    map[ArKey(target) := ArPath(host, tc),
        CcKey(target) := clang,
        BindgenKey(target) := Concat(Utf8("--sysroot="), SysrootDir(host, tc)),
        LinkerKey(target) := clang]
  }

  /** What has been established before any variable is built: the
      toolchain directory and the API level. */
  datatype Resolved = Resolved(toolchain: OsStr, api: U8)

  /** The toolchain directory named by `ANDROID_NDK_ROOT`. */
  function Toolchain(host: Host, env: Env): OsStr
    requires NdkRootVar in env
  {
    ToolchainDir(host, env[NdkRootVar])
  }

  /** The first half of `get_android_env`: the NDK root must be set, the
      toolchain must exist, and an API level must be found, in that order. */
  function Resolve(host: Host, target: string, env: Env, fs: Fs): (r: Result<Resolved>)
    ensures NdkRootVar !in env ==> r == Err(NdkRootNotSet)
    ensures NdkRootVar in env && !fs.Exists(Toolchain(host, env)) ==> r == Err(ToolchainDirNotFound)
    ensures NdkRootVar in env && fs.Exists(Toolchain(host, env)) ==>
      var api := ChooseApi(env, fs, LibDir(host, Toolchain(host, env), target));
      && (api.Err? ==> r == Err(api.error))
      && (api.Ok? ==> r == Ok(Resolved(Toolchain(host, env), api.value)))
  {
    match VarOs(env, NdkRootVar)
    case None => Err(NdkRootNotSet)
    case Some(ndk) =>
      var tc := ToolchainDir(host, ndk);
      if !fs.Exists(tc) then Err(ToolchainDirNotFound)
      else
        var api :- ChooseApi(env, fs, LibDir(host, tc, target));
        Ok(Resolved(tc, api))
  }

  /** The second half: the variables, plus the merged flags for
      `x86_64-linux-android`, which need the clang runtime directory. */
  function AndroidVars(host: Host, target: string, env: Env, fs: Fs, res: Resolved): (r: Result<map<string, OsStr>>)
    ensures r.Ok? <==> target != X86_64Android || ClangRuntimeDir(host, res.toolchain, fs).Ok?
    ensures r.Ok? ==> r.value.Keys == ProducedKeys(target)
    ensures r.Ok? && target == X86_64Android ==>
      r.value[EncodedVar] == Utf8(MergedFlags(env, ClangRuntimeDir(host, res.toolchain, fs).value))
  {
    KeysDistinct(target);
    var vars := BaseVars(host, target, res.toolchain, res.api);
    if target != X86_64Android then Ok(vars)
    else
      var rtDir :- ClangRuntimeDir(host, res.toolchain, fs);
      Ok(vars[EncodedVar := Utf8(MergedFlags(env, rtDir))])
  }

  /** `get_android_env(target)`: every variable, or the first error. */
  function GetAndroidEnv(host: Host, target: string, env: Env, fs: Fs): (r: Result<map<string, OsStr>>)
    ensures NdkRootVar !in env ==> r == Err(NdkRootNotSet)
    ensures r.Ok? <==> Resolve(host, target, env, fs).Ok? && AndroidVars(host, target, env, fs, Resolve(host, target, env, fs).value).Ok?
    ensures r.Ok? ==> r == AndroidVars(host, target, env, fs, Resolve(host, target, env, fs).value)
    ensures r.Ok? ==> r.value.Keys == ProducedKeys(target)
  {
    var res :- Resolve(host, target, env, fs);
    AndroidVars(host, target, env, fs, res)
  }

  /** Resolution is all-or-nothing: a map is produced exactly when the NDK
      root is set, the toolchain exists, an API level is found and, for
      `x86_64-linux-android`, the clang runtime directory is resolved. */
  lemma AndroidEnvAllOrNothing(host: Host, target: string, env: Env, fs: Fs)
    ensures GetAndroidEnv(host, target, env, fs).Ok? <==>
      && NdkRootVar in env
      && fs.Exists(Toolchain(host, env))
      && ChooseApi(env, fs, LibDir(host, Toolchain(host, env), target)).Ok?
      && (target == X86_64Android ==> ClangRuntimeDir(host, Toolchain(host, env), fs).Ok?)
  {
  }

  /** The produced map has exactly the four target-scoped names, plus
      `CARGO_ENCODED_RUSTFLAGS` if and only if the target is
      `x86_64-linux-android`. */
  lemma AndroidEnvKeys(host: Host, target: string, env: Env, fs: Fs)
    ensures GetAndroidEnv(host, target, env, fs).Ok? ==>
      && |GetAndroidEnv(host, target, env, fs).value| == (if target == X86_64Android then 5 else 4)
      && (EncodedVar in GetAndroidEnv(host, target, env, fs).value <==> target == X86_64Android)
  {
    if GetAndroidEnv(host, target, env, fs).Ok? {
      ProducedMapShape(target, GetAndroidEnv(host, target, env, fs).value);
    }
  }

  lemma ProducedMapShape(t: string, m: map<string, OsStr>)
    requires m.Keys == ProducedKeys(t)
    ensures |m| == if t == X86_64Android then 5 else 4
    ensures EncodedVar in m <==> t == X86_64Android
  {
    ProducedKeysCount(t);
    assert |m| == |m.Keys|;
    KeysDistinct(t);
  }

  /** For a target that is not rooted, the tool paths all lie under the NDK
      root and end with the tool's name. */
  lemma ToolPathsUnderNdk(host: Host, ndk: OsStr, ndkTarget: string, api: U8)
    requires !Rooted(host, Utf8(ndkTarget))
    ensures var tc := ToolchainDir(host, ndk);
      && StartsWith(ClangPath(host, tc, ndkTarget, api).Lossy(), ndk.Lossy())
      && EndsWith(ClangPath(host, tc, ndkTarget, api).Lossy(), ClangName(host, ndkTarget, api))
      && StartsWith(ArPath(host, tc).Lossy(), ndk.Lossy())
      && EndsWith(ArPath(host, tc).Lossy(), "llvm-ar" + host.ExeSuffix())
      && StartsWith(Concat(Utf8("--sysroot="), SysrootDir(host, tc)).Lossy(), "--sysroot=" + ndk.Lossy())
  {
    var tc := ToolchainDir(host, ndk);
    ToolchainUnderNdk(host, ndk);
    ClangPathPlacement(host, tc, ndkTarget, api);
    StartsWithTrans(ClangPath(host, tc, ndkTarget, api).Lossy(), tc.Lossy(), ndk.Lossy());
    ArPathPlacement(host, tc);
    StartsWithTrans(ArPath(host, tc).Lossy(), tc.Lossy(), ndk.Lossy());
    var sys := SysrootDir(host, tc);
    SysrootUnderToolchain(host, tc);
    StartsWithTrans(sys.Lossy(), tc.Lossy(), ndk.Lossy());
    var bg := Concat(Utf8("--sysroot="), sys).Lossy();
    assert bg[..|"--sysroot=" + ndk.Lossy()|] == "--sysroot=" + sys.Lossy()[..|ndk.Lossy()|];
  }

  /** A rooted target, such as the path of a target-specification file,
      replaces the path it is pushed onto: the library directory is the
      target itself and the driver is the target followed by the level and
      `-clang`, wherever the NDK is. */
  lemma RootedTargetEscapes(host: Host, tc: OsStr, target: string, api: U8)
    requires Rooted(host, Utf8(target))
    ensures NdkTarget(target) == target
    ensures LibDir(host, tc, target) == Utf8(target)
    ensures ClangPath(host, tc, NdkTarget(target), api) == Utf8(ClangName(host, target, api))
  {
    ClangNameComponent(host, target, api);
    LibDirPlacement(host, tc, target);
    ClangPathPlacement(host, tc, target, api);
  }

  /** The components from the NDK root to the toolchain's `bin` directory. */
  function BinComponents(host: Host): seq<string> {
    ["toolchains", "llvm", "prebuilt", host.NdkOs() + "-x86_64", "bin"]
  }

  /** A tool of the toolchain's `bin` directory, spelled out for an NDK root
      given as UTF-8 text. */
  lemma BinToolText(host: Host, root: string, tool: string)
    requires Component(host, tool)
    ensures PushAll(host, ToolchainDir(host, Utf8(root)), Segs(["bin", tool]))
      == Utf8(root + SepAfter(host, root) + Join(BinComponents(host) + [tool], host.MainSeparator()))
  {
    var dirs := ["toolchains", "llvm", "prebuilt", host.NdkOs() + "-x86_64"];
    var names := dirs + ["bin", tool];
    assert names == BinComponents(host) + [tool];
    FixedComponents(host);
    assert forall i :: 0 <= i < |names| ==> Component(host, names[i]);
    PushAllAppend(host, Utf8(root), Segs(dirs), Segs(["bin", tool]));
    SegsAppend(dirs, ["bin", tool]);
    PushAllText(host, root, names);
  }

  /** Spelled out for an NDK root given as UTF-8 text and a target that is
      not rooted: the compiler driver is
      `<ndk>/toolchains/llvm/prebuilt/<os>-x86_64/bin/<ndk_target><api>-clang<suffix>`
      and the archiver `<ndk>/toolchains/llvm/prebuilt/<os>-x86_64/bin/llvm-ar<exe>`,
      with the host's main separator, and no separator added after an empty
      root or one that already ends with a separator. */
  lemma ToolPathsText(host: Host, root: string, ndkTarget: string, api: U8)
    requires !Rooted(host, Utf8(ndkTarget))
    ensures var sep := host.MainSeparator();
      var tc := ToolchainDir(host, Utf8(root));
      && ClangPath(host, tc, ndkTarget, api) == Utf8(root + SepAfter(host, root) + Join(BinComponents(host) + [ClangName(host, ndkTarget, api)], sep))
      && ArPath(host, tc) == Utf8(root + SepAfter(host, root) + Join(BinComponents(host) + ["llvm-ar" + host.ExeSuffix()], sep))
  {
    ClangNameComponent(host, ndkTarget, api);
    FixedComponents(host);
    BinToolText(host, root, ClangName(host, ndkTarget, api));
    BinToolText(host, root, "llvm-ar" + host.ExeSuffix());
  }

  /** The four base variables keep their values when the flags are added. */
  lemma AndroidVarsValues(host: Host, target: string, env: Env, fs: Fs, res: Resolved)
    requires AndroidVars(host, target, env, fs, res).Ok?
    ensures var vars := AndroidVars(host, target, env, fs, res).value;
      && vars[CcKey(target)] == ClangPath(host, res.toolchain, NdkTarget(target), res.api)
      && vars[LinkerKey(target)] == vars[CcKey(target)]
      && vars[ArKey(target)] == ArPath(host, res.toolchain)
      && vars[BindgenKey(target)] == Concat(Utf8("--sysroot="), SysrootDir(host, res.toolchain))
  {
    KeysDistinct(target);
    var base := BaseVars(host, target, res.toolchain, res.api);
    if target == X86_64Android {
      var rt := ClangRuntimeDir(host, res.toolchain, fs).value;
      assert AndroidVars(host, target, env, fs, res) == Ok(base[EncodedVar := Utf8(MergedFlags(env, rt))]);
    }
  }

  /** The values of the produced map: `CC` and the linker name the compiler
      driver for the normalised triple at the chosen API level, `AR` is the
      toolchain's `llvm-ar`, and bindgen gets `--sysroot=<toolchain>/sysroot`. */
  lemma AndroidEnvValues(host: Host, target: string, env: Env, fs: Fs)
    ensures GetAndroidEnv(host, target, env, fs).Ok? ==>
      var vars := GetAndroidEnv(host, target, env, fs).value;
      var res := Resolve(host, target, env, fs).value;
      && NdkRootVar in env
      && res.toolchain == ToolchainDir(host, env[NdkRootVar])
      && ChooseApi(env, fs, LibDir(host, res.toolchain, target)) == Ok(res.api)
      && vars[CcKey(target)] == ClangPath(host, res.toolchain, NdkTarget(target), res.api)
      && vars[LinkerKey(target)] == vars[CcKey(target)]
      && vars[ArKey(target)] == ArPath(host, res.toolchain)
      && vars[BindgenKey(target)] == Concat(Utf8("--sysroot="), SysrootDir(host, res.toolchain))
  {
    if GetAndroidEnv(host, target, env, fs).Ok? {
      AndroidVarsValues(host, target, env, fs, Resolve(host, target, env, fs).value);
    }
  }

  /** On `x86_64-linux-android` the flags variable is the merge of the
      existing flags with the clang runtime directory, which lies under the
      NDK root when the listing yields file names. */
  lemma AndroidEnvRustFlags(host: Host, env: Env, fs: Fs)
    ensures GetAndroidEnv(host, X86_64Android, env, fs).Ok? ==>
      var vars := GetAndroidEnv(host, X86_64Android, env, fs).value;
      var res := Resolve(host, X86_64Android, env, fs).value;
      && NdkRootVar in env
      && ClangRuntimeDir(host, res.toolchain, fs).Ok?
      && vars[EncodedVar] == Utf8(MergedFlags(env, ClangRuntimeDir(host, res.toolchain, fs).value))
      && (fs.FileNames(host) ==> StartsWith(ClangRuntimeDir(host, res.toolchain, fs).value, env[NdkRootVar].Lossy()))
  {
    if GetAndroidEnv(host, X86_64Android, env, fs).Ok? {
      var res := Resolve(host, X86_64Android, env, fs).value;
      var ndk := env[NdkRootVar];
      assert res.toolchain == ToolchainDir(host, ndk);
      if fs.FileNames(host) {
        RuntimeDirUnderNdk(host, ndk, fs);
      }
      var r := AndroidVars(host, X86_64Android, env, fs, res);
      assert GetAndroidEnv(host, X86_64Android, env, fs) == r;
    }
  }

  /** The clang runtime directory, when found, extends the NDK root. */
  lemma RuntimeDirUnderNdk(host: Host, ndk: OsStr, fs: Fs)
    requires fs.FileNames(host)
    requires ClangRuntimeDir(host, ToolchainDir(host, ndk), fs).Ok?
    ensures StartsWith(ClangRuntimeDir(host, ToolchainDir(host, ndk), fs).value, ndk.Lossy())
  {
    var tc := ToolchainDir(host, ndk);
    ClangRuntimeDirUnderToolchain(host, tc, fs);
    ToolchainUnderNdk(host, ndk);
    StartsWithTrans(ClangRuntimeDir(host, tc, fs).value, tc.Lossy(), ndk.Lossy());
  }

  /** Both ARM aliases get the `armv7a-linux-androideabi` compiler driver,
      while the variable names keep the triple as given. */
  lemma ArmAliasesShareDriver(host: Host, target: string, env: Env, fs: Fs)
    requires target == Armv7Alias || target == ThumbAlias
    requires GetAndroidEnv(host, target, env, fs).Ok?
    ensures var vars := GetAndroidEnv(host, target, env, fs).value;
      var res := Resolve(host, target, env, fs).value;
      && CcKey(target) in vars
      && vars[CcKey(target)] == ClangPath(host, res.toolchain, ArmTriple, res.api)
  {
    AndroidEnvValues(host, target, env, fs);
  }
}
