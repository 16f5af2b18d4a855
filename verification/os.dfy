/** The operating-system surface the wrapper touches, reduced to values:
    OS strings, the host platform family, `PathBuf::push`, the environment
    and the directory listings it reads. */
module Os {
  import opened Base
  import opened Text

  /** An `OsString`: either valid Unicode text, or ill-formed data of which
      only the `to_string_lossy` rendering is kept. */
  datatype OsStr = Utf8(text: string) | NonUtf8(lossy: string) {

    /** `to_str()` */
    function ToStr(): Option<string> {
      if Utf8? then Some(text) else None
    }

    /** `to_string_lossy()` */
    function Lossy(): string {
      if Utf8? then text else lossy
    }
  }

  /** Appending one OS string to another (`OsString::push`). Every place the
      wrapper concatenates does so next to an ASCII character, so the result
      is valid UTF-8 exactly when both parts are. */
  function Concat(a: OsStr, b: OsStr): (r: OsStr)
    ensures r.Lossy() == a.Lossy() + b.Lossy()
    ensures r.Utf8? <==> a.Utf8? && b.Utf8?
  {
    if a.Utf8? && b.Utf8? then Utf8(a.text + b.text) else NonUtf8(a.Lossy() + b.Lossy())
  }

  /** The host the wrapper was compiled for; each family fixes the NDK's
      prebuilt directory name and the suffixes of its tools. */
  datatype Host = Linux | Darwin | Windows {

    /** `NDK_OS` */
    function NdkOs(): string {
      match this
      case Linux => "linux"
      case Darwin => "darwin"
      case Windows => "windows"
    }

    /** `CLANG_SUFFIX`: the compiler drivers are batch scripts on Windows. */
    function ClangSuffix(): string {
      if Windows? then ".cmd" else ""
    }

    /** `EXE_SUFFIX` */
    function ExeSuffix(): string {
      if Windows? then ".exe" else ""
    }

    /** Whether termination by a signal is observable (the `cfg(not(windows))` block). */
    predicate HasSignals() {
      !Windows?
    }

    predicate IsSeparator(c: char) {
      c == '/' || (Windows? && c == '\\')
    }

    function MainSeparator(): char {
      if Windows? then '\\' else '/'
    }
  }

  /** The three host families use three different prebuilt directories, and
      exactly the Windows family has tool suffixes. */
  lemma HostConstants(h: Host, h': Host)
    ensures h.NdkOs() == h'.NdkOs() <==> h == h'
    ensures h.ClangSuffix() == "" <==> h.HasSignals()
    ensures h.ExeSuffix() == "" <==> h.HasSignals()
  {
  }

  /** A component that starts with a separator: `PathBuf::push` of it
      replaces the whole path instead of extending it. */
  predicate Rooted(host: Host, seg: OsStr) {
    var l := seg.Lossy();
    |l| > 0 && host.IsSeparator(l[0])
  }

  /** `PathBuf::push`: a rooted component replaces the path; any other is
      appended, with a separator in between unless the path is empty or
      already ends with one. */
  function Push(host: Host, p: OsStr, seg: OsStr): (r: OsStr)
    ensures Rooted(host, seg) ==> r == seg
  {
    var l := p.Lossy();
    if Rooted(host, seg) then seg
    else if |l| == 0 || host.IsSeparator(l[|l| - 1]) then Concat(p, seg)
    else Concat(Concat(p, Utf8([host.MainSeparator()])), seg)
  }

  /** Pushing a component that is not rooted gives the path, the main
      separator unless the path is empty or already ends with a separator,
      then the component; it is UTF-8 exactly when both are. */
  lemma PushExtends(host: Host, p: OsStr, seg: OsStr)
    requires !Rooted(host, seg)
    ensures Push(host, p, seg).Lossy() == p.Lossy() + SepAfter(host, p.Lossy()) + seg.Lossy()
    ensures StartsWith(Push(host, p, seg).Lossy(), p.Lossy())
    ensures EndsWith(Push(host, p, seg).Lossy(), seg.Lossy())
    ensures |Push(host, p, seg).Lossy()| == |p.Lossy()| + |SepAfter(host, p.Lossy())| + |seg.Lossy()|
    ensures Push(host, p, seg).Utf8? <==> p.Utf8? && seg.Utf8?
  {
  }

  /** Literal path components. */
  function Segs(names: seq<string>): (segs: seq<OsStr>)
    ensures |segs| == |names|
    ensures forall i :: 0 <= i < |names| ==> segs[i] == Utf8(names[i])
  {
    seq(|names|, i requires 0 <= i < |names| => Utf8(names[i]))
  }

  /** Pushing several components in turn. */
  function PushAll(host: Host, p: OsStr, segs: seq<OsStr>): OsStr
    decreases |segs|
  {
    if |segs| == 0 then p else PushAll(host, Push(host, p, segs[0]), segs[1..])
  }

  /** None of the components is rooted. */
  predicate AllRelative(host: Host, segs: seq<OsStr>) {
    forall i :: 0 <= i < |segs| ==> !Rooted(host, segs[i])
  }

  /** Pushing one list of components then another is pushing both. */
  lemma {:induction false} PushAllAppend(host: Host, p: OsStr, a: seq<OsStr>, b: seq<OsStr>)
    ensures PushAll(host, PushAll(host, p, a), b) == PushAll(host, p, a + b)
    decreases |a|
  {
    if |a| > 0 {
      assert (a + b)[0] == a[0] && (a + b)[1..] == a[1..] + b;
      PushAllAppend(host, Push(host, p, a[0]), a[1..], b);
    } else {
      assert a + b == b;
    }
  }

  /** Pushing a list of components ends with pushing its last one. */
  lemma PushAllLast(host: Host, p: OsStr, segs: seq<OsStr>)
    requires |segs| > 0
    ensures PushAll(host, p, segs) == Push(host, PushAll(host, p, segs[..|segs| - 1]), segs[|segs| - 1])
  {
    var n := |segs|;
    PushAllAppend(host, p, segs[..n - 1], [segs[n - 1]]);
    assert segs[..n - 1] + [segs[n - 1]] == segs;
  }

  /** A rooted last component is the whole result, whatever came before. */
  lemma PushAllRootedLast(host: Host, p: OsStr, segs: seq<OsStr>)
    requires |segs| > 0 && Rooted(host, segs[|segs| - 1])
    ensures PushAll(host, p, segs) == segs[|segs| - 1]
  {
    PushAllLast(host, p, segs);
  }

  /** Pushing components none of which is rooted extends the original path,
      and the result ends with the last component. */
  lemma PushAllExtends(host: Host, p: OsStr, segs: seq<OsStr>)
    requires AllRelative(host, segs)
    ensures StartsWith(PushAll(host, p, segs).Lossy(), p.Lossy())
    ensures |segs| > 0 ==> EndsWith(PushAll(host, p, segs).Lossy(), segs[|segs| - 1].Lossy())
  {
    PushAllPrefix(host, p, segs);
    if |segs| > 0 {
      var last := segs[|segs| - 1];
      PushAllLast(host, p, segs);
      assert !Rooted(host, last);
      PushExtends(host, PushAll(host, p, segs[..|segs| - 1]), last);
    }
  }

  lemma {:induction false} PushAllPrefix(host: Host, p: OsStr, segs: seq<OsStr>)
    requires AllRelative(host, segs)
    ensures StartsWith(PushAll(host, p, segs).Lossy(), p.Lossy())
    decreases |segs|
  {
    if |segs| > 0 {
      var q := Push(host, p, segs[0]);
      var r := PushAll(host, q, segs[1..]);
      assert PushAll(host, p, segs) == r;
      RelativeTail(host, segs);
      PushExtends(host, p, segs[0]);
      PushAllPrefix(host, q, segs[1..]);
      StartsWithTrans(r.Lossy(), q.Lossy(), p.Lossy());
    }
  }

  lemma RelativeTail(host: Host, segs: seq<OsStr>)
    requires AllRelative(host, segs) && |segs| > 0
    ensures !Rooted(host, segs[0]) && AllRelative(host, segs[1..])
  {
    assert forall i :: 0 <= i < |segs| - 1 ==> segs[1..][i] == segs[i + 1];
  }

  /** With no rooted component, the result is UTF-8 exactly when the path
      and every component are. */
  lemma {:induction false} PushAllUtf8(host: Host, p: OsStr, segs: seq<OsStr>)
    requires AllRelative(host, segs)
    ensures PushAll(host, p, segs).Utf8? <==> p.Utf8? && forall i :: 0 <= i < |segs| ==> segs[i].Utf8?
    decreases |segs|
  {
    if |segs| > 0 {
      var q := Push(host, p, segs[0]);
      RelativeTail(host, segs);
      PushExtends(host, p, segs[0]);
      PushAllUtf8(host, q, segs[1..]);
      assert PushAll(host, p, segs) == PushAll(host, q, segs[1..]);
      assert (forall i :: 0 <= i < |segs| ==> segs[i].Utf8?) <==>
        segs[0].Utf8? && forall i :: 0 <= i < |segs[1..]| ==> segs[1..][i].Utf8?;
    }
  }

  /** A name that is non-empty and does not end with a separator. */
  predicate Plain(host: Host, name: string) {
    |name| > 0 && !host.IsSeparator(name[|name| - 1])
  }

  /** A plain name that does not start with a separator either: pushed, it
      adds exactly itself. */
  predicate Component(host: Host, name: string) {
    Plain(host, name) && !host.IsSeparator(name[0])
  }

  /** The separator `PathBuf::push` puts after the text `a` before a
      component that is not rooted. */
  function SepAfter(host: Host, a: string): string {
    if |a| == 0 || host.IsSeparator(a[|a| - 1]) then "" else [host.MainSeparator()]
  }

  /** On a UTF-8 path, pushing UTF-8 components that are neither empty nor
      start or end with a separator adds each after one main separator,
      except that none is added directly after an empty path or a trailing
      separator. */
  lemma {:induction false} PushAllText(host: Host, a: string, names: seq<string>)
    requires forall i :: 0 <= i < |names| ==> Component(host, names[i])
    requires |names| > 0
    ensures PushAll(host, Utf8(a), Segs(names)) == Utf8(a + SepAfter(host, a) + Join(names, host.MainSeparator()))
    decreases |names|
  {
    var sep := host.MainSeparator();
    var x := a + SepAfter(host, a);
    var b := x + names[0];
    assert Component(host, names[0]);
    PushText(host, a, names[0]);
    SegsCons(host, Utf8(a), names);
    if |names| > 1 {
      PlainAppend(host, x, names[0]);
      assert SepAfter(host, b) == [sep];
      assert forall i :: 0 <= i < |names| - 1 ==> names[1..][i] == names[i + 1];
      PushAllText(host, b, names[1..]);
      JoinShift(x, names, sep);
    }
  }

  lemma PlainAppend(host: Host, a: string, b: string)
    requires Plain(host, b)
    ensures Plain(host, a + b)
  {
    assert (a + b)[|a + b| - 1] == b[|b| - 1];
  }

  lemma JoinShift(x: string, names: seq<string>, sep: char)
    requires |names| > 1
    ensures x + Join(names, sep) == (x + names[0]) + [sep] + Join(names[1..], sep)
  {
    var j := Join(names[1..], sep);
    assert Join(names, sep) == names[0] + [sep] + j;
    assert x + (names[0] + [sep] + j) == (x + names[0]) + [sep] + j;
  }

  lemma SegsAppend(a: seq<string>, b: seq<string>)
    ensures Segs(a) + Segs(b) == Segs(a + b)
  {
    assert forall i :: 0 <= i < |a| + |b| ==> (a + b)[i] == if i < |a| then a[i] else b[i - |a|];
  }

  /** Pushing components keeps the path as a prefix and ends with the last
      component. */
  lemma PushNamesExtends(host: Host, p: OsStr, names: seq<string>)
    requires |names| > 0
    requires forall i :: 0 <= i < |names| ==> Component(host, names[i])
    ensures StartsWith(PushAll(host, p, Segs(names)).Lossy(), p.Lossy())
    ensures EndsWith(PushAll(host, p, Segs(names)).Lossy(), names[|names| - 1])
  {
    SegsRelative(host, names);
    PushAllExtends(host, p, Segs(names));
  }

  /** Pushing text components keeps a path UTF-8 exactly when it was. */
  lemma PushNamesUtf8(host: Host, p: OsStr, names: seq<string>)
    requires forall i :: 0 <= i < |names| ==> Component(host, names[i])
    ensures PushAll(host, p, Segs(names)).Utf8? <==> p.Utf8?
  {
    SegsRelative(host, names);
    PushAllUtf8(host, p, Segs(names));
  }

  /** A pushed path is UTF-8 exactly when the component is and so is the
      path, unless the component replaced it. */
  lemma PushUtf8(host: Host, p: OsStr, seg: OsStr)
    ensures Push(host, p, seg).Utf8? <==> (p.Utf8? || Rooted(host, seg)) && seg.Utf8?
  {
  }

  /** Names that do not start with a separator give components that are not rooted. */
  lemma SegsRelative(host: Host, names: seq<string>)
    requires forall i :: 0 <= i < |names| ==> |names[i]| == 0 || !host.IsSeparator(names[i][0])
    ensures AllRelative(host, Segs(names))
  {
  }

  /** Pushing a list of UTF-8 names pushes the first, then the rest. */
  lemma SegsCons(host: Host, p: OsStr, names: seq<string>)
    requires |names| > 0
    ensures PushAll(host, p, Segs(names)) == PushAll(host, Push(host, p, Utf8(names[0])), Segs(names[1..]))
  {
    assert Segs(names)[1..] == Segs(names[1..]);
  }

  /** One push of a UTF-8 name that is not rooted onto a UTF-8 path. */
  lemma PushText(host: Host, a: string, b: string)
    requires !Rooted(host, Utf8(b))
    ensures Push(host, Utf8(a), Utf8(b)) == Utf8(a + SepAfter(host, a) + b)
  {
  }

  /** The process environment: variable names to values. */
  type Env = map<string, OsStr>

  /** `env::var_os(name)` */
  function VarOs(env: Env, name: string): Option<OsStr> {
    if name in env then Some(env[name]) else None
  }

  /** `env::var(name).ok()`: absent and non-UTF-8 values both read as missing. */
  function Var(env: Env, name: string): (r: Option<string>)
    ensures r.Some? <==> name in env && env[name].Utf8?
    ensures r.Some? ==> env[name] == Utf8(r.value)
  {
    match VarOs(env, name)
    case Some(Utf8(s)) => Some(s)
    case _ => None
  }

  /** One item yielded by `read_dir`: an I/O error or an entry's file name. */
  datatype DirEntry = EntryError | Entry(name: OsStr)

  /** The filesystem as the wrapper sees it: the paths that exist, and the
      listing, in the order the OS yields it, of every readable directory. */
  datatype Fs = Fs(existing: set<OsStr>, dirs: map<OsStr, seq<DirEntry>>) {

    /** `path.exists()` */
    predicate Exists(p: OsStr) {
      p in existing || p in dirs
    }

    /** Every listed entry is a file name, never a rooted path, as
        `read_dir` guarantees. */
    predicate FileNames(host: Host) {
      forall d, i :: d in dirs && 0 <= i < |dirs[d]| && dirs[d][i].Entry? ==> !Rooted(host, dirs[d][i].name)
    }

    /** `path.read_dir()`, `None` when it fails. */
    function ReadDir(p: OsStr): Option<seq<DirEntry>> {
      if p in dirs then Some(dirs[p]) else None
    }
  }
}
