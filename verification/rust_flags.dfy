/** Appending the clang runtime builtins to Cargo's global compiler flags
    for `x86_64-linux-android`, in Cargo's two flag encodings. */
module RustFlags {
  import opened Base
  import opened Text
  import opened Os

  const EncodedVar: string := "CARGO_ENCODED_RUSTFLAGS"
  const PlainVar: string := "RUSTFLAGS"

  /** The separator of `CARGO_ENCODED_RUSTFLAGS` (ASCII unit separator). */
  const UnitSep: char := '\U{1F}'

  const BuiltinsLib: string := "static=clang_rt.builtins-x86_64-android"

  /** A token of the space-separated encoding: non-empty, no space, and no
      whitespace at either end. */
  predicate IsPlainToken(t: string) {
    |t| > 0 && ' ' !in t && IsTrimmed(t)
  }

  /** Trims each piece and drops the pieces left empty, keeping the order. */
  function CleanPieces(pieces: seq<string>): (r: seq<string>)
    ensures |r| <= |pieces|
    ensures forall i :: 0 <= i < |r| ==> |r[i]| > 0 && IsTrimmed(r[i])
  {
    if |pieces| == 0 then []
    else
      var t := Trim(pieces[0]);
      var rest := CleanPieces(pieces[1..]);
      if t == "" then rest else [t] + rest
  }

  /** Pieces without spaces give tokens without spaces. */
  lemma {:induction false} CleanAvoidsSpace(pieces: seq<string>)
    requires forall i :: 0 <= i < |pieces| ==> ' ' !in pieces[i]
    ensures forall i :: 0 <= i < |CleanPieces(pieces)| ==> ' ' !in CleanPieces(pieces)[i]
  {
    if |pieces| > 0 {
      assert ' ' !in pieces[0];
      TrimAvoids(pieces[0], ' ');
      assert forall k :: 0 <= k < |pieces| - 1 ==> pieces[1..][k] == pieces[k + 1];
      CleanAvoidsSpace(pieces[1..]);
    }
  }

  /** The tokens of a `RUSTFLAGS` value. */
  function PlainTokens(flags: string): (r: seq<string>)
    ensures forall i :: 0 <= i < |r| ==> IsPlainToken(r[i])
  {
    CleanAvoidsSpace(Split(flags, ' '));
    CleanPieces(Split(flags, ' '))
  }

  /** Cleaning works piece by piece: cleaning two lists in turn is cleaning
      their concatenation. */
  lemma {:induction false} CleanAppend(a: seq<string>, b: seq<string>)
    ensures CleanPieces(a + b) == CleanPieces(a) + CleanPieces(b)
    decreases |a|
  {
    if |a| == 0 {
      assert a + b == b;
    } else {
      assert (a + b)[0] == a[0];
      assert (a + b)[1..] == a[1..] + b;
      CleanAppend(a[1..], b);
    }
  }

  /** A space separates tokens: the tokens of `a + " " + b` are those of
      `a` followed by those of `b`, however many spaces either contains. */
  lemma PlainTokensAtSpace(a: string, b: string)
    ensures PlainTokens(a + [' '] + b) == PlainTokens(a) + PlainTokens(b)
  {
    SplitAtSep(a, b, ' ');
    CleanAppend(Split(a, ' '), Split(b, ' '));
  }

  /** A value without spaces is one token, trimmed, or none when it is
      blank. */
  lemma PlainTokensNoSpace(s: string)
    requires ' ' !in s
    ensures PlainTokens(s) == if Trim(s) == "" then [] else [Trim(s)]
  {
    SplitNoSep(s, ' ');
    assert [s][1..] == [];
  }

  /** Leading and repeated spaces produce no empty tokens: `" -C  x"`
      gives `-C` and `x`. */
  lemma PlainTokensExtraSpaces(a: string, b: string)
    requires IsPlainToken(a) && IsPlainToken(b)
    ensures PlainTokens([' '] + a + [' ', ' '] + b) == [a, b]
  {
    var s2 := a + [' '] + ([' '] + b);
    assert PlainTokens(a) == [a] && PlainTokens(b) == [b] by {
      PlainTokensNoSpace(a);
      PlainTokensNoSpace(b);
    }
    PlainTokensLeadSpace(b);
    PlainTokensAtSpace(a, [' '] + b);
    PlainTokensLeadSpace(s2);
    assert [' '] + s2 == [' '] + a + [' ', ' '] + b;
  }

  /** An empty value has no tokens. */
  lemma PlainTokensEmpty()
    ensures PlainTokens("") == []
  {
    assert Split("", ' ') == [""];
    assert Trim("") == "";
    assert [""][1..] == [];
  }

  /** A leading space adds no token. */
  lemma PlainTokensLeadSpace(s: string)
    ensures PlainTokens([' '] + s) == PlainTokens(s)
  {
    PlainTokensEmpty();
    PlainTokensAtSpace("", s);
    assert "" + [' '] + s == [' '] + s;
  }

  /** Tokens that are already clean pass through unchanged. */
  lemma {:induction false} CleanKeepsTokens(toks: seq<string>)
    requires forall i :: 0 <= i < |toks| ==> IsPlainToken(toks[i])
    ensures CleanPieces(toks) == toks
  {
    if |toks| > 0 {
      CleanKeepsFirst(toks);
      var rest := toks[1..];
      forall k | 0 <= k < |rest|
        ensures IsPlainToken(rest[k])
      {
        assert rest[k] == toks[k + 1];
      }
      CleanKeepsTokens(rest);
      assert [toks[0]] + rest == toks;
    }
  }

  lemma CleanKeepsFirst(pieces: seq<string>)
    requires |pieces| > 0 && IsPlainToken(pieces[0])
    ensures CleanPieces(pieces) == [pieces[0]] + CleanPieces(pieces[1..])
  {
    assert Trim(pieces[0]) == pieces[0];
  }

  /** Joining clean tokens with single spaces and tokenizing again gives
      back the tokens. */
  lemma PlainTokensRoundTrip(toks: seq<string>)
    requires forall i :: 0 <= i < |toks| ==> IsPlainToken(toks[i])
    ensures PlainTokens(Join(toks, ' ')) == toks
  {
    if |toks| == 0 {
      assert Split("", ' ') == [""];
    } else {
      SplitJoin(toks, ' ');
      CleanKeepsTokens(toks);
    }
  }

  /** The flags the wrapper starts from: the encoded variable split verbatim
      when it is set and UTF-8, else the tokens of `RUSTFLAGS`, else none. */
  function ExistingFlags(env: Env): (r: seq<string>)
    ensures Var(env, EncodedVar).Some? ==> |r| >= 1 && Join(r, UnitSep) == Var(env, EncodedVar).value
    ensures forall i :: 0 <= i < |r| && Var(env, EncodedVar).Some? ==> UnitSep !in r[i]
    ensures forall i :: 0 <= i < |r| && Var(env, EncodedVar).None? ==> IsPlainToken(r[i])
    ensures Var(env, EncodedVar).None? && Var(env, PlainVar).Some? ==> r == PlainTokens(Var(env, PlainVar).value)
    ensures Var(env, EncodedVar).None? && Var(env, PlainVar).None? ==> r == []
  {
    match Var(env, EncodedVar)
    case Some(e) => JoinSplit(e, UnitSep); Split(e, UnitSep)
    case None =>
      match Var(env, PlainVar)
      case Some(p) => PlainTokens(p)
      case None => []
  }

  /** The four tokens appended: a library search path and the builtins. */
  function BuiltinsFlags(rtDir: string): seq<string> {
    ["-L", rtDir, "-l", BuiltinsLib]
  }

  /** The new `CARGO_ENCODED_RUSTFLAGS` value: the existing flags, then
      one `\x1f`, then the four new tokens; only the new tokens when there
      were none. */
  function MergedFlags(env: Env, rtDir: string): (r: string)
    ensures |ExistingFlags(env)| > 0 ==>
      r == Join(ExistingFlags(env), UnitSep) + [UnitSep] + Join(BuiltinsFlags(rtDir), UnitSep)
    ensures |ExistingFlags(env)| == 0 ==> r == Join(BuiltinsFlags(rtDir), UnitSep)
  {
    var existing := ExistingFlags(env);
    JoinAfter(existing, BuiltinsFlags(rtDir), UnitSep);
    Join(existing + BuiltinsFlags(rtDir), UnitSep)
  }

  /** With an encoded value present, the result is that value verbatim
      (an empty one included), one separator, and the four new tokens. */
  lemma MergedKeepsEncoded(env: Env, rtDir: string)
    requires Var(env, EncodedVar).Some?
    ensures MergedFlags(env, rtDir) == Var(env, EncodedVar).value + [UnitSep] + Join(BuiltinsFlags(rtDir), UnitSep)
  {
    JoinAppend(ExistingFlags(env), BuiltinsFlags(rtDir), UnitSep);
  }

  /** Decoding the result gives the existing flags in order, then exactly
      the four new tokens. */
  lemma MergedDecodes(env: Env, rtDir: string)
    requires UnitSep !in rtDir
    requires forall i :: 0 <= i < |ExistingFlags(env)| ==> UnitSep !in ExistingFlags(env)[i]
    ensures Split(MergedFlags(env, rtDir), UnitSep) == ExistingFlags(env) + BuiltinsFlags(rtDir)
  {
    var all := ExistingFlags(env) + BuiltinsFlags(rtDir);
    assert forall i :: |ExistingFlags(env)| <= i < |all| ==> all[i] == BuiltinsFlags(rtDir)[i - |ExistingFlags(env)|];
    SplitJoin(all, UnitSep);
  }

  /** Without the encoded variable, clean tokens written into `RUSTFLAGS`
      separated by single spaces are the existing flags, in order. */
  lemma PlainFlagsRoundTrip(env: Env, toks: seq<string>)
    requires Var(env, EncodedVar).None?
    requires PlainVar in env && env[PlainVar] == Utf8(Join(toks, ' '))
    requires forall i :: 0 <= i < |toks| ==> IsPlainToken(toks[i])
    ensures ExistingFlags(env) == toks
  {
    PlainTokensRoundTrip(toks);
  }

  /** `CARGO_ENCODED_RUSTFLAGS` takes precedence: `RUSTFLAGS` is then ignored. */
  lemma EncodedTakesPrecedence(env: Env, v: OsStr)
    requires Var(env, EncodedVar).Some?
    ensures ExistingFlags(env[PlainVar := v]) == ExistingFlags(env)
  {
    assert Var(env[PlainVar := v], EncodedVar) == Var(env, EncodedVar);
  }
}
