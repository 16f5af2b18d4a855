/** Choosing the Android API level: the `ANDROID_API` override, or the
    highest numeric entry of the sysroot's per-target library directory. */
module ApiLevel {
  import opened Base
  import opened Text
  import opened Os

  const ApiVar: string := "ANDROID_API"

  /** Rust's `u8`. */
  type U8 = x: int | 0 <= x < 256

  predicate IsDigit(c: char) {
    '0' <= c <= '9'
  }

  predicate AllDigits(s: string) {
    forall i :: 0 <= i < |s| ==> IsDigit(s[i])
  }

  function DigitValue(c: char): nat
    requires IsDigit(c)
  {
    c as int - '0' as int
  }

  function DigitChar(d: nat): (c: char)
    requires d < 10
    ensures IsDigit(c) && DigitValue(c) == d
  {
    ('0' as int + d) as char
  }

  /** The number a string of decimal digits denotes, most significant first. */
  function DecimalValue(ds: string): nat
    requires AllDigits(ds)
  {
    if |ds| == 0 then 0 else 10 * DecimalValue(ds[..|ds| - 1]) + DigitValue(ds[|ds| - 1])
  }

  /** `s.parse::<u8>()`: an optional single `+`, then one or more ASCII
      digits whose value is at most 255. Leading zeros are allowed; a `-`,
      any other character, an empty string or a lone `+` are rejected. A
      string accepted without a sign or a leading zero is the shortest
      decimal form of its value. */
  function ParseU8(s: string): (r: Option<U8>)
    ensures r.Some? ==> |s| > 0 && (s == FormatDecimal(r.value) || s[0] == '+' || s[0] == '0')
    ensures r.Some? ==> var d := if s[0] == '+' then s[1..] else s; |d| > 0 && AllDigits(d) && DecimalValue(d) == r.value
  {
    var digits := if |s| > 0 && s[0] == '+' then s[1..] else s;
    if |digits| == 0 || !AllDigits(digits) then None
    else
      var v := DecimalValue(digits);
      if v > 255 then None
      else if digits == s && s[0] != '0' then FormatOfCanonical(s); Some(v)
      else Some(v)
  }

  /** A digit string without a leading zero denotes a positive number. */
  lemma {:induction false} PositiveValue(ds: string)
    requires |ds| > 0 && AllDigits(ds) && ds[0] != '0'
    ensures DecimalValue(ds) > 0
    decreases |ds|
  {
    if |ds| > 1 {
      var init := ds[..|ds| - 1];
      assert init[0] == ds[0];
      PositiveValue(init);
    }
  }

  /** A digit string without a leading zero is the shortest decimal form
      of its value. */
  lemma {:induction false} FormatOfCanonical(ds: string)
    requires |ds| > 0 && AllDigits(ds) && ds[0] != '0'
    ensures FormatDecimal(DecimalValue(ds)) == ds
    decreases |ds|
  {
    var last := ds[|ds| - 1];
    assert DigitChar(DigitValue(last)) == last;
    if |ds| > 1 {
      var init := ds[..|ds| - 1];
      assert init[0] == ds[0];
      FormatOfCanonical(init);
      PositiveValue(init);
      var n := DecimalValue(ds);
      assert n / 10 == DecimalValue(init) && n % 10 == DigitValue(last);
      assert ds == init + [last];
    }
  }

  /** `format!("{n}")` for a natural number: shortest decimal form. */
  function FormatDecimal(n: nat): (r: string)
    ensures |r| >= 1 && AllDigits(r)
    ensures |r| > 1 ==> r[0] != '0'
  {
    if n < 10 then [DigitChar(n)] else FormatDecimal(n / 10) + [DigitChar(n % 10)]
  }

  /** Formatting then reading back a number gives the number. */
  lemma {:induction false} DecimalValueOfFormat(n: nat)
    ensures DecimalValue(FormatDecimal(n)) == n
  {
    if n >= 10 {
      var f := FormatDecimal(n);
      DecimalValueOfFormat(n / 10);
      assert f[..|f| - 1] == FormatDecimal(n / 10);
    }
  }

  /** Every `u8`, as the wrapper prints it into a compiler name, parses back
      to itself. */
  lemma ParseFormatRoundTrip(n: U8)
    ensures ParseU8(FormatDecimal(n)) == Some(n)
  {
    DecimalValueOfFormat(n);
  }

  /** A leading zero does not change the value of a digit string. */
  lemma {:induction false} LeadingZeroValue(ds: string)
    requires AllDigits(ds)
    ensures AllDigits("0" + ds) && DecimalValue("0" + ds) == DecimalValue(ds)
    decreases |ds|
  {
    var z := "0" + ds;
    if |ds| > 0 {
      assert z[..|z| - 1] == "0" + ds[..|ds| - 1];
      LeadingZeroValue(ds[..|ds| - 1]);
    }
  }

  /** The forms `u8` parsing accepts beyond the shortest one: one leading `+`
      and any number of leading zeros; a leading `-` is always rejected. */
  lemma ParseU8Variants(s: string)
    ensures (|s| == 0 || s[0] != '+') ==> ParseU8("+" + s) == ParseU8(s)
    ensures |s| > 0 && AllDigits(s) ==> ParseU8("0" + s) == ParseU8(s)
    ensures ParseU8("-" + s) == None
    ensures ParseU8("") == None && ParseU8("+") == None
  {
    assert ("+" + s)[1..] == s;
    if |s| > 0 && AllDigits(s) {
      LeadingZeroValue(s);
    }
    assert ("-" + s)[0] == '-';
  }

  /** The API level a directory entry names, if its name is a UTF-8 `u8`. */
  function EntryApi(e: DirEntry): Option<U8> {
    match e
    case EntryError => None
    case Entry(name) =>
      match name.ToStr()
      case None => None
      case Some(n) => ParseU8(n)
  }

  /** `m` is the largest level any entry names. */
  predicate IsMaxApi(entries: seq<DirEntry>, m: U8) {
    && (exists i :: 0 <= i < |entries| && EntryApi(entries[i]) == Some(m))
    && (forall i :: 0 <= i < |entries| && EntryApi(entries[i]).Some? ==> EntryApi(entries[i]).value <= m)
  }

  /** The `filter_map(..).max()` over a listing. */
  function MaxApi(entries: seq<DirEntry>): (r: Option<U8>)
    ensures r.None? <==> forall i :: 0 <= i < |entries| ==> EntryApi(entries[i]).None?
    ensures r.Some? ==> IsMaxApi(entries, r.value)
  {
    if |entries| == 0 then None
    else
      var rest := MaxApi(entries[1..]);
      assert forall i :: 1 <= i < |entries| ==> entries[i] == entries[1..][i - 1];
      match EntryApi(entries[0])
      case None => rest
      case Some(v) =>
        match rest
        case None => Some(v)
        case Some(m) => Some(if v >= m then v else m)
  }

  /** The `api` binding of `get_android_env`. */
  function ChooseApi(env: Env, fs: Fs, libDir: OsStr): (r: Result<U8>)
    ensures ApiVar in env ==> (r.Ok? <==> env[ApiVar].Utf8? && ParseU8(env[ApiVar].text).Some?)
    ensures ApiVar in env && r.Ok? ==> ParseU8(env[ApiVar].text) == Some(r.value)
    ensures ApiVar in env && r.Err? ==> r.error == InvalidApi
    ensures ApiVar !in env ==> (r.Ok? <==> libDir in fs.dirs && MaxApi(fs.dirs[libDir]).Some?)
    ensures ApiVar !in env && r.Ok? ==> IsMaxApi(fs.dirs[libDir], r.value)
    ensures ApiVar !in env && libDir !in fs.dirs ==> r == Err(LibDirUnreadable)
    ensures ApiVar !in env && libDir in fs.dirs && r.Err? ==> r.error == NoApiLevels
  {
    match VarOs(env, ApiVar)
    case Some(v) =>
      (match v.ToStr()
       case None => Err(InvalidApi)
       case Some(s) =>
         match ParseU8(s)
         case None => Err(InvalidApi)
         case Some(n) => Ok(n))
    case None =>
      match fs.ReadDir(libDir)
      case None => Err(LibDirUnreadable)
      case Some(entries) =>
        match MaxApi(entries)
        case None => Err(NoApiLevels)
        case Some(m) => Ok(m)
  }

  /** A set `ANDROID_API` wins: the filesystem is not consulted at all. */
  lemma OverrideWins(env: Env, fs: Fs, d: OsStr, fs': Fs, d': OsStr)
    requires ApiVar in env
    ensures ChooseApi(env, fs, d) == ChooseApi(env, fs', d')
  {
  }
}
