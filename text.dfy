/**
 * String primitives shared by the C# and JavaScript parts of the application:
 * white space as each runtime defines it, trimming, case mapping, substring
 * search, decimal integer text, and splitting on runs of separators.
 */
module Text {
  import opened Wrappers

  /** The two runtimes whose string functions the application relies on. */
  datatype Runtime = DotNet | JavaScript

  /**
   * White space. On .NET this is char.IsWhiteSpace (also used by String.Trim,
   * string.IsNullOrWhiteSpace and the regular-expression class \s); in
   * JavaScript it is WhiteSpace plus LineTerminator (String.prototype.trim and
   * \s). They differ in U+0085 (only .NET) and U+FEFF (only JavaScript).
   */
  predicate IsSpace(rt: Runtime, c: char) {
    ('\t' <= c <= '\r') || c == ' ' || c == '\U{00A0}' || c == '\U{1680}'
    || ('\U{2000}' <= c <= '\U{200A}') || c == '\U{2028}' || c == '\U{2029}'
    || c == '\U{202F}' || c == '\U{205F}' || c == '\U{3000}'
    || (rt == DotNet && c == '\U{0085}')
    || (rt == JavaScript && c == '\U{FEFF}')
  }

  predicate AllSpace(rt: Runtime, s: string) {
    forall i :: 0 <= i < |s| ==> IsSpace(rt, s[i])
  }

  /** string.IsNullOrWhiteSpace on a non-null string. */
  predicate IsBlank(s: string) {
    AllSpace(DotNet, s)
  }

  /** A string with no white space at either end. */
  predicate Trimmed(rt: Runtime, s: string) {
    s == [] || (!IsSpace(rt, s[0]) && !IsSpace(rt, s[|s| - 1]))
  }

  function TrimStart(rt: Runtime, s: string): (r: string)
    ensures |r| <= |s| && r == s[|s| - |r|..]
    ensures AllSpace(rt, s[..|s| - |r|])
    ensures r == [] || !IsSpace(rt, r[0])
  {
    if s != [] && IsSpace(rt, s[0]) then TrimStart(rt, s[1..]) else s
  }

  function TrimEnd(rt: Runtime, s: string): (r: string)
    ensures |r| <= |s| && r == s[..|r|]
    ensures AllSpace(rt, s[|r|..])
    ensures r == [] || !IsSpace(rt, r[|r| - 1])
  {
    if s != [] && IsSpace(rt, s[|s| - 1]) then TrimEnd(rt, s[..|s| - 1]) else s
  }

  /** String.Trim() on .NET, String.prototype.trim() in JavaScript. */
  function Trim(rt: Runtime, s: string): (r: string)
    ensures Trimmed(rt, r)
    ensures |r| <= |s|
  {
    TrimEnd(rt, TrimStart(rt, s))
  }

  /** Trim removes a white-space prefix and suffix and nothing else. */
  lemma TrimSplits(rt: Runtime, s: string) returns (a: string, b: string)
    ensures s == a + Trim(rt, s) + b
    ensures AllSpace(rt, a) && AllSpace(rt, b)
  {
    var t := TrimStart(rt, s);
    a := StartSplits(rt, s);
    b := EndSplits(rt, t);
    Regroup3(s, a, t, TrimEnd(rt, t), b);
  }

  lemma Regroup3<T>(s: seq<T>, a: seq<T>, t: seq<T>, r: seq<T>, b: seq<T>)
    requires s == a + t && t == r + b
    ensures s == a + r + b
  {
  }

  lemma StartSplits(rt: Runtime, s: string) returns (a: string)
    ensures s == a + TrimStart(rt, s) && AllSpace(rt, a)
  {
    var t := TrimStart(rt, s);
    a := s[..|s| - |t|];
    SplitAt(s, |s| - |t|);
  }

  lemma EndSplits(rt: Runtime, t: string) returns (b: string)
    ensures t == TrimEnd(rt, t) + b && AllSpace(rt, b)
  {
    var r := TrimEnd(rt, t);
    b := t[|r|..];
    SplitAt(t, |r|);
  }

  lemma SplitAt<T>(s: seq<T>, k: nat)
    requires k <= |s|
    ensures s == s[..k] + s[k..]
  {
  }

  lemma {:induction false} TrimStartPadded(rt: Runtime, a: string, m: string)
    requires AllSpace(rt, a)
    requires m == [] || !IsSpace(rt, m[0])
    ensures TrimStart(rt, a + m) == m
  {
    if a != [] {
      assert (a + m)[0] == a[0] && IsSpace(rt, a[0]);
      assert (a + m)[1..] == a[1..] + m;
      AllSpaceTail(rt, a);
      TrimStartPadded(rt, a[1..], m);
    } else {
      assert a + m == m;
    }
  }

  lemma AllSpaceTail(rt: Runtime, a: string)
    requires a != [] && AllSpace(rt, a)
    ensures AllSpace(rt, a[1..]) && AllSpace(rt, a[..|a| - 1])
  {
    assert forall i :: 0 <= i < |a| - 1 ==> a[1..][i] == a[i + 1] && a[..|a| - 1][i] == a[i];
  }

  lemma {:induction false} TrimEndPadded(rt: Runtime, m: string, b: string)
    requires AllSpace(rt, b)
    requires m == [] || !IsSpace(rt, m[|m| - 1])
    ensures TrimEnd(rt, m + b) == m
  {
    if b != [] {
      assert (m + b)[|m + b| - 1] == b[|b| - 1] && IsSpace(rt, b[|b| - 1]);
      assert (m + b)[..|m + b| - 1] == m + b[..|b| - 1];
      AllSpaceTail(rt, b);
      TrimEndPadded(rt, m, b[..|b| - 1]);
    } else {
      assert m + b == m;
    }
  }

  /** Whatever white space surrounds a trimmed string, Trim gives that string back. */
  lemma TrimUnique(rt: Runtime, a: string, m: string, b: string)
    requires AllSpace(rt, a) && AllSpace(rt, b) && Trimmed(rt, m)
    ensures Trim(rt, a + m + b) == m
  {
    if m == [] {
      assert a + m + b == a + b;
      assert AllSpace(rt, a + b);
      TrimStartPadded(rt, a + b, []);
      assert a + b + [] == a + b;
    } else {
      assert a + m + b == a + (m + b);
      TrimStartPadded(rt, a, m + b);
      TrimEndPadded(rt, m, b);
    }
  }

  lemma TrimIdempotent(rt: Runtime, s: string)
    ensures Trim(rt, Trim(rt, s)) == Trim(rt, s)
  {
    var m := Trim(rt, s);
    assert [] + m + [] == m;
    TrimUnique(rt, [], m, []);
  }

  lemma AllSpaceConcat(rt: Runtime, x: string, y: string)
    requires AllSpace(rt, x) && AllSpace(rt, y)
    ensures AllSpace(rt, x + y)
  {
    forall i | 0 <= i < |x + y|
      ensures IsSpace(rt, (x + y)[i])
    {
      if i < |x| { assert (x + y)[i] == x[i]; } else { assert (x + y)[i] == y[i - |x|]; }
    }
  }

  lemma Regroup<T>(a: seq<T>, s: seq<T>, b: seq<T>, a': seq<T>, m: seq<T>, b': seq<T>)
    requires s == a' + m + b'
    ensures a + s + b == (a + a') + m + (b' + b)
  {
  }

  /** Surrounding white space does not change the trimmed text. */
  lemma TrimIgnoresPadding(rt: Runtime, a: string, s: string, b: string)
    requires AllSpace(rt, a) && AllSpace(rt, b)
    ensures Trim(rt, a + s + b) == Trim(rt, s)
  {
    var a', b' := TrimSplits(rt, s);
    var m := Trim(rt, s);
    Regroup(a, s, b, a', m, b');
    AllSpaceConcat(rt, a, a');
    AllSpaceConcat(rt, b', b);
    TrimUnique(rt, a + a', m, b' + b);
  }

  lemma TrimEmptyIffBlank(rt: Runtime, s: string)
    ensures Trim(rt, s) == [] <==> AllSpace(rt, s)
  {
    var a, b := TrimSplits(rt, s);
    if AllSpace(rt, s) {
      assert s + [] + [] == s;
      TrimUnique(rt, s, [], []);
    }
    if Trim(rt, s) == [] {
      assert s == a + b;
    }
  }

  /** Every character of the trimmed string occurs in the original. */
  lemma TrimKeepsOnly(rt: Runtime, s: string, c: char)
    requires c in Trim(rt, s)
    ensures c in s
  {
    var t := TrimStart(rt, s);
    var r := TrimEnd(rt, t);
    var i :| 0 <= i < |r| && r[i] == c;
    assert r[i] == t[i];
    assert t[i] == s[|s| - |t| + i];
  }

  // ---------------------------------------------------------------------
  // Case mapping (ToUpperInvariant / ToLowerInvariant / toLowerCase) for
  // Basic Latin and the Latin-1 letters.

  predicate IsUpper(c: char) {
    ('A' <= c <= 'Z') || ('\U{00C0}' <= c <= '\U{00DE}' && c != '\U{00D7}')
  }

  predicate IsLower(c: char) {
    ('a' <= c <= 'z') || ('\U{00E0}' <= c <= '\U{00FE}' && c != '\U{00F7}')
  }

  function ToUpperChar(c: char): (r: char)
    ensures IsLower(c) ==> IsUpper(r) && r as int == c as int - 32
    ensures !IsLower(c) ==> r == c
  {
    if IsLower(c) then (c as int - 32) as char else c
  }

  function ToLowerChar(c: char): (r: char)
    ensures IsUpper(c) ==> IsLower(r) && r as int == c as int + 32
    ensures !IsUpper(c) ==> r == c
  {
    if IsUpper(c) then (c as int + 32) as char else c
  }

  function Upper(s: string): (r: string)
    ensures |r| == |s| && forall i :: 0 <= i < |s| ==> r[i] == ToUpperChar(s[i])
  {
    seq(|s|, i requires 0 <= i < |s| => ToUpperChar(s[i]))
  }

  function Lower(s: string): (r: string)
    ensures |r| == |s| && forall i :: 0 <= i < |s| ==> r[i] == ToLowerChar(s[i])
  {
    seq(|s|, i requires 0 <= i < |s| => ToLowerChar(s[i]))
  }

  lemma LowerHasNoUpper(s: string)
    ensures forall i :: 0 <= i < |s| ==> !IsUpper(Lower(s)[i])
  {
  }

  /** Lowering a string that has no capitals leaves it unchanged. */
  lemma LowerNoUpper(s: string)
    requires forall i :: 0 <= i < |s| ==> !IsUpper(s[i])
    ensures Lower(s) == s
  {
  }

  lemma LowerIdempotent(s: string)
    ensures Lower(Lower(s)) == Lower(s)
  {
  }

  lemma LowerConcat(a: string, b: string)
    ensures Lower(a + b) == Lower(a) + Lower(b)
  {
  }

  lemma LowerKeepsSpace(rt: Runtime, c: char)
    ensures IsSpace(rt, ToLowerChar(c)) <==> IsSpace(rt, c)
  {
  }

  lemma LowerAllSpace(rt: Runtime, a: string)
    requires AllSpace(rt, a)
    ensures AllSpace(rt, Lower(a))
  {
    forall i | 0 <= i < |a|
      ensures IsSpace(rt, Lower(a)[i])
    {
      LowerKeepsSpace(rt, a[i]);
    }
  }

  /** Lower-casing a trimmed string leaves it trimmed. */
  lemma LowerTrimmed(rt: Runtime, s: string)
    requires Trimmed(rt, s)
    ensures Trimmed(rt, Lower(s))
  {
    if s != [] {
      LowerKeepsSpace(rt, s[0]);
      LowerKeepsSpace(rt, s[|s| - 1]);
    }
  }

  /** Lower-casing neither creates nor removes white space, so it commutes with Trim. */
  lemma TrimLowerCommute(rt: Runtime, s: string)
    ensures Trim(rt, Lower(s)) == Lower(Trim(rt, s))
  {
    var a, b := TrimSplits(rt, s);
    var m := Trim(rt, s);
    LowerConcat3(a, m, b);
    LowerAllSpace(rt, a);
    LowerAllSpace(rt, b);
    LowerTrimmed(rt, m);
    TrimUnique(rt, Lower(a), Lower(m), Lower(b));
  }

  lemma LowerConcat3(a: string, m: string, b: string)
    ensures Lower(a + m + b) == Lower(a) + Lower(m) + Lower(b)
  {
    LowerConcat(a, m);
    LowerConcat(a + m, b);
  }

  /** Ordinal comparison ignoring case (StringComparison.OrdinalIgnoreCase). */
  predicate EqualsIgnoreCase(a: string, b: string) {
    Upper(a) == Upper(b)
  }

  /** String.EndsWith(suffix, StringComparison.OrdinalIgnoreCase). */
  predicate EndsWithIgnoreCase(s: string, suffix: string) {
    |suffix| <= |s| && EqualsIgnoreCase(s[|s| - |suffix|..], suffix)
  }

  // ---------------------------------------------------------------------
  // Searching

  /** String.IndexOf(char): the first position of c, or -1. */
  function IndexOf(s: string, c: char): (r: int)
    ensures -1 <= r < |s|
    ensures r >= 0 ==> s[r] == c && c !in s[..r]
    ensures r == -1 <==> c !in s
  {
    if s == [] then -1
    else if s[0] == c then 0
    else
      var k := IndexOf(s[1..], c);
      assert s == [s[0]] + s[1..];
      if k == -1 then -1
      else
        assert s[..k + 1] == [s[0]] + s[1..][..k];
        k + 1
  }

  /** String.prototype.includes: t occurs in s as a contiguous block. */
  predicate Contains(s: string, t: string)
    decreases |s|
  {
    |t| <= |s| && (s[..|t|] == t || Contains(s[1..], t))
  }

  lemma {:induction false} ContainsAt(s: string, t: string, i: nat)
    requires i + |t| <= |s| && s[i..i + |t|] == t
    ensures Contains(s, t)
  {
    if i > 0 {
      assert s[1..][i - 1..i - 1 + |t|] == s[i..i + |t|];
      ContainsAt(s[1..], t, i - 1);
    }
  }

  lemma {:induction false} ContainsWitness(s: string, t: string) returns (i: nat)
    requires Contains(s, t)
    ensures i + |t| <= |s| && s[i..i + |t|] == t
    decreases |s|
  {
    if s[..|t|] == t {
      i := 0;
    } else {
      var j := ContainsWitness(s[1..], t);
      assert s[1..][j..j + |t|] == s[j + 1..j + 1 + |t|];
      i := j + 1;
    }
  }

  // ---------------------------------------------------------------------
  // Decimal integer text

  predicate IsDigit(c: char) {
    '0' <= c <= '9'
  }

  predicate AllDigits(s: string) {
    forall i :: 0 <= i < |s| ==> IsDigit(s[i])
  }

  function DigitChar(d: nat): (c: char)
    requires d < 10
    ensures IsDigit(c) && c as int - '0' as int == d
  {
    ('0' as int + d) as char
  }

  function NatToString(n: nat): (r: string)
    ensures |r| >= 1 && AllDigits(r)
    decreases n
  {
    if n < 10 then [DigitChar(n)] else NatToString(n / 10) + [DigitChar(n % 10)]
  }

  /** Number-to-text for integral values: an optional '-' and the decimal digits. */
  function IntToString(n: int): string {
    if n < 0 then "-" + NatToString(-n) else NatToString(n)
  }

  function DigitsValue(s: string): nat
    requires AllDigits(s)
  {
    if s == [] then 0 else DigitsValue(s[..|s| - 1]) * 10 + (s[|s| - 1] as int - '0' as int)
  }

  lemma {:induction false} NatToStringValue(n: nat)
    ensures DigitsValue(NatToString(n)) == n
    decreases n
  {
    if n >= 10 {
      var r := NatToString(n);
      assert r[..|r| - 1] == NatToString(n / 10);
      NatToStringValue(n / 10);
    }
  }

  /** The length of the leading run of decimal digits. */
  function DigitRun(s: string): (k: nat)
    ensures k <= |s| && AllDigits(s[..k])
    ensures k < |s| ==> !IsDigit(s[k])
  {
    if s != [] && IsDigit(s[0]) then
      var k := DigitRun(s[1..]);
      assert s[..k + 1] == [s[0]] + s[1..][..k];
      k + 1
    else 0
  }

  /** The value of the leading run of decimal digits, or None when there is none. */
  function ParseDigits(u: string): Option<nat> {
    var k := DigitRun(u);
    if k == 0 then None else Some(DigitsValue(u[..k]))
  }

  /**
   * Number.parseInt(s, 10) followed by Number.isFinite: skip leading white
   * space, read an optional sign and the longest run of decimal digits, and
   * ignore the rest; None when there is no digit.
   */
  function ParseInt(s: string): Option<int> {
    var t := TrimStart(JavaScript, s);
    if t != [] && t[0] == '-' then
      match ParseDigits(t[1..])
      case Some(v) => Some(0 - v)
      case None => None
    else if t != [] && t[0] == '+' then ParseDigits(t[1..])
    else ParseDigits(t)
  }

  lemma DigitRunOfDigits(d: string, rest: string)
    requires AllDigits(d)
    requires rest == [] || !IsDigit(rest[0])
    ensures DigitRun(d + rest) == |d|
    decreases |d|
  {
    if d != [] {
      assert (d + rest)[1..] == d[1..] + rest;
      DigitRunOfDigits(d[1..], rest);
    } else {
      assert d + rest == rest;
    }
  }

  lemma ParseDigitsOf(d: string, rest: string)
    requires d != [] && AllDigits(d)
    requires rest == [] || !IsDigit(rest[0])
    ensures ParseDigits(d + rest) == Some(DigitsValue(d))
  {
    DigitRunOfDigits(d, rest);
    assert (d + rest)[..|d|] == d;
  }

  lemma TrimStartNoSpace(rt: Runtime, s: string)
    requires s != [] && !IsSpace(rt, s[0])
    ensures TrimStart(rt, s) == s
  {
  }

  lemma ParseIntSigned(d: string, rest: string, s: string)
    requires d != [] && AllDigits(d)
    requires rest == [] || !IsDigit(rest[0])
    requires s == ['-'] + (d + rest)
    ensures ParseInt(s) == Some(0 - DigitsValue(d))
  {
    ParseDigitsOf(d, rest);
    TrimStartNoSpace(JavaScript, s);
    assert s[1..] == d + rest;
  }

  lemma ParseIntUnsigned(d: string, rest: string, s: string)
    requires d != [] && AllDigits(d)
    requires rest == [] || !IsDigit(rest[0])
    requires s == d + rest
    ensures ParseInt(s) == Some(DigitsValue(d))
  {
    ParseDigitsOf(d, rest);
    TrimStartNoSpace(JavaScript, s);
  }

  /** parseInt reads back the text of an integer, whatever non-digit text follows it. */
  lemma ParseIntToString(n: int, rest: string)
    requires rest == [] || !IsDigit(rest[0])
    ensures ParseInt(IntToString(n) + rest) == Some(n)
  {
    var m: nat := if n < 0 then -n else n;
    var d := NatToString(m);
    NatToStringValue(m);
    if n < 0 {
      ParseIntSigned(d, rest, IntToString(n) + rest);
    } else {
      ParseIntUnsigned(d, rest, IntToString(n) + rest);
    }
  }

  // ---------------------------------------------------------------------
  // Joining and splitting

  /** Array.prototype.join / string.Join. */
  function Join(xs: seq<string>, sep: string): string {
    if xs == [] then ""
    else if |xs| == 1 then xs[0]
    else xs[0] + sep + Join(xs[1..], sep)
  }

  /** A separator of the list pattern /[,\s;]+/. */
  predicate IsListSep(c: char) {
    c == ',' || c == ';' || IsSpace(JavaScript, c)
  }

  predicate NoListSep(s: string) {
    forall i :: 0 <= i < |s| ==> !IsListSep(s[i])
  }

  /** The position of the first separator, or |s|. */
  function FirstSep(s: string): (k: nat)
    ensures k <= |s| && NoListSep(s[..k])
    ensures k < |s| ==> IsListSep(s[k])
  {
    if s == [] then 0
    else if IsListSep(s[0]) then 0
    else
      var k := FirstSep(s[1..]);
      assert s[..k + 1] == [s[0]] + s[1..][..k];
      k + 1
  }

  /** The length of the leading run of separators. */
  function SepRun(s: string): (k: nat)
    ensures k <= |s|
    ensures k < |s| ==> !IsListSep(s[k])
  {
    if s != [] && IsListSep(s[0]) then SepRun(s[1..]) + 1 else 0
  }

  /**
   * String.prototype.split(/[,\s;]+/): the pieces between maximal runs of
   * separators, with an empty first or last piece when the text starts or
   * ends with a separator.
   */
  function SplitList(s: string): (r: seq<string>)
    ensures |r| >= 1
    ensures forall i :: 0 <= i < |r| ==> NoListSep(r[i])
    decreases |s|
  {
    var k := FirstSep(s);
    if k == |s| then [s]
    else
      var n := SepRun(s[k..]);
      assert n >= 1;
      [s[..k]] + SplitList(s[k + n..])
  }

  lemma FirstSepOf(p: string, rest: string)
    requires NoListSep(p)
    requires rest == [] || IsListSep(rest[0])
    ensures FirstSep(p + rest) == |p|
    decreases |p|
  {
    if p != [] {
      assert (p + rest)[1..] == p[1..] + rest;
      FirstSepOf(p[1..], rest);
    } else {
      assert p + rest == rest;
    }
  }

  lemma SplitSingle(p: string)
    requires NoListSep(p)
    ensures SplitList(p) == [p]
  {
    assert p + "" == p;
    FirstSepOf(p, "");
  }

  lemma SplitStep(p: string, rest: string)
    requires NoListSep(p)
    requires rest != [] && !IsListSep(rest[0])
    ensures SplitList(p + "," + rest) == [p] + SplitList(rest)
  {
    var s := p + "," + rest;
    assert s == p + ("," + rest);
    FirstSepOf(p, "," + rest);
    assert s[..|p|] == p;
    assert s[|p|..] == "," + rest;
    assert ("," + rest)[1..] == rest;
    assert SepRun("," + rest) == 1;
    assert s[|p| + 1..] == rest;
  }

  lemma JoinStarts(xs: seq<string>)
    requires |xs| >= 1 && xs[0] != []
    ensures Join(xs, ",") != [] && Join(xs, ",")[0] == xs[0][0]
  {
  }

  /** Splitting undoes joining with "," when the pieces are non-empty and separator-free. */
  lemma {:induction false} SplitJoin(xs: seq<string>)
    requires |xs| >= 1
    requires forall i :: 0 <= i < |xs| ==> xs[i] != [] && NoListSep(xs[i])
    ensures SplitList(Join(xs, ",")) == xs
  {
    if |xs| == 1 {
      SplitSingle(xs[0]);
    } else {
      var rest := Join(xs[1..], ",");
      JoinStarts(xs[1..]);
      assert NoListSep(xs[1]);
      SplitStep(xs[0], rest);
      SplitJoin(xs[1..]);
      assert xs == [xs[0]] + xs[1..];
    }
  }

  predicate AllListSep(s: string) {
    forall i :: 0 <= i < |s| ==> IsListSep(s[i])
  }

  lemma {:induction false} SepRunOf(r: string, rest: string)
    requires AllListSep(r)
    requires rest == [] || !IsListSep(rest[0])
    ensures SepRun(r + rest) == |r|
    decreases |r|
  {
    if r != [] {
      assert (r + rest)[0] == r[0];
      assert (r + rest)[1..] == r[1..] + rest;
      SepRunOf(r[1..], rest);
    } else {
      assert r + rest == rest;
    }
  }

  /**
   * The split takes off one piece at a time: a separator-free prefix (empty
   * when the text starts with a separator) and the whole run of separators
   * after it.
   */
  lemma SplitRun(p: string, r: string, rest: string)
    requires NoListSep(p)
    requires r != [] && AllListSep(r)
    requires rest == [] || !IsListSep(rest[0])
    ensures SplitList(p + r + rest) == [p] + SplitList(rest)
  {
    var s := p + r + rest;
    assert s == p + (r + rest);
    FirstSepOf(p, r + rest);
    assert s[..|p|] == p;
    assert s[|p|..] == r + rest;
    SepRunOf(r, rest);
    assert s[|p| + |r|..] == rest;
  }
}
