/**
 * The JavaScript string and number primitives the core relies on: String(n) for
 * integers, parseInt(s, 10), trim(), toLowerCase(), startsWith, includes,
 * indexOf and split, each stated on `string` (a sequence of characters).
 */
module JsText {
  import opened Wrappers

  /** The characters trim() and parseInt() skip: ECMAScript WhiteSpace and LineTerminator. */
  predicate IsSpace(c: char) {
    c == ' ' || c == '\t' || c == '\n' || c == '\r' || c == '\U{000B}' || c == '\U{000C}'
    || c == '\U{00A0}' || c == '\U{1680}' || ('\U{2000}' <= c <= '\U{200A}')
    || c == '\U{2028}' || c == '\U{2029}' || c == '\U{202F}' || c == '\U{205F}'
    || c == '\U{3000}' || c == '\U{FEFF}'
  }

  predicate IsDigit(c: char) { '0' <= c <= '9' }

  predicate AllDigits(s: string) { forall i :: 0 <= i < |s| ==> IsDigit(s[i]) }

  function DigitValue(c: char): (d: nat)
    requires IsDigit(c)
    ensures d < 10
  {
    (c as int) - ('0' as int)
  }

  function DigitChar(d: nat): (c: char)
    requires d < 10
    ensures IsDigit(c) && DigitValue(c) == d
  {
    ((('0' as int) + d) as char)
  }

  // ---------------------------------------------------------------------------
  // Decimal text of integers (JavaScript String(n) for an integral number)

  function NatToText(n: nat): string
    decreases n
  {
    if n < 10 then [DigitChar(n)] else NatToText(n / 10) + [DigitChar(n % 10)]
  }

  function IntToText(n: int): string {
    if n < 0 then "-" + NatToText(-n) else NatToText(n)
  }

  /** The value of a string of decimal digits, read most significant digit first. */
  function DigitsValue(s: string): nat
    requires AllDigits(s)
  {
    if s == [] then 0 else DigitsValue(s[..|s| - 1]) * 10 + DigitValue(s[|s| - 1])
  }

  /** The decimal text of n is a non-empty digit string whose value is n. */
  lemma {:induction false} NatToTextDigits(n: nat)
    ensures |NatToText(n)| > 0 && AllDigits(NatToText(n))
    ensures DigitsValue(NatToText(n)) == n
    decreases n
  {
    if n >= 10 {
      NatToTextDigits(n / 10);
      var p := NatToText(n / 10);
      var s := NatToText(n);
      assert s == p + [DigitChar(n % 10)];
      assert s[..|s| - 1] == p;
    }
  }

  /** The decimal text of n starts with '-' exactly when n is negative, and with a digit otherwise. */
  lemma IntToTextSign(n: int)
    ensures |IntToText(n)| > 0
    ensures IntToText(n)[0] == '-' <==> n < 0
    ensures n >= 0 ==> IsDigit(IntToText(n)[0])
  {
    NatToTextDigits(if n < 0 then -n else n);
  }

  /** Different integers have different decimal texts. */
  lemma IntToTextInjective(m: int, n: int)
    requires IntToText(m) == IntToText(n)
    ensures m == n
  {
    IntToTextSign(m);
    IntToTextSign(n);
    if m < 0 {
      assert NatToText(-m) == IntToText(m)[1..] == IntToText(n)[1..] == NatToText(-n);
      NatToTextDigits(-m);
      NatToTextDigits(-n);
    } else {
      NatToTextDigits(m);
      NatToTextDigits(n);
    }
  }

  /** needle occurs in hay starting at position i. */
  predicate OccursAt(hay: string, needle: string, i: nat) {
    i + |needle| <= |hay| && hay[i..i + |needle|] == needle
  }

  // ---------------------------------------------------------------------------
  // trim()

  function TrimStart(s: string): (r: string)
    ensures |r| <= |s| && r == s[|s| - |r|..]
    ensures r == [] || !IsSpace(r[0])
    ensures forall k :: 0 <= k < |s| - |r| ==> IsSpace(s[k])
  {
    if s != [] && IsSpace(s[0]) then TrimStart(s[1..]) else s
  }

  function TrimEnd(s: string): (r: string)
    ensures |r| <= |s| && r == s[..|r|]
    ensures r == [] || !IsSpace(r[|r| - 1])
    ensures forall k :: |r| <= k < |s| ==> IsSpace(s[k])
  {
    if s != [] && IsSpace(s[|s| - 1]) then TrimEnd(s[..|s| - 1]) else s
  }

  lemma SliceOfSuffix(s: string, i: nat, m: nat)
    requires i + m <= |s|
    ensures s[i..][..m] == s[i..i + m]
  {
  }

  /** r occurs in s at position i, and everything of s before and after it is white space. */
  predicate TrimmedAt(s: string, r: string, i: nat) {
    OccursAt(s, r, i)
    && (forall k :: 0 <= k < i ==> IsSpace(s[k]))
    && (forall k :: i + |r| <= k < |s| ==> IsSpace(s[k]))
  }

  /** Cutting white space off the front of s to get t, then off the back of t to get r, leaves r trimmed within s. */
  lemma TrimSpans(s: string, t: string, r: string)
    requires |t| <= |s| && t == s[|s| - |t|..] && forall k :: 0 <= k < |s| - |t| ==> IsSpace(s[k])
    requires |r| <= |t| && r == t[..|r|] && forall k :: |r| <= k < |t| ==> IsSpace(t[k])
    ensures TrimmedAt(s, r, |s| - |t|)
  {
    var i := |s| - |t|;
    SliceOfSuffix(s, i, |r|);
    forall k | i + |r| <= k < |s| ensures IsSpace(s[k]) {
      assert s[k] == t[k - i];
    }
  }

  /** String.prototype.trim: the longest slice of s with no white space at either end. */
  function Trim(s: string): (r: string)
    ensures exists i :: 0 <= i && OccursAt(s, r, i)
    ensures r == [] || (!IsSpace(r[0]) && !IsSpace(r[|r| - 1]))
    ensures TrimmedAt(s, r, |s| - |TrimStart(s)|)
  {
    var t := TrimStart(s);
    var r := TrimEnd(t);
    TrimSpans(s, t, r);
    assert TrimmedAt(s, r, |s| - |t|);
    assert OccursAt(s, r, |s| - |t|);
    r
  }

  lemma TrimStartOfTrimmed(s: string)
    requires s == [] || !IsSpace(s[0])
    ensures TrimStart(s) == s
  {
  }

  lemma TrimEndOfTrimmed(s: string)
    requires s == [] || !IsSpace(s[|s| - 1])
    ensures TrimEnd(s) == s
  {
  }

  /** Trimming twice is trimming once. */
  lemma TrimIdempotent(s: string)
    ensures Trim(Trim(s)) == Trim(s)
  {
    var r := Trim(s);
    TrimStartOfTrimmed(r);
    TrimEndOfTrimmed(r);
  }

  // ---------------------------------------------------------------------------
  // toLowerCase() on the ASCII letters

  function LowerChar(c: char): char {
    if 'A' <= c <= 'Z' then (c as int + 32) as char else c
  }

  function Lower(s: string): (r: string)
    ensures |r| == |s|
    ensures forall i :: 0 <= i < |s| ==> r[i] == LowerChar(s[i])
  {
    seq(|s|, i requires 0 <= i < |s| => LowerChar(s[i]))
  }

  lemma LowerIdempotent(s: string)
    ensures Lower(Lower(s)) == Lower(s)
  {
  }

  // ---------------------------------------------------------------------------
  // startsWith, includes, indexOf, split, join

  predicate StartsWith(s: string, prefix: string) {
    |prefix| <= |s| && s[..|prefix|] == prefix
  }

  /** String.prototype.includes: needle occurs in hay as a contiguous slice. */
  predicate Contains(hay: string, needle: string) {
    exists i :: 0 <= i <= |hay| && OccursAt(hay, needle, i)
  }

  /** String.prototype.indexOf for one character: the first position of c, or None. */
  function IndexOf(s: string, c: char): (r: Option<nat>)
    ensures r.None? <==> c !in s
    ensures r.Some? ==> r.value < |s| && s[r.value] == c && c !in s[..r.value]
  {
    if s == [] then None
    else if s[0] == c then Some(0)
    else match IndexOf(s[1..], c)
      case None => None
      case Some(i) => assert s[..i + 1] == [s[0]] + s[1..][..i]; Some(i + 1)
  }

  /** String.prototype.split with a one-character separator. */
  function Split(s: string, sep: char): (parts: seq<string>)
    ensures |parts| >= 1
    ensures forall k :: 0 <= k < |parts| ==> sep !in parts[k]
    decreases |s|
  {
    match IndexOf(s, sep)
    case None => [s]
    case Some(i) => [s[..i]] + Split(s[i + 1..], sep)
  }

  /** Array.prototype.join with a one-character separator. */
  function Join(parts: seq<string>, sep: char): string {
    if parts == [] then ""
    else if |parts| == 1 then parts[0]
    else parts[0] + [sep] + Join(parts[1..], sep)
  }

  /** Splitting and joining again with the same separator gives back the text. */
  lemma {:induction false} JoinSplit(s: string, sep: char)
    ensures Join(Split(s, sep), sep) == s
    decreases |s|
  {
    match IndexOf(s, sep)
    case None =>
    case Some(i) =>
      var rest := Split(s[i + 1..], sep);
      JoinSplit(s[i + 1..], sep);
      var parts := [s[..i]] + rest;
      assert parts[1..] == rest;
      assert Join(parts, sep) == s[..i] + [sep] + Join(rest, sep);
      assert s == s[..i] + [sep] + s[i + 1..];
  }

  // ---------------------------------------------------------------------------
  // parseInt(s, 10)

  /** The longest prefix of s made of decimal digits. */
  function DigitPrefix(s: string): (d: string)
    ensures |d| <= |s| && d == s[..|d|] && AllDigits(d)
    ensures |d| == |s| || !IsDigit(s[|d|])
  {
    if s != [] && IsDigit(s[0]) then [s[0]] + DigitPrefix(s[1..]) else []
  }

  /**
   * parseInt(s, 10): skip leading white space, take an optional sign, then the
   * longest run of decimal digits; None (JavaScript NaN) when there is no digit.
   */
  function ParseIntText(s: string): Option<int> {
    var t := TrimStart(s);
    var negative := t != [] && t[0] == '-';
    var u := if t != [] && (t[0] == '-' || t[0] == '+') then t[1..] else t;
    var d := DigitPrefix(u);
    if d == [] then None
    else
      var v: int := DigitsValue(d);
      Some(if negative then -v else v)
  }

  lemma {:induction false} DigitPrefixOf(d: string, rest: string)
    requires AllDigits(d)
    requires rest == [] || !IsDigit(rest[0])
    ensures DigitPrefix(d + rest) == d
  {
    if d != [] {
      assert (d + rest)[1..] == d[1..] + rest;
      DigitPrefixOf(d[1..], rest);
      assert d == [d[0]] + d[1..];
    } else {
      assert d + rest == rest;
    }
  }

  lemma ParseIntTextUnsigned(u: string)
    requires u != [] && IsDigit(u[0])
    ensures ParseIntText(u) == Some(DigitsValue(DigitPrefix(u)))
  {
    TrimStartOfTrimmed(u);
  }

  lemma ParseIntTextNegative(u: string)
    requires |u| > 1 && u[0] == '-' && IsDigit(u[1])
    ensures ParseIntText(u) == Some(0 - DigitsValue(DigitPrefix(u[1..])) as int)
  {
    TrimStartOfTrimmed(u);
  }

  /**
   * parseInt reads back the decimal text of any integer, wherever the text is
   * followed by something that is not a digit ("72", "72 bpm", "-3").
   */
  lemma ParseIntTextOfInt(n: int, rest: string)
    requires rest == [] || !IsDigit(rest[0])
    ensures ParseIntText(IntToText(n) + rest) == Some(n)
  {
    if n < 0 {
      var m: nat := -n;
      var x := NatToText(m);
      assert IntToText(n) == ['-'] + x;
      assert IntToText(n) + rest == ['-'] + (x + rest);
      ParseIntTextOfNegative(m, rest);
    } else {
      ParseIntTextOfNat(n, rest);
    }
  }

  lemma ParseIntTextOfNat(m: nat, rest: string)
    requires rest == [] || !IsDigit(rest[0])
    ensures ParseIntText(NatToText(m) + rest) == Some(m)
  {
    NatToTextDigits(m);
    DigitPrefixOf(NatToText(m), rest);
    ParseIntTextUnsigned(NatToText(m) + rest);
  }

  lemma ParseIntTextOfNegative(m: nat, rest: string)
    requires rest == [] || !IsDigit(rest[0])
    ensures ParseIntText(['-'] + (NatToText(m) + rest)) == Some(-(m as int))
  {
    var d := NatToText(m);
    var u := d + rest;
    NatToTextDigits(m);
    DigitPrefixOf(d, rest);
    var t := ['-'] + u;
    assert t[1..] == u && t[1] == d[0];
    assert !IsSpace(t[0]);
    TrimStartOfTrimmed(t);
    assert DigitPrefix(t[1..]) == d;
  }

  lemma TrimStartSkipsSpace(c: char, s: string)
    requires IsSpace(c)
    ensures TrimStart([c] + s) == TrimStart(s)
  {
    assert ([c] + s)[1..] == s;
  }

  lemma ParseIntTextSkipsSpace(c: char, s: string)
    requires IsSpace(c)
    ensures ParseIntText([c] + s) == ParseIntText(s)
  {
    var a := [c] + s;
    TrimStartSkipsSpace(c, s);
    assert TrimStart(a) == TrimStart(s);
  }

  /** Text that starts with neither a digit nor a sign, once spaces are skipped, is NaN. */
  lemma ParseIntTextNoDigit(s: string)
    requires forall i :: 0 <= i < |s| ==> !IsDigit(s[i])
    ensures ParseIntText(s) == None
  {
    var t := TrimStart(s);
    var u := if t != [] && (t[0] == '-' || t[0] == '+') then t[1..] else t;
    assert u == [] || !IsDigit(u[0]) by {
      if u != [] {
        if t != [] && (t[0] == '-' || t[0] == '+') {
          assert u[0] == s[|s| - |t| + 1];
        } else {
          assert u[0] == s[|s| - |t|];
        }
      }
    }
  }
}
