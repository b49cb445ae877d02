/** String helpers shared by the server handlers and the browser client:
    whitespace stripping (Python's str.strip and JavaScript's String.trim),
    ASCII lower-casing (str.lower on a query parameter) and the decimal
    rendering of a count or an id inside a template string. */
module Text {

  /** The two runtimes whose whitespace sets differ slightly. */
  datatype Runtime = Python | JavaScript

  /** The whitespace both runtimes strip: tab, line feed, vertical tab, form
      feed, carriage return and the space separators and line and paragraph
      separators of Unicode. */
  predicate SharedSpace(c: char) {
    || c == '\t' || c == '\n' || c == '\U{B}' || c == '\U{C}' || c == '\r' || c == ' '
    || c == '\U{A0}' || c == '\U{1680}' || ('\U{2000}' <= c <= '\U{200A}')
    || c == '\U{2028}' || c == '\U{2029}' || c == '\U{202F}' || c == '\U{205F}' || c == '\U{3000}'
  }

  /** The whitespace one runtime strips: Python's `str.isspace` also holds
      for the separators U+001C to U+001F and for U+0085; JavaScript's
      `trim` also removes U+FEFF. */
  predicate IsSpace(rt: Runtime, c: char) {
    || SharedSpace(c)
    || (rt == Python && (('\U{1C}' <= c <= '\U{1F}') || c == '\U{85}'))
    || (rt == JavaScript && c == '\U{FEFF}')
  }

  predicate AllSpace(rt: Runtime, s: string) {
    forall i :: 0 <= i < |s| ==> IsSpace(rt, s[i])
  }

  /** Drops leading whitespace. */
  function TrimStart(rt: Runtime, s: string): string
  {
    if s != [] && IsSpace(rt, s[0]) then TrimStart(rt, s[1..]) else s
  }

  /** Drops trailing whitespace. */
  function TrimEnd(rt: Runtime, s: string): string
  {
    if s != [] && IsSpace(rt, s[|s| - 1]) then TrimEnd(rt, s[..|s| - 1]) else s
  }

  /** No whitespace at either end. */
  predicate IsStripped(rt: Runtime, s: string) {
    s == [] || (!IsSpace(rt, s[0]) && !IsSpace(rt, s[|s| - 1]))
  }

  /** TrimStart keeps a suffix that does not start with whitespace and drops
      only whitespace. */
  lemma {:induction false} TrimStartSuffix(rt: Runtime, s: string)
    ensures var r := TrimStart(rt, s);
      && |r| <= |s| && r == s[|s| - |r|..] && AllSpace(rt, s[..|s| - |r|])
      && (r == [] || !IsSpace(rt, r[0]))
  {
    if s != [] && IsSpace(rt, s[0]) {
      TrimStartSuffix(rt, s[1..]);
      var r := TrimStart(rt, s[1..]);
      assert s[..|s| - |r|] == [s[0]] + s[1..][..|s| - 1 - |r|];
    }
  }

  /** TrimEnd keeps a prefix that does not end with whitespace and drops
      only whitespace. */
  lemma {:induction false} TrimEndPrefix(rt: Runtime, s: string)
    ensures var r := TrimEnd(rt, s);
      && |r| <= |s| && r == s[..|r|] && AllSpace(rt, s[|r|..])
      && (r == [] || !IsSpace(rt, r[|r| - 1]))
  {
    if s != [] && IsSpace(rt, s[|s| - 1]) {
      var p := s[..|s| - 1];
      TrimEndPrefix(rt, p);
      var r := TrimEnd(rt, p);
      assert s[|r|..] == p[|r|..] + [s[|s| - 1]];
    }
  }

  /** Python's str.strip() and JavaScript's String.trim(): the result has
      no whitespace of that runtime at either end. */
  function Strip(rt: Runtime, s: string): (r: string)
    ensures |r| <= |s| && IsStripped(rt, r)
  {
    var t := TrimStart(rt, s);
    TrimStartSuffix(rt, s);
    TrimEndPrefix(rt, t);
    var r := TrimEnd(rt, t);
    assert r != [] ==> r[0] == t[0];
    r
  }

  /** Strip keeps a contiguous slice of its input and removes nothing but
      whitespace. */
  lemma StripSlice(rt: Runtime, s: string)
    ensures var r := Strip(rt, s);
      exists i :: 0 <= i <= |s| - |r| && r == s[i..i + |r|]
        && AllSpace(rt, s[..i]) && AllSpace(rt, s[i + |r|..])
  {
    TrimStartSuffix(rt, s);
    var t := TrimStart(rt, s);
    TrimEndPrefix(rt, t);
    var r := TrimEnd(rt, t);
    var i := |s| - |t|;
    assert t == s[i..];
    assert r == s[i..i + |r|];
    assert s[i + |r|..] == t[|r|..];
  }

  /** A string strips to nothing exactly when it is all whitespace. */
  lemma StripEmptyIff(rt: Runtime, s: string)
    ensures Strip(rt, s) == [] <==> AllSpace(rt, s)
  {
    TrimStartSuffix(rt, s);
    var t := TrimStart(rt, s);
    TrimEndPrefix(rt, t);
    var i := |s| - |t|;
    if Strip(rt, s) == [] {
      assert AllSpace(rt, t[0..]);
      assert t == [];
      assert s[..i] == s;
    } else {
      StripSlice(rt, s);
    }
  }

  /** Strip leaves a string with no whitespace at either end as it is. */
  lemma StripStripped(rt: Runtime, s: string)
    requires IsStripped(rt, s)
    ensures Strip(rt, s) == s
  {
  }

  /** Stripping is idempotent. */
  lemma StripIdempotent(rt: Runtime, s: string)
    ensures Strip(rt, Strip(rt, s)) == Strip(rt, s)
  {
    StripStripped(rt, Strip(rt, s));
  }

  /** A character that one runtime counts as whitespace and the other does
      not. */
  predicate SpaceDiffers(c: char) {
    IsSpace(Python, c) != IsSpace(JavaScript, c)
  }

  /** No character of `s` is whitespace to one runtime only. */
  predicate SpacesAgree(s: string) {
    forall i :: 0 <= i < |s| ==> !SpaceDiffers(s[i])
  }

  lemma {:induction false} TrimStartAgree(s: string)
    requires SpacesAgree(s)
    ensures TrimStart(Python, s) == TrimStart(JavaScript, s)
  {
    if s != [] && IsSpace(Python, s[0]) {
      TrimStartAgree(s[1..]);
    }
  }

  lemma {:induction false} TrimEndAgree(s: string)
    requires SpacesAgree(s)
    ensures TrimEnd(Python, s) == TrimEnd(JavaScript, s)
  {
    if s != [] && IsSpace(Python, s[|s| - 1]) {
      TrimEndAgree(s[..|s| - 1]);
    }
  }

  /** Python's strip and JavaScript's trim agree on any string without the
      few characters on which their whitespace sets differ. */
  lemma StripAgree(s: string)
    requires SpacesAgree(s)
    ensures Strip(Python, s) == Strip(JavaScript, s)
  {
    TrimStartAgree(s);
    TrimStartSuffix(Python, s);
    var t := TrimStart(Python, s);
    assert forall i :: 0 <= i < |t| ==> t[i] == s[|s| - |t| + i];
    assert SpacesAgree(t);
    TrimEndAgree(t);
  }

  /** The two sets differ in exactly U+001C to U+001F, U+0085 and U+FEFF. */
  lemma SpaceDiffersExactly(c: char)
    ensures SpaceDiffers(c) <==> ('\U{1C}' <= c <= '\U{1F}') || c == '\U{85}' || c == '\U{FEFF}'
  {
  }

  /** The ASCII case mapping of str.lower(). */
  function LowerChar(c: char): (d: char)
  {
    if 'A' <= c <= 'Z' then (c as int + 32) as char else c
  }

  function Lower(s: string): (r: string)
    ensures |r| == |s| && forall i :: 0 <= i < |s| ==> r[i] == LowerChar(s[i])
  {
    if s == [] then [] else [LowerChar(s[0])] + Lower(s[1..])
  }

  predicate IsDigit(c: char) {
    '0' <= c <= '9'
  }

  function DigitChar(d: nat): (c: char)
    requires d < 10
    ensures IsDigit(c) && c as int - '0' as int == d
  {
    ('0' as int + d) as char
  }

  /** The decimal text of a non-negative integer, as a template string
      renders a number: digits only, no leading zero. */
  function NatToString(n: nat): (r: string)
    ensures |r| >= 1 && forall i :: 0 <= i < |r| ==> IsDigit(r[i])
    ensures r[0] == '0' ==> n == 0
  {
    if n < 10 then [DigitChar(n)] else NatToString(n / 10) + [DigitChar(n % 10)]
  }

  function DigitValue(c: char): nat
    requires IsDigit(c)
  {
    c as int - '0' as int
  }

  /** The integer a decimal digit string denotes (its inverse). */
  function ParseNat(s: string): nat
    requires forall i :: 0 <= i < |s| ==> IsDigit(s[i])
  {
    if s == [] then 0 else ParseNat(s[..|s| - 1]) * 10 + DigitValue(s[|s| - 1])
  }

  lemma {:induction false} ParseNatToString(n: nat)
    ensures ParseNat(NatToString(n)) == n
  {
    var r := NatToString(n);
    if n >= 10 {
      ParseNatToString(n / 10);
      assert r[..|r| - 1] == NatToString(n / 10);
    } else {
      assert r[..|r| - 1] == [];
    }
  }

  /** The decimal text of any integer (a minus sign for a negative one). */
  function IntToString(i: int): string
  {
    if i >= 0 then NatToString(i) else "-" + NatToString(-i)
  }

  /** Different integers render as different text. */
  lemma IntToStringInjective(a: int, b: int)
    requires IntToString(a) == IntToString(b)
    ensures a == b
  {
    if a >= 0 && b >= 0 {
      ParseNatToString(a);
      ParseNatToString(b);
    } else if a < 0 && b < 0 {
      assert NatToString(-a) == IntToString(a)[1..];
      assert NatToString(-b) == IntToString(b)[1..];
      ParseNatToString(-a);
      ParseNatToString(-b);
    }
    // Otherwise one text starts with a minus sign and the other with a digit.
  }
}
