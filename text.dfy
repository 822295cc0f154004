/** The few string primitives of JavaScript that the forms and filters rely
    on, over ASCII: `trim` emptiness, `toLowerCase`, `includes`, `parseInt`
    and integer `toString`. */
module Text {
  import opened Types

  predicate IsWhitespace(c: char) {
    c == ' ' || c == '\t' || c == '\n' || c == '\r' || c == '\U{000B}' || c == '\U{000C}'
  }

  predicate IsDigit(c: char) {
    '0' <= c <= '9'
  }

  /** `!s.trim()`: the string holds nothing but whitespace. */
  predicate IsBlank(s: string) {
    forall i :: 0 <= i < |s| ==> IsWhitespace(s[i])
  }

  /** `toLowerCase` on ASCII letters; every other character is kept. */
  function Lower(s: string): (r: string)
    ensures |r| == |s|
    ensures forall i :: 0 <= i < |s| ==> (r[i] == s[i] <==> !('A' <= s[i] <= 'Z'))
  {
    seq(|s|, i requires 0 <= i < |s| =>
      if 'A' <= s[i] <= 'Z' then (s[i] as int + 32) as char else s[i])
  }

  predicate IsPrefix(p: string, s: string) {
    |p| <= |s| && s[..|p|] == p
  }

  /** `s.includes(sub)`. */
  predicate Contains(s: string, sub: string)
    decreases |s|
  {
    IsPrefix(sub, s) || (s != [] && Contains(s[1..], sub))
  }

  /** Every string includes the empty string. */
  lemma ContainsEmpty(s: string)
    ensures Contains(s, "")
  {
    assert IsPrefix("", s);
  }

  // ---------------------------------------------------------------- numbers

  function DigitValue(c: char): (d: nat)
    requires IsDigit(c)
    ensures d < 10
  {
    c as int - '0' as int
  }

  function DigitChar(d: nat): (c: char)
    requires d < 10
    ensures IsDigit(c) && DigitValue(c) == d
  {
    ('0' as int + d) as char
  }

  predicate AllDigits(s: string) {
    forall i :: 0 <= i < |s| ==> IsDigit(s[i])
  }

  /** The decimal value of a run of digits, read left to right. */
  function DigitsValue(s: string): nat
    requires AllDigits(s)
  {
    if s == [] then 0 else DigitsValue(s[..|s| - 1]) * 10 + DigitValue(s[|s| - 1])
  }

  function SkipWhitespace(s: string): (r: string)
    ensures |r| <= |s| && (r != [] ==> !IsWhitespace(r[0]))
  {
    if s != [] && IsWhitespace(s[0]) then SkipWhitespace(s[1..]) else s
  }

  /** The longest prefix of `s` made of digits. */
  function DigitRun(s: string): (r: string)
    ensures AllDigits(r) && |r| <= |s|
  {
    if s != [] && IsDigit(s[0]) then [s[0]] + DigitRun(s[1..]) else []
  }

  /** `parseInt(s)` in base 10: leading whitespace is skipped, one sign is
      accepted, then the longest run of digits is read; `None` stands for NaN. */
  function ParseInt(s: string): (r: Option<int>)
    ensures r.None? <==> DigitRun(SignStripped(SkipWhitespace(s))) == []
  {
    ParseSigned(SkipWhitespace(s))
  }

  function SignStripped(t: string): string {
    if t != [] && (t[0] == '-' || t[0] == '+') then t[1..] else t
  }

  /** The reading of text that has no leading whitespace: an optional sign,
      then the digits. */
  function ParseSigned(t: string): (r: Option<int>)
    ensures r.None? <==> DigitRun(SignStripped(t)) == []
  {
    var digits := DigitRun(SignStripped(t));
    if digits == [] then None
    else if t[0] == '-' then Some(-(DigitsValue(digits) as int))
    else Some(DigitsValue(digits))
  }

  /** The decimal digits of `n`, without leading zeros. */
  function NatToString(n: nat): (r: string)
    ensures r != [] && AllDigits(r)
  {
    if n < 10 then [DigitChar(n)] else NatToString(n / 10) + [DigitChar(n % 10)]
  }

  /** `n.toString()` for an integer `n`. */
  function IntToString(n: int): (r: string)
    ensures r != []
  {
    if n < 0 then "-" + NatToString(-n) else NatToString(n)
  }

  lemma {:induction false} DigitsValueOfNatToString(n: nat)
    ensures DigitsValue(NatToString(n)) == n
  {
    if n >= 10 {
      var s := NatToString(n);
      assert s[..|s| - 1] == NatToString(n / 10);
      DigitsValueOfNatToString(n / 10);
    }
  }

  lemma {:induction false} DigitRunOfDigits(d: string, rest: string)
    requires AllDigits(d)
    requires rest == [] || !IsDigit(rest[0])
    ensures DigitRun(d + rest) == d
  {
    if d != [] {
      assert (d + rest)[1..] == d[1..] + rest;
      DigitRunOfDigits(d[1..], rest);
    } else {
      assert d + rest == rest;
    }
  }

  /** Text that starts with a digit reads as its run of digits. */
  lemma ParseUnsigned(body: string, digits: string)
    requires body != [] && IsDigit(body[0])
    requires AllDigits(digits) && DigitRun(body) == digits
    ensures ParseInt(body) == Some(DigitsValue(digits) as int)
  {
    assert SkipWhitespace(body) == body;
    assert SignStripped(body) == body;
  }

  /** A minus sign followed by digits reads as the negated run of digits. */
  lemma ParseNegated(body: string, digits: string)
    requires body != [] && IsDigit(body[0])
    requires AllDigits(digits) && DigitRun(body) == digits
    ensures ParseInt(['-'] + body) == Some(-(DigitsValue(digits) as int))
  {
    var s := ['-'] + body;
    assert SkipWhitespace(s) == s;
    assert s[1..] == body;
    assert SignStripped(s) == body;
  }

  /** A run of digits followed by non-digit text reads back as its value,
      with or without a minus sign in front. */
  lemma ParseDigitsThen(digits: string, rest: string)
    requires digits != [] && AllDigits(digits)
    requires rest == [] || !IsDigit(rest[0])
    ensures ParseInt(digits + rest) == Some(DigitsValue(digits) as int)
    ensures ParseInt(['-'] + (digits + rest)) == Some(-(DigitsValue(digits) as int))
  {
    var body := digits + rest;
    assert IsDigit(body[0]);
    DigitRunOfDigits(digits, rest);
    ParseUnsigned(body, digits);
    ParseNegated(body, digits);
  }

  /** What `toString` writes: an optional minus sign, then digits whose
      value is the size of `n`. */
  lemma IntToStringParts(n: int) returns (digits: string)
    ensures digits != [] && AllDigits(digits)
    ensures DigitsValue(digits) as int == (if n < 0 then -n else n)
    ensures IntToString(n) == (if n < 0 then "-" + digits else digits)
  {
    var m: nat := if n < 0 then -n else n;
    digits := NatToString(m);
    DigitsValueOfNatToString(m);
  }

  lemma SignThenRest(digits: string, rest: string)
    ensures (['-'] + digits) + rest == ['-'] + (digits + rest)
  {
  }

  lemma ParseNegativeToString(n: int, rest: string)
    requires n < 0
    requires rest == [] || !IsDigit(rest[0])
    ensures ParseInt(IntToString(n) + rest) == Some(n)
  {
    var digits := IntToStringParts(n);
    ParseDigitsThen(digits, rest);
    var w := IntToString(n);
    assert w == ['-'] + digits;
    SignThenRest(digits, rest);
    assert w + rest == ['-'] + (digits + rest);
  }

  lemma ParseNonNegativeToString(n: int, rest: string)
    requires n >= 0
    requires rest == [] || !IsDigit(rest[0])
    ensures ParseInt(IntToString(n) + rest) == Some(n)
  {
    var digits := IntToStringParts(n);
    ParseDigitsThen(digits, rest);
    assert IntToString(n) + rest == digits + rest;
  }

  /** `parseInt` reads back what `toString` wrote, whatever non-digit text
      follows it. */
  lemma ParseIntToString(n: int, rest: string)
    requires rest == [] || !IsDigit(rest[0])
    ensures ParseInt(IntToString(n) + rest) == Some(n)
  {
    if n < 0 {
      ParseNegativeToString(n, rest);
    } else {
      ParseNonNegativeToString(n, rest);
    }
  }
}
