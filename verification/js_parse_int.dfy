/**
 * JavaScript's `parseInt(string, 10)` as the route and the form use it,
 * following the algorithm of section 19.2.5 of ECMA-262 ("parseInt (string,
 * radix)"): drop leading white space, read an optional sign, then read the
 * longest prefix of decimal digits; an empty digit prefix gives NaN, which
 * the model writes as None.
 *
 * The partner definition is `Show`, the canonical decimal spelling of a
 * natural number; `ParseIntShow` is the round trip between the two.
 */
module JsParseInt {
  import opened Wrappers

  /**
   * The white space and line terminators trimmed before the number: tab,
   * line tabulation, form feed, space, no-break space, the byte order mark,
   * line feed, carriage return, line separator and paragraph separator.
   */
  predicate IsWhiteSpace(c: char) {
    c == '\t' || c == '\U{000B}' || c == '\U{000C}' || c == ' ' || c == '\U{00A0}' || c == '\U{FEFF}'
    || c == '\n' || c == '\r' || c == '\U{2028}' || c == '\U{2029}'
  }

  predicate IsDigit(c: char) {
    '0' <= c <= '9'
  }

  predicate AllWhiteSpace(s: string) {
    forall i :: 0 <= i < |s| ==> IsWhiteSpace(s[i])
  }

  predicate AllDigits(s: string) {
    forall i :: 0 <= i < |s| ==> IsDigit(s[i])
  }

  /** `s` without its leading white space. */
  function TrimStart(s: string): (r: string)
    ensures |r| <= |s| && r == s[|s| - |r|..]
    ensures AllWhiteSpace(s[..|s| - |r|])
    ensures r == [] || !IsWhiteSpace(r[0])
  {
    if s != [] && IsWhiteSpace(s[0]) then TrimStart(s[1..]) else s
  }

  /** The length of the longest prefix of `s` made of decimal digits. */
  function DigitRun(s: string): (k: nat)
    ensures k <= |s| && AllDigits(s[..k])
    ensures k == |s| || !IsDigit(s[k])
  {
    if s != [] && IsDigit(s[0]) then
      assert s[1..][..DigitRun(s[1..])] == s[1..1 + DigitRun(s[1..])];
      1 + DigitRun(s[1..])
    else 0
  }

  function DigitOf(c: char): nat
    requires IsDigit(c)
  {
    (c as int - '0' as int) as nat
  }

  function DigitChar(d: nat): (c: char)
    requires d < 10
    ensures IsDigit(c) && DigitOf(c) == d
  {
    ('0' as int + d) as char
  }

  /** The number a string of decimal digits denotes, most significant digit first. */
  function DigitsValue(ds: string): nat
    requires AllDigits(ds)
  {
    if ds == [] then 0 else DigitsValue(ds[..|ds| - 1]) * 10 + DigitOf(ds[|ds| - 1])
  }

  /** The longest digit prefix of `u` read as a number; None when there is none. */
  function ParseDigits(u: string): Option<nat>
  {
    var k := DigitRun(u);
    if k == 0 then None else Some(DigitsValue(u[..k]))
  }

  /** The sign step: a leading '-' negates the digits after it, a leading '+' is dropped. */
  function ParseSigned(t: string): Option<int>
  {
    if t != [] && t[0] == '-' then
      match ParseDigits(t[1..])
      case None => None
      case Some(m) => Some(-(m as int))
    else if t != [] && t[0] == '+' then
      match ParseDigits(t[1..])
      case None => None
      case Some(m) => Some(m as int)
    else
      match ParseDigits(t)
      case None => None
      case Some(m) => Some(m as int)
  }

  /**
   * `parseInt(s, 10)`; None stands for NaN. After the white space and an
   * optional sign, the result is NaN exactly when no digit follows; otherwise
   * it is the value of the digit prefix, negated after a minus sign.
   */
  function ParseInt(s: string): (r: Option<int>)
    ensures var t := TrimStart(s);
      var u := if t != [] && (t[0] == '-' || t[0] == '+') then t[1..] else t;
      && (r.Some? <==> DigitRun(u) > 0)
      && (r.Some? ==> r.value == (if t[0] == '-' then -1 else 1) * DigitsValue(u[..DigitRun(u)]))
  {
    ParseSigned(TrimStart(s))
  }

  /**
   * The decimal spelling of `v`: digits only, never empty, and without
   * leading zeros.
   */
  function Show(v: nat): (s: string)
    ensures |s| >= 1 && AllDigits(s)
    ensures s[0] == '0' ==> v == 0
  {
    if v < 10 then [DigitChar(v)] else Show(v / 10) + [DigitChar(v % 10)]
  }

  /** Reading the spelling of `v` gives back `v`. */
  lemma {:induction false} DigitsValueShow(v: nat)
    ensures DigitsValue(Show(v)) == v
  {
    if v >= 10 {
      var s := Show(v);
      assert s[..|s| - 1] == Show(v / 10);
      DigitsValueShow(v / 10);
    }
  }

  /** Trimming stops at the first character that is not white space. */
  lemma {:induction false} TrimStartSkips(ws: string, x: string)
    requires AllWhiteSpace(ws)
    requires x == [] || !IsWhiteSpace(x[0])
    ensures TrimStart(ws + x) == x
  {
    if ws != [] {
      assert (ws + x)[1..] == ws[1..] + x;
      TrimStartSkips(ws[1..], x);
    }
  }

  /** The digit prefix of digits followed by a non-digit is exactly those digits. */
  lemma {:induction false} DigitRunStops(ds: string, rest: string)
    requires AllDigits(ds)
    requires rest == [] || !IsDigit(rest[0])
    ensures DigitRun(ds + rest) == |ds|
  {
    if ds != [] {
      assert (ds + rest)[1..] == ds[1..] + rest;
      DigitRunStops(ds[1..], rest);
    }
  }

  /** The digits step reads the spelling of `v` in front of a non-digit as `v`. */
  lemma ParseDigitsShow(v: nat, rest: string)
    requires rest == [] || !IsDigit(rest[0])
    ensures ParseDigits(Show(v) + rest) == Some(v)
  {
    DigitRunStops(Show(v), rest);
    assert (Show(v) + rest)[..|Show(v)|] == Show(v);
    DigitsValueShow(v);
  }

  /** `parseInt` of white space followed by `x` is the sign step on `x`. */
  lemma ParseIntTrims(ws: string, x: string)
    requires AllWhiteSpace(ws)
    requires x == [] || !IsWhiteSpace(x[0])
    ensures ParseInt(ws + x) == ParseSigned(x)
  {
    TrimStartSkips(ws, x);
  }

  /**
   * Round trip: white space, then the decimal spelling of `v`, then anything
   * that does not start with a digit, parses to `v`. With `rest == ".75"`
   * this is the leading-integer reading of "42.75" as 42.
   */
  lemma ParseIntShow(ws: string, v: nat, rest: string)
    requires AllWhiteSpace(ws)
    requires rest == [] || !IsDigit(rest[0])
    ensures ParseInt(ws + Show(v) + rest) == Some(v)
  {
    var x := Show(v) + rest;
    assert ws + Show(v) + rest == ws + x;
    assert x[0] == Show(v)[0];
    ParseIntTrims(ws, x);
    ParseDigitsShow(v, rest);
  }

  /** The bare spelling of `v` parses to `v`. */
  lemma ParseIntOfShow(v: nat)
    ensures ParseInt(Show(v)) == Some(v)
  {
    ParseIntShow([], v, []);
    assert [] + Show(v) + [] == Show(v);
  }

  /** The sign step negates the number after a minus sign. */
  lemma ParseSignedMinus(v: nat, rest: string)
    requires rest == [] || !IsDigit(rest[0])
    ensures ParseSigned("-" + (Show(v) + rest)) == Some(-(v as int))
  {
    assert ("-" + (Show(v) + rest))[1..] == Show(v) + rest;
    ParseDigitsShow(v, rest);
  }

  /** The same with a minus sign in front of the digits: the value is negated. */
  lemma ParseIntNegative(ws: string, v: nat, rest: string)
    requires AllWhiteSpace(ws)
    requires rest == [] || !IsDigit(rest[0])
    ensures ParseInt(ws + "-" + Show(v) + rest) == Some(-(v as int))
  {
    var x := "-" + (Show(v) + rest);
    assert ws + "-" + Show(v) + rest == ws + x;
    ParseIntTrims(ws, x);
    ParseSignedMinus(v, rest);
  }

  /** Without a digit after the white space and the optional sign, the result is NaN. */
  lemma ParseIntNoDigits(ws: string, sign: string, rest: string)
    requires AllWhiteSpace(ws)
    requires sign == "" || sign == "-" || sign == "+"
    requires rest == [] || (!IsDigit(rest[0]) && (sign != "" || (!IsWhiteSpace(rest[0]) && rest[0] != '-' && rest[0] != '+')))
    ensures ParseInt(ws + sign + rest) == None
  {
    var x := sign + rest;
    assert ws + sign + rest == ws + x;
    ParseIntTrims(ws, x);
    if sign != "" {
      assert x[1..] == rest;
    }
  }
}
