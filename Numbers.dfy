/** The number parsing and printing of JavaScript that the loaders and views apply to the
    budget CSV's text fields: `parseFloat`, `parseInt` and `Number.prototype.toString`
    for whole numbers. Values are exact (`real`, `int`); `None` stands for NaN. */
module Numbers {
  import opened Text
  import opened Wrappers

  function DigitValue(c: char): nat
    requires IsDigit(c)
  {
    c as int - '0' as int
  }

  predicate AllDigits(d: string) {
    forall i :: 0 <= i < |d| ==> IsDigit(d[i])
  }

  /** The value of a string of decimal digits. */
  function DigitsValue(d: string): nat
    requires AllDigits(d)
    decreases |d|
  {
    if |d| == 0 then 0 else 10 * DigitsValue(d[..|d| - 1]) + DigitValue(d[|d| - 1])
  }

  function Pow10(n: nat): (p: nat)
    ensures p >= 1
  {
    if n == 0 then 1 else 10 * Pow10(n - 1)
  }

  /** Length of the longest prefix of `s` made of decimal digits. */
  function DigitRun(s: string): (n: nat)
    ensures n <= |s| && AllDigits(s[..n])
    ensures n < |s| ==> !IsDigit(s[n])
  {
    if |s| > 0 && IsDigit(s[0]) then
      var n := 1 + DigitRun(s[1..]);
      assert s[..n] == [s[0]] + s[1..][..n - 1];
      n
    else 0
  }

  predicate IsHexDigit(c: char) {
    IsDigit(c) || 'a' <= c <= 'f' || 'A' <= c <= 'F'
  }

  function HexDigitValue(c: char): nat
    requires IsHexDigit(c)
  {
    if IsDigit(c) then DigitValue(c)
    else if 'a' <= c <= 'f' then c as int - 'a' as int + 10
    else c as int - 'A' as int + 10
  }

  function HexRun(s: string): (n: nat)
    ensures n <= |s|
    ensures forall i :: 0 <= i < n ==> IsHexDigit(s[i])
  {
    if |s| > 0 && IsHexDigit(s[0]) then 1 + HexRun(s[1..]) else 0
  }

  function HexValue(d: string): nat
    requires forall i :: 0 <= i < |d| ==> IsHexDigit(d[i])
    decreases |d|
  {
    if |d| == 0 then 0 else 16 * HexValue(d[..|d| - 1]) + HexDigitValue(d[|d| - 1])
  }

  /** Whether a numeric literal starts with a minus sign. */
  predicate MinusSign(t: string) {
    |t| > 0 && t[0] == '-'
  }

  /** Where the digits of a numeric literal begin, after its sign. */
  function SignLength(t: string): (n: nat)
    ensures n <= |t|
  {
    if |t| > 0 && (t[0] == '-' || t[0] == '+') then 1 else 0
  }

  /** The unsigned decimal literal at the start of `body`: digits [. digits], with at least
      one digit in all; `None` when there is none. */
  function UnsignedDecimal(body: string): (r: Option<real>)
    ensures r.Some? ==> |body| > 0 && (IsDigit(body[0]) || (|body| > 1 && IsDigit(body[1])))
    ensures r.Some? ==> r.value >= 0.0
  {
    var n := DigitRun(body);
    var intPart := body[..n];
    var afterInt := body[n..];
    var fracDigits := if |afterInt| > 0 && afterInt[0] == '.' then afterInt[1..][..DigitRun(afterInt[1..])] else "";
    if n == 0 && |fracDigits| == 0 then None
    else
      Some(DigitsValue(intPart) as real + DigitsValue(fracDigits) as real / Pow10(|fracDigits|) as real)
  }

  /** `parseFloat(s)`: after leading white space, the longest prefix of the form
      [+-] digits [. digits] (at least one digit in all) gives the value; `None` is NaN. */
  function ParseFloat(s: string): (r: Option<real>)
    ensures r.Some? ==> exists k :: 0 <= k < |s| && IsDigit(s[k])
  {
    var t := TrimStart(s);
    var r := SignedDecimal(t);
    assert r.Some? ==> DigitAt(s, LeadingWhite(s) + SignLength(t));
    r
  }

  /** A digit stands at position `i` of `t` or just after it. */
  predicate DigitAt(t: string, i: nat) {
    (i < |t| && IsDigit(t[i])) || (i + 1 < |t| && IsDigit(t[i + 1]))
  }

  /** A decimal literal with an optional sign at the start of `t`. */
  function SignedDecimal(t: string): (r: Option<real>)
    ensures r.Some? ==> DigitAt(t, SignLength(t))
  {
    match UnsignedDecimal(t[SignLength(t)..])
    case None => None
    case Some(m) => if MinusSign(t) then Some(-m) else Some(m)
  }

  /** A non-empty digit string is a whole decimal literal. */
  lemma DigitsDecimal(d: string)
    requires |d| >= 1 && AllDigits(d)
    ensures UnsignedDecimal(d) == Some(DigitsValue(d) as real)
  {
    DigitRunAll(d);
    assert d[..|d|] == d;
    assert d[|d|..] == "";
    assert DigitsValue("") == 0 && Pow10(0) == 1;
    assert 0 as real / 1 as real == 0.0;
  }

  /** `parseInt(s)` without a radix when `hexPrefix` holds (a "0x" after the sign switches to
      base 16), `parseInt(s, 10)` otherwise; `None` is NaN. */
  function ParseInt(s: string, hexPrefix: bool): (r: Option<int>)
  {
    var t := TrimStart(s);
    var negative := MinusSign(t);
    var body := t[SignLength(t)..];
    if hexPrefix && |body| >= 2 && body[0] == '0' && (body[1] == 'x' || body[1] == 'X') then
      var h := HexRun(body[2..]);
      if h == 0 then None else Some(if negative then -(HexValue(body[2..][..h]) as int) else HexValue(body[2..][..h]))
    else
      var n := DigitRun(body);
      if n == 0 then None else Some(if negative then -(DigitsValue(body[..n]) as int) else DigitsValue(body[..n]))
  }

  /** `n.toString()` for a whole number. */
  function NatToString(n: nat): (s: string)
    ensures |s| >= 1 && AllDigits(s)
    ensures s[0] != '0' || n == 0
  {
    var last := ['0' + (n % 10) as char];
    if n < 10 then last else NatToString(n / 10) + last
  }

  /** Printing a whole number and parsing it back, in either `parseInt` mode or with
      `parseFloat`, gives the number again. */
  lemma {:induction false} DigitsValueOfNatToString(n: nat)
    ensures DigitsValue(NatToString(n)) == n
  {
    if n >= 10 {
      DigitsValueOfNatToString(n / 10);
      var s := NatToString(n);
      assert s[..|s| - 1] == NatToString(n / 10);
    }
  }

  /** A non-empty digit string is read by `parseInt` (in either mode, when it does not start
      with "0x") and by `parseFloat` as its decimal value. */
  lemma ParseDigits(s: string, hexPrefix: bool)
    requires |s| >= 1 && AllDigits(s)
    ensures ParseInt(s, hexPrefix) == Some(DigitsValue(s))
    ensures ParseFloat(s) == Some(DigitsValue(s) as real)
  {
    assert LeadingWhite(s) == 0 by { assert !IsWhite(s[0]); }
    assert TrimStart(s) == s;
    assert SignLength(s) == 0;
    assert s[0..] == s;
    DigitRunAll(s);
    assert s[..|s|] == s;
    DigitsDecimal(s);
  }

  /** A minus sign before a digit string negates what `parseFloat` reads. */
  lemma ParseNegativeDigits(s: string)
    requires |s| >= 2 && s[0] == '-' && AllDigits(s[1..])
    ensures ParseFloat(s) == Some(-(DigitsValue(s[1..]) as real))
  {
    assert TrimStart(s) == s by {
      assert LeadingWhite(s) == 0 by { assert !IsWhite(s[0]); }
      assert s[0..] == s;
    }
    DigitsDecimal(s[1..]);
    assert SignLength(s) == 1 && MinusSign(s);
  }

  lemma ParseNatToString(n: nat, hexPrefix: bool)
    ensures ParseInt(NatToString(n), hexPrefix) == Some(n)
    ensures ParseFloat(NatToString(n)) == Some(n as real)
  {
    DigitsValueOfNatToString(n);
    ParseDigits(NatToString(n), hexPrefix);
  }

  /** A string made only of digits is its own longest digit prefix. */
  lemma {:induction false} DigitRunAll(s: string)
    requires AllDigits(s)
    ensures DigitRun(s) == |s|
    decreases |s|
  {
    if |s| > 0 {
      DigitRunAll(s[1..]);
    }
  }

  /** JavaScript's `x || 0` applied to a parsed number: NaN and zero both become 0. */
  function OrZero(r: Option<real>): (v: real)
    ensures r.Some? ==> v == r.value
    ensures r.None? ==> v == 0.0
  {
    if r.Some? then r.value else 0.0
  }
}
