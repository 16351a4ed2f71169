/** Go's fixed-width integers, and decimal text as `strconv` prints and parses it. */
module Ints {
  const TWO31 := 0x8000_0000
  const TWO32 := 0x1_0000_0000
  const TWO63 := 0x8000_0000_0000_0000
  const TWO64 := 0x1_0000_0000_0000_0000

  type int32 = x: int | -TWO31 <= x < TWO31
  type int64 = x: int | -TWO63 <= x < TWO63

  /** The int64 that holds `x` after wrap-around. */
  function Wrap(x: int): int64 {
    (x + TWO63) % TWO64 - TWO63
  }

  /** The int32 that a conversion of `x` keeps. */
  function Wrap32(x: int): int32 {
    (x + TWO31) % TWO32 - TWO31
  }

  /** Wrapping early or late gives the same sum. */
  lemma WrapAdd(x: int, y: int)
    ensures Wrap(Wrap(x) + y) == Wrap(x + y)
  {
    var q := (x + TWO63) / TWO64;
    assert Wrap(x) == x - q * TWO64;
    WrapShift(x + y, -q);
  }

  lemma WrapShift(x: int, q: int)
    ensures Wrap(x + q * TWO64) == Wrap(x)
  {
    var r := (x + TWO63) % TWO64;
    var k := (x + TWO63) / TWO64;
    assert x + q * TWO64 + TWO63 == (k + q) * TWO64 + r;
  }

  /** Sums that agree after wrapping still agree when the same amount is added. */
  lemma WrapCong(x: int, y: int, d: int)
    requires Wrap(x) == Wrap(y)
    ensures Wrap(x + d) == Wrap(y + d)
  {
    WrapAdd(x, d);
    WrapAdd(y, d);
  }

  // ---------- decimal text ----------

  predicate IsDigit(c: char) {
    '0' <= c <= '9'
  }

  function Digit(d: nat): (c: char)
    requires d < 10
    ensures IsDigit(c)
  {
    ('0' as int + d) as char
  }

  function Digits(n: nat): string {
    if n < 10 then [Digit(n)] else Digits(n / 10) + [Digit(n % 10)]
  }

  /** `strconv.AppendInt(nil, n, 10)`. */
  function Dec(n: int): string {
    if n < 0 then "-" + Digits(-n) else Digits(n)
  }

  function DigitsValue(s: string): nat
    requires forall c <- s :: IsDigit(c)
  {
    if s == "" then 0
    else
      assert IsDigit(s[|s| - 1]);
      DigitsValue(s[..|s| - 1]) * 10 + (s[|s| - 1] as int - '0' as int)
  }

  /** The value `strconv.ParseInt(s, 10, 64)` returns next to its error: 0 for a
      syntax error, the nearest int64 for a number out of range. */
  datatype Parsed = Parsed(value: int64, ok: bool)

  function ParseInt(s: string): Parsed {
    var neg := s != "" && s[0] == '-';
    var body := if s != "" && (s[0] == '-' || s[0] == '+') then s[1..] else s;
    if body == "" || exists c <- body :: !IsDigit(c) then Parsed(0, false)
    else
      var v: int := DigitsValue(body);
      if !neg && v >= TWO63 then Parsed(TWO63 - 1, false)
      else if neg && v > TWO63 then Parsed(-TWO63, false)
      else Parsed(if neg then -v else v, true)
  }

  lemma {:induction false} DigitsParse(n: nat)
    ensures Digits(n) != "" && (forall c <- Digits(n) :: IsDigit(c))
    ensures DigitsValue(Digits(n)) == n
  {
    if n >= 10 {
      DigitsParse(n / 10);
      assert Digits(n)[..|Digits(n)| - 1] == Digits(n / 10);
    }
  }

  lemma BodyParse(s: string, neg: bool, body: string, v: int)
    requires s == (if neg then "-" else "") + body
    requires body != "" && (forall c <- body :: IsDigit(c)) && DigitsValue(body) == v
    requires v < TWO63 || (neg && v == TWO63)
    ensures ParseInt(s) == Parsed(if neg then -v else v, true)
  {
    hide DigitsValue;
    assert body[0] in body;
    assert neg ==> s[1..] == body;
    assert !neg ==> s == body;
  }

  /** Printing an int64 and parsing it back gives the same number. */
  lemma DecParse(n: int64)
    ensures ParseInt(Dec(n)) == Parsed(n, true)
    ensures Dec(n) != "" && forall j :: 0 <= j < |Dec(n)| ==> IsDigit(Dec(n)[j]) || Dec(n)[j] == '-'
  {
    hide ParseInt, DigitsValue, Digits;
    var m: int := if n < 0 then -(n as int) else n;
    DigitsParse(m);
    var t := Digits(m);
    BodyParse(Dec(n), n < 0, t, m);
    assert forall j :: 0 <= j < |t| ==> t[j] in t;
  }
}
