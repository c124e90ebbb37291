/** Go's fixed-width `int64`, with the two's-complement wrap-around that Go's
    arithmetic performs silently on overflow. */
module GoInt {
  import opened Wrappers
  import opened Text

  const INT64_MIN: int := -0x8000_0000_0000_0000
  const INT64_MAX: int := 0x7fff_ffff_ffff_ffff
  const TWO_64: int := 0x1_0000_0000_0000_0000

  type Int64 = x: int | INT64_MIN <= x <= INT64_MAX

  /** The `int64` that an unbounded result wraps to: congruent modulo 2^64,
      and the value itself when it is in range. */
  function Wrap64(x: int): (r: Int64)
    ensures (r - x) % TWO_64 == 0
    ensures INT64_MIN <= x <= INT64_MAX ==> r == x
  {
    (x - INT64_MIN) % TWO_64 + INT64_MIN
  }

  /** Go's `a * b` on `int64`. */
  function Mul64(a: Int64, b: Int64): Int64 {
    Wrap64(a * b)
  }

  /** Go's `a + b` on `int64`. */
  function Add64(a: Int64, b: Int64): Int64 {
    Wrap64(a + b)
  }

  /** Go's `strconv.ParseInt(s, 10, 64)`: an optional sign, then one or more
      decimal digits, the value within the `int64` range; anything else is
      an error. */
  function ParseInt64(s: string): Option<Int64> {
    if s == [] then None
    else
      var body := if s[0] == '-' || s[0] == '+' then s[1..] else s;
      if body == [] || !AllDigits(body) then None
      else
        var v: int := if s[0] == '-' then 0 - DecimalValue(body) as int else DecimalValue(body);
        if INT64_MIN <= v <= INT64_MAX then Some(v) else None
  }

  /** A digit string reads as its value, and after a '-' as the value's
      negation, whenever that is within range. */
  lemma ParseDigits(body: string)
    requires body != [] && AllDigits(body)
    ensures DecimalValue(body) <= INT64_MAX ==> ParseInt64(body) == Some(DecimalValue(body))
    ensures DecimalValue(body) <= -INT64_MIN ==> ParseInt64("-" + body) == Some(0 - DecimalValue(body))
  {
    assert IsDigit(body[0]);
    assert ("-" + body)[1..] == body;
  }

  /** Whatever `%0<width>d` renders, `ParseInt` reads back. */
  lemma ParseFormatted(n: Int64, width: nat)
    ensures ParseInt64(FormatInt(n, width)) == Some(n)
  {
    var k: nat := if n < 0 then -(n as int) else n as int;
    var w := if n >= 0 then width else if width > 0 then width - 1 else 0;
    var body := PadZeros(NatToDecimal(k), w);
    assert body != [] && AllDigits(body) && DecimalValue(body) == k by {
      PadZerosValue(NatToDecimal(k), w);
      DecimalRoundTrip(k);
    }
    ParseDigits(body);
    if n < 0 {
      assert FormatInt(n, width) == "-" + body;
    } else {
      assert FormatInt(n, width) == body;
    }
  }
}
