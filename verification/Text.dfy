/** Numbers written as text. */
module Text {
  import opened Bytes

  const TRUE := Ascii("true")
  const FALSE := Ascii("false")

  function Digit(d: int): Byte
    requires 0 <= d < 16
  {
    if d < 10 then 0x30 + d else 0x57 + d
  }

  /** Decimal digits without leading zeros. */
  function Decimal(n: nat): (r: Str)
    ensures r != [] && forall k :: 0 <= k < |r| ==> 0x30 <= r[k] <= 0x39
  {
    if n < 10 then [Digit(n)] else Decimal(n / 10) + [Digit(n % 10)]
  }

  /** Exactly `width` lower-case hexadecimal digits. */
  function Hex(n: nat, width: nat): (r: Str)
    ensures |r| == width
  {
    if width == 0 then [] else Hex(n / 16, width - 1) + [Digit(n % 16)]
  }
}
