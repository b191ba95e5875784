/** Fixed-width integers, C conversions and rounding. Floats are modelled as reals. */
module Numerics {

  type uint8 = x: int | 0 <= x < 0x100
  type uint16 = x: int | 0 <= x < 0x1_0000
  type uint32 = x: int | 0 <= x < 0x1_0000_0000
  type uint64 = x: int | 0 <= x < 0x1_0000_0000_0000_0000
  type int8 = x: int | -0x80 <= x < 0x80
  type int16 = x: int | -0x8000 <= x < 0x8000

  /** The conversion `(uint16_t)v`. */
  function ToUint16(v: int): uint16 {
    v % 0x1_0000
  }

  /** The conversion `(int16_t)v`, two's complement. */
  function ToInt16(v: int): int16 {
    var u := v % 0x1_0000;
    if u < 0x8000 then u else u - 0x1_0000
  }

  /** The conversion `(int8_t)v`. */
  function ToInt8(v: uint8): int8 {
    if v < 0x80 then v else v - 0x100
  }

  /** Two bytes hold a 16-bit value, high byte first, negative values in two's complement. */
  predicate IsWord(high: uint8, low: uint8, value: int) {
    high as int * 0x100 + low == value % 0x1_0000
  }

  /** `now - previous` on uint64_t: wraps. */
  function WrapSub64(now: uint64, previous: uint64): uint64 {
    (now - previous) % 0x1_0000_0000_0000_0000
  }

  function Increment64(n: uint64): uint64 {
    (n + 1) % 0x1_0000_0000_0000_0000
  }

  function Increment32(n: uint32): uint32 {
    (n + 1) % 0x1_0000_0000
  }

  /** Counting on modulo 2^32. */
  lemma Wraps32(n: nat, m: nat)
    ensures (n % 0x1_0000_0000 + m) % 0x1_0000_0000 == (n + m) % 0x1_0000_0000
  {
  }

  /** elapsed_ms: saturates at zero when the stamp lies in the future. */
  function Elapsed(now: uint64, previous: uint64): uint64 {
    if now >= previous then now - previous else 0
  }

  function Abs(x: real): (r: real)
    ensures r >= 0.0 && (r == x || r + x == 0.0)
  {
    if x >= 0.0 then x else -x
  }

  function Magnitude(v: int): int {
    if v >= 0 then v else -v
  }

  /** clamp_float: the upper limit is tested first. */
  function Clamp(value: real, lo: real, hi: real): (r: real)
    ensures lo <= value <= hi ==> r == value
    ensures lo <= hi ==> (value <= lo ==> r == lo) && (value >= hi ==> r == hi)
  {
    if value > hi then hi else if value < lo then lo else value
  }

  /** r is the integer nearest to x, the even one when x lies half-way. */
  predicate IsNearestEven(x: real, r: int) {
    && x - 0.5 <= r as real <= x + 0.5
    && (r as real == x - 0.5 || r as real == x + 0.5 ==> r % 2 == 0)
  }

  /** lrintf under the default rounding mode (section 7.12.9.5 of C11). */
  function RoundEven(x: real): (r: int)
    ensures IsNearestEven(x, r)
  {
    var below := x.Floor;
    var rest := x - below as real;
    if rest < 0.5 || (rest == 0.5 && below % 2 == 0) then below else below + 1
  }

  /** Round-to-nearest-even has exactly one result, so IsNearestEven defines it. */
  lemma RoundEvenUnique(x: real, r: int)
    requires IsNearestEven(x, r)
    ensures r == RoundEven(x)
  {
    var q := RoundEven(x);
    assert -1 <= r - q <= 1;
  }

  lemma RoundEvenIsOdd(x: real)
    ensures RoundEven(-x) == -RoundEven(x)
  {
    var r := RoundEven(x);
    assert (-r) as real == -(r as real) && (r % 2 == 0 ==> (-r) % 2 == 0);
    RoundEvenUnique(-x, -r);
  }

  /** Rounding never crosses an integer bound. */
  lemma RoundEvenBounded(x: real, limit: int)
    requires -(limit as real) <= x <= limit as real
    ensures -limit <= RoundEven(x) <= limit
  {
    var r := RoundEven(x);
    assert r as real < (limit + 1) as real && (-limit - 1) as real < r as real;
  }
}
