/** Machine-level vocabulary shared by the whole model: Rust's fixed-width
    integer types as subset types of `int`, an `Option`, Rust's
    truncating division, the `as u8` cast, and the little-endian layout of
    a C `int` as it sits in memory on a Linux host. */
module Primitives {

  type u8 = x: int | 0 <= x < 0x100
  type i16 = x: int | -0x8000 <= x < 0x8000
  type i32 = x: int | -0x8000_0000 <= x < 0x8000_0000

  datatype Option<+T> = None | Some(value: T)

  /** Division with remainder is unique: the usual way to pin down `/` and `%`. */
  lemma DivModUnique(n: int, d: int, q: int, r: int)
    requires 0 < d && 0 <= r < d && n == d * q + r
    ensures n / d == q && n % d == r
  {
    var q', r' := n / d, n % d;
    assert n == d * q' + r';
    if q' < q {
      MulMonotone(d, q' + 1, q);
      assert false;
    } else if q' > q {
      MulMonotone(d, q + 1, q');
      assert false;
    }
  }

  lemma MulMonotone(d: int, a: int, b: int)
    requires 0 < d && a <= b
    ensures d * a <= d * b
  {
    assert d * b - d * a == d * (b - a);
  }

  /** A quotient stays below `k` when the dividend stays below `d * k`. */
  lemma DivBelow(n: int, d: int, k: int)
    requires 0 < d && 0 <= n < d * k
    ensures 0 <= n / d < k
  {
    DivModUnique(n, d, n / d, n % d);
  }

  /** Rust's `/` on signed integers: the quotient is rounded toward zero,
      so the remainder it leaves has the sign of the dividend. */
  function TruncDiv(a: int, b: int): (q: int)
    requires b > 0
    ensures 0 <= a ==> 0 <= a - b * q < b
    ensures a < 0 ==> -b < a - b * q <= 0
  {
    if a >= 0 then a / b else -((-a) / b)
  }

  /** Rust's `%` on signed integers: the remainder of `TruncDiv`. */
  function TruncRem(a: int, b: int): (r: int)
    requires b > 0
    ensures -b < r < b
    ensures 0 <= a ==> r == a % b
    ensures a == b * TruncDiv(a, b) + r
  {
    a - b * TruncDiv(a, b)
  }

  /** Rust's `as u8` on a signed integer keeps the low eight bits. */
  function WrapU8(x: int): (r: u8)
    ensures 0 <= x < 0x100 ==> r == x
    ensures (x - r) % 0x100 == 0
  {
    x % 0x100
  }

  /** The unsigned 32-bit pattern that stores `v` in two's complement. */
  function Bits32(v: i32): (u: int)
    ensures 0 <= u < 0x1_0000_0000
    ensures (u - v) % 0x1_0000_0000 == 0
  {
    if v < 0 then v + 0x1_0000_0000 else v
  }

  /** A C `int` as four bytes, least significant first. */
  function EncodeI32(v: i32): (b: seq<u8>)
    ensures |b| == 4
  {
    var u0 := Bits32(v);
    var u1 := u0 / 0x100;
    var u2 := u1 / 0x100;
    var u3 := u2 / 0x100;
    DivBelow(u0, 0x100, 0x100_0000);
    DivBelow(u1, 0x100, 0x1_0000);
    DivBelow(u2, 0x100, 0x100);
    [u0 % 0x100, u1 % 0x100, u2 % 0x100, u3]
  }

  /** Reads four little-endian bytes back as a C `int`. */
  function DecodeI32(b: seq<u8>): (v: i32)
    requires |b| == 4
    ensures (v < 0) == (b[3] >= 0x80)
  {
    var u := Unsigned32(b);
    if u >= 0x8000_0000 then u - 0x1_0000_0000 else u
  }

  /** The unsigned value of four little-endian bytes. */
  function Unsigned32(b: seq<u8>): (u: int)
    requires |b| == 4
    ensures 0 <= u < 0x1_0000_0000
  {
    var b0: int, b1: int, b2: int, b3: int := b[0], b[1], b[2], b[3];
    b0 + 0x100 * (b1 + 0x100 * (b2 + 0x100 * b3))
  }

  lemma {:induction false} I32RoundTrip(v: i32)
    ensures DecodeI32(EncodeI32(v)) == v
  {
    var u0 := Bits32(v);
    var u1 := u0 / 0x100;
    var u2 := u1 / 0x100;
    var u3 := u2 / 0x100;
    DivModUnique(u0, 0x100, u1, u0 % 0x100);
    DivModUnique(u1, 0x100, u2, u1 % 0x100);
    DivModUnique(u2, 0x100, u3, u2 % 0x100);
    DivBelow(u0, 0x100, 0x100_0000);
    DivBelow(u1, 0x100, 0x1_0000);
    DivBelow(u2, 0x100, 0x100);
    var b := EncodeI32(v);
    assert Unsigned32(b) == u0;
  }

  lemma {:induction false} I32BytesRoundTrip(b: seq<u8>)
    requires |b| == 4
    ensures EncodeI32(DecodeI32(b)) == b
  {
    var b0: int, b1: int, b2: int, b3: int := b[0], b[1], b[2], b[3];
    var u2 := b2 + 0x100 * b3;
    var u1 := b1 + 0x100 * u2;
    var u0 := b0 + 0x100 * u1;
    assert Bits32(DecodeI32(b)) == u0;
    DivModUnique(u0, 0x100, u1, b[0]);
    DivModUnique(u1, 0x100, u2, b[1]);
    DivModUnique(u2, 0x100, b[3], b[2]);
  }
}
