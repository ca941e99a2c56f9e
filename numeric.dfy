/**
 * Fixed-width integer types of the machine and the Rust operators on them
 * whose meaning differs from Dafny's unbounded, Euclidean arithmetic.
 */
module Numeric {

  type uint8 = x: int | 0 <= x < 0x100
  type uint16 = x: int | 0 <= x < 0x1_0000
  type int32 = x: int | -0x8000_0000 <= x < 0x8000_0000
  type uint32 = x: int | 0 <= x < 0x1_0000_0000

  /** `usize` is taken to be 64 bits wide. */
  const USIZE_LIMIT: int := 0x1_0000_0000_0000_0000
  /** The largest length a `Vec<u8>` may be resized to (`isize::MAX`). */
  const ISIZE_MAX: int := 0x7FFF_FFFF_FFFF_FFFF

  predicate InInt32(x: int) {
    -0x8000_0000 <= x < 0x8000_0000
  }

  function Abs(x: int): nat {
    if x < 0 then -x else x
  }

  /** `v as usize` on a 64-bit target: a negative value is sign-extended. */
  function AsUsize(v: int32): (u: nat)
    ensures u < USIZE_LIMIT
    ensures v >= 0 ==> u == v
    ensures v < 0 ==> u >= USIZE_LIMIT / 2
  {
    if v >= 0 then v else USIZE_LIMIT + v
  }

  /** `v as u32`: two's-complement reinterpretation, the value modulo 2^32. */
  function AsUint32(v: int32): (u: uint32)
    ensures v >= 0 ==> u == v
    ensures v < 0 ==> u == v + 0x1_0000_0000
  {
    v % 0x1_0000_0000
  }

  /** `v as u16`: truncation to the low 16 bits. */
  function AsUint16(v: int32): (u: uint16)
    ensures 0 <= v < 0x1_0000 ==> u == v
    ensures (u - v) % 0x1_0000 == 0
  {
    v % 0x1_0000
  }

  /** Rust's `/` on integers: the quotient is rounded toward zero. */
  function TruncDiv(a: int, b: int): (q: int)
    requires b != 0
    ensures q != 0 ==> ((q < 0) <==> ((a < 0) != (b < 0)))
  {
    var n := Abs(a) / Abs(b);
    if (a < 0) == (b < 0) then n else -n
  }

  /** Rust's `%` on integers: the remainder takes the sign of the dividend. */
  function TruncRem(a: int, b: int): (r: int)
    requires b != 0
    ensures a == b * TruncDiv(a, b) + r
    ensures Abs(r) < Abs(b)
    ensures r != 0 ==> ((r < 0) <==> (a < 0))
  {
    TruncDivision(a, b);
    if a >= 0 then Abs(a) % Abs(b) else -(Abs(a) % Abs(b))
  }

  /** Quotient and remainder recompose the dividend. */
  lemma TruncDivision(a: int, b: int)
    requires b != 0
    ensures a == b * TruncDiv(a, b) + (if a >= 0 then Abs(a) % Abs(b) else -(Abs(a) % Abs(b)))
  {
    var q := Abs(a) / Abs(b);
    var m := Abs(a) % Abs(b);
    var p := Abs(b) * q;
    assert Abs(a) == p + m;
    if a >= 0 && b > 0 {
      assert b * TruncDiv(a, b) == p;
    } else if a >= 0 {
      assert b * TruncDiv(a, b) == b * (-q) == (-b) * q == p;
    } else if b > 0 {
      assert b * TruncDiv(a, b) == b * (-q) == -(b * q) == -p;
    } else {
      assert b * TruncDiv(a, b) == b * q == -((-b) * q) == -p;
    }
  }
}
