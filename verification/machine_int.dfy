/**
  Fixed-width integer helpers. Dafny integers are unbounded, so every place
  where the source relies on a 32- or 64-bit representation, on C's
  truncating division or on Python's flooring division goes through here.
 */
module MachineInt {

  const TWO_31: int := 0x8000_0000
  const TWO_32: int := 0x1_0000_0000
  const TWO_63: int := 0x8000_0000_0000_0000
  const TWO_64: int := 0x1_0000_0000_0000_0000

  const I32_MIN: int := -TWO_31
  const I32_MAX: int := TWO_31 - 1
  const I64_MIN: int := -TWO_63
  const I64_MAX: int := TWO_63 - 1

  /** `INT_MAX` of a 32-bit C `int`. */
  const INT_MAX: int := I32_MAX

  predicate IsInt32(x: int) {
    I32_MIN <= x <= I32_MAX
  }

  predicate IsInt64(x: int) {
    I64_MIN <= x <= I64_MAX
  }

  /** An `int64_t`. */
  type Int64 = x: int | IsInt64(x)

  /** The C conversion of an integer to `uint32_t`: reduction modulo 2^32. */
  function ToU32(x: int): (r: nat)
    ensures r < TWO_32
    ensures (x - r) % TWO_32 == 0
  {
    x % TWO_32
  }

  /** The C conversion of a `uint32_t` to `int32_t` (two's complement). */
  function SignExtend32(n: nat): (r: int)
    requires n < TWO_32
    ensures IsInt32(r)
    ensures (r - n) % TWO_32 == 0
  {
    if n < TWO_31 then n else n - TWO_32
  }

  /** A value in the `int32_t` range survives the trip through `uint32_t`. */
  lemma SignExtendToU32(x: int)
    requires IsInt32(x)
    ensures SignExtend32(ToU32(x)) == x
  {
    if x < 0 {
      assert ToU32(x) == x + TWO_32;
    }
  }

  /** C `/`: the quotient truncated toward zero. */
  function TruncDiv(a: int, b: int): (q: int)
    requires b != 0
    ensures a >= 0 && b > 0 ==> q == a / b
  {
    if (a >= 0) == (b > 0) then
      (if a >= 0 then a / b else (-a) / (-b))
    else
      -((if a >= 0 then a else -a) / (if b > 0 then b else -b))
  }

  /** C `%`: the remainder that goes with `TruncDiv`, carrying the dividend's sign. */
  function TruncMod(a: int, b: int): (r: int)
    requires b != 0
  {
    a - b * TruncDiv(a, b)
  }

  /** Python `//` on integers: the quotient rounded toward negative infinity. */
  function FloorDiv(a: int, b: int): (q: int)
    requires b != 0
    ensures b * q <= a < b * q + b || b * q + b < a <= b * q
  {
    if b > 0 then a / b else (-a) / (-b)
  }

  /** Python `%` on integers: the remainder carries the divisor's sign. */
  function FloorMod(a: int, b: int): (r: int)
    requires b != 0
    ensures b > 0 ==> 0 <= r < b
    ensures b < 0 ==> b < r <= 0
    ensures a == b * FloorDiv(a, b) + r
  {
    a - b * FloorDiv(a, b)
  }

  /** 2 to the power `k`. */
  function Pow2(k: nat): (r: nat)
    ensures r >= 1
  {
    if k == 0 then 1 else 2 * Pow2(k - 1)
  }

  /** `a << k` on unbounded integers: `k` doublings. */
  function ShiftUp(a: int, k: nat): (r: int)
    decreases k
  {
    if k == 0 then a else 2 * ShiftUp(a, k - 1)
  }

  /** `a >> k` on unbounded integers: `k` halvings, each rounding toward negative infinity. */
  function ShiftDown(a: int, k: nat): (r: int)
    decreases k
  {
    if k == 0 then a else ShiftDown(a / 2, k - 1)
  }

  lemma {:induction false} ShiftUpIsProduct(a: int, k: nat)
    ensures ShiftUp(a, k) == a * Pow2(k)
  {
    if k > 0 {
      ShiftUpIsProduct(a, k - 1);
      assert a * Pow2(k) == 2 * (a * Pow2(k - 1));
    }
  }

  lemma {:induction false} ShiftDownUp(a: int, k: nat)
    ensures ShiftDown(ShiftUp(a, k), k) == a
  {
    if k > 0 {
      ShiftDownUp(a, k - 1);
      ShiftDownTwice(ShiftUp(a, k - 1), k - 1);
    }
  }

  lemma {:induction false} ShiftDownTwice(a: int, k: nat)
    ensures ShiftDown(2 * a, k + 1) == ShiftDown(a, k)
  {
    assert (2 * a) / 2 == a;
  }

  lemma {:induction false} Pow2Add(a: nat, b: nat)
    ensures Pow2(a + b) == Pow2(a) * Pow2(b)
    decreases a
  {
    if a > 0 {
      Pow2Add(a - 1, b);
    }
  }

  lemma Pow2Widths()
    ensures Pow2(64) == TWO_64 && Pow2(63) == TWO_63
  {
    Pow2Of32();
    Pow2Add(32, 32);
    Pow2Add(32, 31);
  }

  lemma Pow2Of32()
    ensures Pow2(32) == TWO_32 && Pow2(31) == TWO_31
  {
    Pow2Of16();
    Pow2Add(16, 16);
    Pow2Add(16, 15);
  }

  lemma Pow2Of16()
    ensures Pow2(16) == 65536 && Pow2(15) == 32768
  {
    assert Pow2(8) == 256;
    assert Pow2(7) == 128;
    Pow2Add(8, 8);
    Pow2Add(8, 7);
  }

  /** The conversion of an `int64_t` to `uint64_t`: reduction modulo 2^64. */
  function ToU64(x: int): (r: nat)
    ensures r < TWO_64
  {
    x % TWO_64
  }

  /** The `int64_t` congruent to `x` modulo 2^64 (a conversion from `uint64_t`, or C++20 `<<`). */
  function Wrap64(x: int): (r: int)
    ensures IsInt64(r)
  {
    var m := x % TWO_64;
    if m < TWO_63 then m else m - TWO_64
  }

  /** An `int64_t` survives the trip through `uint64_t`. */
  lemma Wrap64ToU64(x: int)
    requires IsInt64(x)
    ensures Wrap64(ToU64(x)) == x
  {
    if x < 0 {
      assert x % TWO_64 == x + TWO_64;
    }
  }

  /** A 64-bit pattern survives the trip through `int64_t`. */
  lemma ToU64Wrap64(u: nat)
    requires u < TWO_64
    ensures ToU64(Wrap64(u)) == u
  {
    if u >= TWO_63 {
      assert (u - TWO_64) % TWO_64 == u;
    }
  }

  /** The bitwise operators `&`, `|` and `^`. */
  datatype BitOp = AndBits | OrBits | XorBits

  /** One bit of the result from one bit of each operand. */
  function Bit(op: BitOp, x: nat, y: nat): (r: nat)
    requires x < 2 && y < 2
    ensures r < 2
  {
    match op
    case AndBits => x * y
    case OrBits => if x + y > 0 then 1 else 0
    case XorBits => (x + y) % 2
  }

  /** The low `w` bits of `a` and `b`, combined bit by bit. */
  function BitsN(op: BitOp, a: nat, b: nat, w: nat): (r: nat)
    ensures r < Pow2(w)
  {
    if w == 0 then 0 else 2 * BitsN(op, a / 2, b / 2, w - 1) + Bit(op, a % 2, b % 2)
  }

  /** `&`, `|` or `^` on `int64_t`, done on the `uint64_t` bits as flinch's `DynamicType` does. */
  function Bitwise64(op: BitOp, a: int, b: int): (r: int)
    ensures IsInt64(r)
  {
    Wrap64(BitsN(op, ToU64(a), ToU64(b), 64))
  }

  /** `~` on the `uint64_t` bits of an `int64_t`: every one of the 64 bits flips. */
  function Not64(a: int): (r: int)
    ensures IsInt64(r)
  {
    Wrap64(TWO_64 - 1 - ToU64(a))
  }

  /** Splitting off the lowest bit. */
  lemma ModPow2Step(a: nat, w: nat)
    requires w > 0
    ensures a % Pow2(w) == 2 * ((a / 2) % Pow2(w - 1)) + a % 2
  {
    var p := Pow2(w - 1);
    var h, b := a / 2, a % 2;
    var q, r := h / p, h % p;
    assert h == p * q + r;
    assert a == 2 * h + b;
    MulAssoc2(p, q);
    assert a == (2 * p) * q + (2 * r + b);
    DivModUnique(a, 2 * p, q, 2 * r + b);
  }

  lemma MulAssoc2(p: int, q: int)
    ensures 2 * (p * q) == (2 * p) * q
  {
  }

  /** `m * d` is at least `m` for a positive `d`. */
  lemma MulGrows(m: nat, d: int)
    requires d >= 1
    ensures m * d >= m
  {
    assert m * d == m * (d - 1) + m;
  }

  /** Euclidean division has only one quotient and remainder. */
  lemma DivModUnique(a: int, m: nat, q: int, r: int)
    requires m > 0 && a == m * q + r && 0 <= r < m
    ensures a / m == q && a % m == r
  {
    var q2, r2 := a / m, a % m;
    assert a == m * q2 + r2;
    assert m * q - m * q2 == m * (q - q2);
    assert m * q2 - m * q == m * (q2 - q);
    if q > q2 {
      MulGrows(m, q - q2);
    } else if q < q2 {
      MulGrows(m, q2 - q);
    }
  }

  /** Multiplying and then dividing by a positive number gives the number back. */
  lemma DivOfMul(a: int, m: nat)
    requires m > 0
    ensures (a * m) / m == a
  {
    DivModUnique(a * m, m, a, 0);
  }

  /** An `int64_t` is its own wrap. */
  lemma Wrap64Id(x: int)
    requires IsInt64(x)
    ensures Wrap64(x) == x
  {
    if x < 0 {
      assert x % TWO_64 == x + TWO_64;
    }
  }

  /** The halves of `2 * y + b`. */
  lemma HalfOf(y: nat, b: nat)
    requires b < 2
    ensures (2 * y + b) / 2 == y && (2 * y + b) % 2 == b
  {
  }

  /** `^` twice with the same `b` restores the low bits of `a`. */
  lemma {:induction false} XorTwiceN(a: nat, b: nat, w: nat)
    ensures BitsN(XorBits, BitsN(XorBits, a, b, w), b, w) == a % Pow2(w)
    decreases w
  {
    if w > 0 {
      var y := BitsN(XorBits, a / 2, b / 2, w - 1);
      var c := Bit(XorBits, a % 2, b % 2);
      var x := BitsN(XorBits, a, b, w);
      assert x == 2 * y + c;
      HalfOf(y, c);
      XorTwiceN(a / 2, b / 2, w - 1);
      assert BitsN(XorBits, x, b, w) == 2 * BitsN(XorBits, y, b / 2, w - 1) + Bit(XorBits, c, b % 2);
      assert Bit(XorBits, c, b % 2) == a % 2;
      ModPow2Step(a, w);
    }
  }

  /** `^` with the same `int64_t` twice gives back the first operand. */
  lemma Xor64Twice(a: int, b: int)
    requires IsInt64(a) && IsInt64(b)
    ensures Bitwise64(XorBits, Bitwise64(XorBits, a, b), b) == a
  {
    var ua, ub := ToU64(a), ToU64(b);
    var bits := BitsN(XorBits, ua, ub, 64);
    Pow2Widths();
    var x := Wrap64(bits);
    assert Bitwise64(XorBits, a, b) == x;
    ToU64Wrap64(bits);
    assert Bitwise64(XorBits, x, b) == Wrap64(BitsN(XorBits, bits, ub, 64));
    XorTwiceN(ua, ub, 64);
    assert ua % Pow2(64) == ua;
    Wrap64ToU64(a);
  }
}
