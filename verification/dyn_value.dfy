/**
  `DynamicType` of flinch.cpp and flinch.hpp: the tagged value the
  interpreters push, and its operators.

  Integers are `int64_t`; signed overflow, division by zero and shift
  counts outside [0, 64) are undefined behaviour in C++ and become
  `Undefined` faults. Shifts follow C++20: `<<` wraps modulo 2^64 and `>>`
  is arithmetic. A `double` is kept only as a value kind: arithmetic with a
  double yields a double, and anything whose outcome depends on a double's
  value (a comparison, truthiness, a conversion to an integer) is an
  `Unmodelled` fault.
 */
module DynValue {
  import opened Wrappers
  import opened MachineInt
  import opened Tokens

  /** What a `Ref` points at: a global slot, a slot of a call frame, or an array element. */
  datatype Place = Global(slot: nat) | Local(frame: nat, slot: nat) | Elem(array: nat, index: nat)

  /**
    `DynamicType`. `F` is the payload of a function value: flinch.cpp keeps
    `{loc, len, name}`, flinch.hpp keeps `{loc, varcount}`. An array is a
    handle into the interpreter's array store, so copies of it share the
    elements, as the source's pointers do.
   */
  datatype Value<F> = Int(i: Int64) | Dbl | Ref(p: Place) | Label(loc: int) | Func(f: F) | Array(id: nat)

  predicate Numeric<F>(v: Value<F>) {
    v.Int? || v.Dbl?
  }

  /** A result that must be an `int64_t`, or undefined behaviour. */
  function Checked(x: int): (r: Result<Int64, Fault>)
    ensures r.Ok? <==> IsInt64(x)
    ensures r.Ok? ==> r.value == x
  {
    if IsInt64(x) then Ok(x) else Err(Undefined(SignedOverflow))
  }

  function Flag(b: bool): int {
    if b then 1 else 0
  }

  function Compare(c: Cmp, a: int, b: int): bool {
    match c
    case EQ => a == b
    case NE => a != b
    case LE => a <= b
    case GE => a >= b
    case LT => a < b
    case GT => a > b
  }

  /** A binary operator on two `int64_t` operands. */
  function IntBin(op: BinOp, a: int, b: int): (r: Result<int, Fault>)
    requires IsInt64(a) && IsInt64(b)
    ensures r.Ok? ==> IsInt64(r.value)
    ensures r.Err? ==> r.error.Undefined?
  {
    match op
    case ArithOp(Add) => Checked(a + b)
    case ArithOp(Sub) => Checked(a - b)
    case ArithOp(Mul) => Checked(a * b)
    case ArithOp(Div) =>
      if b == 0 then Err(Undefined(DivisionByZero)) else Checked(TruncDiv(a, b))
    case ArithOp(Mod) =>
      if b == 0 then Err(Undefined(DivisionByZero))
      else if a == I64_MIN && b == -1 then Err(Undefined(SignedOverflow))
      else Checked(TruncMod(a, b))
    case Shl =>
      if b < 0 || b >= 64 then Err(Undefined(ShiftCount)) else Ok(Wrap64(ShiftUp(a, b)))
    case Shr =>
      if b < 0 || b >= 64 then Err(Undefined(ShiftCount)) else Checked(ShiftDown(a, b))
    case And => Ok(Bitwise64(AndBits, a, b))
    case Or => Ok(Bitwise64(OrBits, a, b))
    case Xor => Ok(Bitwise64(XorBits, a, b))
    case BoolAnd => Ok(Flag(a != 0 && b != 0))
    case BoolOr => Ok(Flag(a != 0 || b != 0))
    case CmpOp(c) => Ok(Flag(Compare(c, a, b)))
  }

  /**
    The `INFIX` operators: integer arithmetic for two integers, a double
    when a double takes part in `+ - * / %`, and an exception for any
    operand that is not a number.
   */
  function Binary<F>(op: BinOp, a: Value<F>, b: Value<F>): (r: Result<Value<F>, Fault>)
  {
    if !Numeric(a) || !Numeric(b) then Err(Thrown(NonNumericOperands))
    else if a.Int? && b.Int? then
      var v :- IntBin(op, a.i, b.i);
      Ok(Int(v))
    else if op.ArithOp? then Ok(Dbl)
    else Err(Unmodelled(DoubleOperator))
  }

  /**
    A comparison operator used directly as a condition: `INFIX` with the
    `!!` wrappers yields a `bool`.
   */
  function CompareOp<F>(c: Cmp, a: Value<F>, b: Value<F>): (r: Result<bool, Fault>)
  {
    if !Numeric(a) || !Numeric(b) then Err(Thrown(NonNumericOperands))
    else if a.Int? && b.Int? then Ok(Compare(c, a.i, b.i))
    else Err(Unmodelled(DoubleOperator))
  }

  /** `explicit operator bool`. */
  function Truthy<F>(v: Value<F>): (r: Result<bool, Fault>)
    ensures r.Err? <==> v.Dbl?
  {
    match v
    case Int(i) => Ok(i != 0)
    case Dbl => Err(Unmodelled(DoubleTruth))
    case _ => Ok(true)
  }

  /** flinch.hpp's unary operators; each wraps its result as `int64_t`. */
  function Unary<F>(op: UnOp, v: Value<F>): (r: Result<Value<F>, Fault>)
    ensures r.Ok? ==> r.value.Int?
  {
    if v.Dbl? then Err(Unmodelled(DoubleOperator))
    else if !v.Int? then Err(Thrown(NonNumericOperand))
    else match op
      case Neg => var x :- Checked(-(v.i as int)); Ok(Int(x))
      case BoolNot => Ok(Int(Flag(v.i == 0)))
      case BitNot => Ok(Int(Not64(v.i)))
  }

  // ----- properties -----

  /**
    The result kinds: an exception exactly when an operand is not a number;
    otherwise an integer for two integers and a double for arithmetic with a
    double.
   */
  lemma BinaryKinds<F>(op: BinOp, a: Value<F>, b: Value<F>)
    ensures Binary(op, a, b).Err? && Binary(op, a, b).error.Thrown? <==> !Numeric(a) || !Numeric(b)
    ensures a.Int? && b.Int? && Binary(op, a, b).Ok? ==> Binary(op, a, b).value.Int?
    ensures Numeric(a) && Numeric(b) && (a.Dbl? || b.Dbl?) && op.ArithOp? ==> Binary(op, a, b) == Ok(Dbl)
  {
  }

  /** On integers `+`, `-` and `*` compute the mathematical result exactly when it fits. */
  lemma ArithExact(a: int, b: int)
    requires IsInt64(a) && IsInt64(b)
    ensures IntBin(ArithOp(Add), a, b) == (if IsInt64(a + b) then Ok(a + b) else Err(Undefined(SignedOverflow)))
    ensures IntBin(ArithOp(Sub), a, b) == (if IsInt64(a - b) then Ok(a - b) else Err(Undefined(SignedOverflow)))
    ensures IsInt64(a * b) <==> IntBin(ArithOp(Mul), a, b) == Ok(a * b)
  {
  }

  /** Whenever `/` and `%` are both defined, quotient times divisor plus remainder is the dividend. */
  lemma DivModIdentity(a: int, b: int)
    requires IsInt64(a) && IsInt64(b)
    requires IntBin(ArithOp(Div), a, b).Ok? && IntBin(ArithOp(Mod), a, b).Ok?
    ensures IntBin(ArithOp(Div), a, b).value * b + IntBin(ArithOp(Mod), a, b).value == a
  {
    var q := TruncDiv(a, b);
    assert IntBin(ArithOp(Div), a, b).value == q;
    assert IntBin(ArithOp(Mod), a, b).value == a - b * q;
    assert q * b == b * q;
  }

  /** `-` undoes `+` whenever the sum is defined. */
  lemma AddSubInverse<F>(a: Value<F>, b: Value<F>)
    requires a.Int? && b.Int?
    ensures Binary(ArithOp(Add), a, b).Ok? ==>
              Binary(ArithOp(Sub), Binary(ArithOp(Add), a, b).value, b) == Ok(a)
  {
  }

  /** `^` with the same operand twice gives back the first operand. */
  lemma XorTwice(a: int, b: int)
    requires IsInt64(a) && IsInt64(b)
    ensures IntBin(Xor, IntBin(Xor, a, b).value, b) == Ok(a)
  {
    var x := Bitwise64(XorBits, a, b);
    assert IntBin(Xor, a, b) == Ok(x);
    Xor64Twice(a, b);
  }

  /** `~` is `-x - 1` on every `int64_t`. */
  lemma BitNotIsNegMinusOne<F>(v: Value<F>)
    requires v.Int?
    ensures Unary(BitNot, v) == Ok(Int(-(v.i as int) - 1))
  {
    var x := v.i;
    if x < 0 {
      assert ToU64(x) == x + TWO_64;
      Wrap64Id(-x - 1);
    } else {
      assert ToU64(x) == x;
    }
  }

  /** `<<` multiplies by a power of two when the product fits, and `>>` then undoes it. */
  lemma ShiftBack(a: int, k: nat)
    requires IsInt64(a) && k < 64 && IsInt64(a * Pow2(k))
    ensures IntBin(Shl, a, k) == Ok(a * Pow2(k))
    ensures IntBin(Shr, a * Pow2(k), k) == Ok(a)
  {
    ShiftUpIsProduct(a, k);
    Wrap64Id(a * Pow2(k));
    ShiftDownUp(a, k);
  }

  /**
    A comparison used as a condition agrees with the same comparison
    pushed as a 0 or 1 and then tested for truth.
   */
  lemma CompareThroughBinary<F>(c: Cmp, a: Value<F>, b: Value<F>)
    ensures CompareOp(c, a, b) == (var v :- Binary(CmpOp(c), a, b); Truthy(v))
  {
  }

  /** Swapping the operands swaps `<` with `>` and `<=` with `>=`, and keeps `==`. */
  lemma CompareMirror(a: int, b: int)
    ensures Compare(LT, a, b) == Compare(GT, b, a) && Compare(LE, a, b) == Compare(GE, b, a)
    ensures Compare(EQ, a, b) == Compare(EQ, b, a) && Compare(NE, a, b) == !Compare(EQ, a, b)
  {
  }

  /** Truthiness is "non-zero" for integers and true for every non-number. */
  lemma TruthyIff<F>(v: Value<F>)
    requires !v.Dbl?
    ensures Truthy(v) == Ok(!(v.Int? && v.i == 0))
  {
  }
}
