/**
  Integer literals in flinch.cpp and flinch.hpp. A literal that fits a
  32-bit immediate is stored in the token itself; a large multiple of a
  decimal step or of a power of two is stored as the quotient; anything else
  goes to the interned integer table. The interpreter decodes the immediate
  back into an `int64_t`.

  Both files encode with `num / STEP` (C's truncating division) and
  `num >> SHIFT` (an arithmetic shift, so flooring division), and decode
  with `* STEP` and `<< SHIFT`. flinch.cpp uses 10000 and 15 on both sides.
  flinch.hpp encodes with 1000000000 and 31 but still decodes with 10000
  and 15.
 */
module IntLiteral {
  import opened Wrappers
  import opened MachineInt
  import TokenLog

  /** How a literal is stored: the immediate `n` (an `iword_t`) or a table index. */
  datatype Lit = Inline(n: nat) | BigDec(n: nat) | BigBin(n: nat) | Table(n: nat)

  /** The scaling constants one encoder or decoder uses: the decimal step and `2^SHIFT`. */
  datatype Steps = Steps(dec: nat, bin: nat)

  /** flinch.cpp, on both sides. */
  const CPP_STEPS: Steps := Steps(10000, 32768)

  /** The flinch.hpp encoder, with `sbits == 31`. */
  const HPP_ENCODE_STEPS: Steps := Steps(1000000000, TWO_31)

  /** The flinch.hpp decoder, unchanged from flinch.cpp. */
  const HPP_DECODE_STEPS: Steps := CPP_STEPS

  predicate PositiveSteps(s: Steps) {
    s.dec > 0 && s.bin > 0
  }

  /** An immediate fits in a token field; a table index names an entry. */
  predicate Decodable(table: seq<Int64>, l: Lit) {
    match l
    case Table(n) => n < |table|
    case _ => l.n < TWO_32
  }

  /**
    The packing of `num` (the value of `stoll`): the first tier that
    applies, checked in the order of the source. The table is returned
    because a table entry may be appended.
   */
  function EncodeWith(s: Steps, table: seq<Int64>, num: Int64): (r: (Lit, seq<Int64>))
    requires PositiveSteps(s)
    ensures Decodable(r.1, r.0)
    ensures r.0.Inline? <==> IsInt32(num)
    ensures r.0.Table? <==> r.1 == TokenLog.Intern(table, num).0 && !r.0.Inline? && !r.0.BigDec? && !r.0.BigBin?
    ensures !r.0.Table? ==> r.1 == table
    ensures |table| <= |r.1| && r.1[..|table|] == table
  {
    var decSmol := TruncDiv(num, s.dec);
    var binSmol := FloorDiv(num, s.bin);
    if IsInt32(num) then (Inline(ToU32(num)), table)
    else if decSmol * s.dec == num && IsInt32(decSmol) then (BigDec(ToU32(decSmol)), table)
    else if binSmol * s.bin == num && IsInt32(binSmol) then (BigBin(ToU32(binSmol)), table)
    else
      var (t, i) := TokenLog.Intern(table, num);
      (Table(i), t)
  }

  /**
    The `IntegerInline*` and `Integer` handlers: sign-extend the immediate
    and scale it, or read the table.
   */
  function DecodeWith(s: Steps, table: seq<Int64>, l: Lit): (v: int)
    requires Decodable(table, l)
    ensures l.Inline? ==> IsInt32(v)
    ensures l.BigDec? ==> ScaledBy(v, s.dec)
    ensures l.BigBin? ==> ScaledBy(v, s.bin)
    ensures l.Table? ==> v == table[l.n]
  {
    match l
    case Inline(n) => SignExtend32(n)
    case BigDec(n) => ScaledBack(SignExtend32(n), s.dec); SignExtend32(n) * s.dec
    case BigBin(n) => ScaledBack(SignExtend32(n), s.bin); SignExtend32(n) * s.bin
    case Table(n) => table[n]
  }

  /** `v` is a 32-bit quotient times the step `d`: what a large tier can hold. */
  predicate ScaledBy(v: int, d: nat) {
    d > 0 ==> v % d == 0 && IsInt32(v / d)
  }

  lemma ScaledBack(q: int, d: nat)
    requires IsInt32(q)
    ensures ScaledBy(q * d, d)
  {
    if d > 0 {
      DivModUnique(q * d, d, q, 0);
    }
  }

  /** flinch.cpp:561-580. */
  function Encode(table: seq<Int64>, num: Int64): (r: (Lit, seq<Int64>))
    ensures Decodable(r.1, r.0)
  {
    EncodeWith(CPP_STEPS, table, num)
  }

  /** flinch.cpp:1053-1060. */
  function Decode(table: seq<Int64>, l: Lit): (v: int)
    requires Decodable(table, l)
    ensures l.Inline? ==> IsInt32(v)
    ensures l.BigDec? ==> v % 10000 == 0 && IsInt32(v / 10000)
    ensures l.BigBin? ==> v % 32768 == 0 && IsInt32(v / 32768)
    ensures l.Table? ==> v == table[l.n]
  {
    DecodeWith(CPP_STEPS, table, l)
  }

  /** Decoding with the encoder's own steps gives back the literal, on every tier. */
  lemma RoundTripWith(s: Steps, table: seq<Int64>, num: Int64)
    requires PositiveSteps(s)
    ensures DecodeWith(s, EncodeWith(s, table, num).1, EncodeWith(s, table, num).0) == num
  {
    var decSmol := TruncDiv(num, s.dec);
    var binSmol := FloorDiv(num, s.bin);
    if IsInt32(num) {
      SignExtendToU32(num);
    } else if decSmol * s.dec == num && IsInt32(decSmol) {
      SignExtendToU32(decSmol);
    } else if binSmol * s.bin == num && IsInt32(binSmol) {
      SignExtendToU32(binSmol);
    }
  }

  /** Every `int64_t` literal of flinch.cpp executes as the value it spells. */
  lemma RoundTrip(table: seq<Int64>, num: Int64)
    ensures Decode(Encode(table, num).1, Encode(table, num).0) == num
  {
    RoundTripWith(CPP_STEPS, table, num);
  }

  /** The tiers of flinch.cpp, stated as properties of the value alone. */
  lemma CppTiers(table: seq<Int64>, num: Int64)
    requires !IsInt32(num)
    ensures Encode(table, num).0.BigDec? <==> num % 10000 == 0 && IsInt32(num / 10000)
    ensures Encode(table, num).0.BigDec? ==> SignExtend32(Encode(table, num).0.n) == num / 10000
  {
    var q := TruncDiv(num, 10000);
    if num >= 0 {
      assert q == num / 10000;
    } else {
      assert q == -((-(num as int)) / 10000);
      if num % 10000 == 0 {
        assert q * 10000 == num;
      }
    }
    if Encode(table, num).0.BigDec? {
      SignExtendToU32(q);
    }
  }

  /** flinch.hpp:624-644, as written. */
  function HppEncode(table: seq<Int64>, num: Int64): (r: (Lit, seq<Int64>))
    ensures Decodable(r.1, r.0)
  {
    EncodeWith(HPP_ENCODE_STEPS, table, num)
  }

  /** flinch.hpp:1104-1107, as written. */
  function HppDecode(table: seq<Int64>, l: Lit): (v: int)
    requires Decodable(table, l)
    ensures l.Inline? ==> IsInt32(v)
    ensures l.BigDec? ==> v % 10000 == 0 && IsInt32(v / 10000)
    ensures l.BigBin? ==> v % 32768 == 0 && IsInt32(v / 32768)
    ensures l.Table? ==> v == table[l.n]
  {
    DecodeWith(HPP_DECODE_STEPS, table, l)
  }

  /** The flinch.hpp decoder with the encoder's constants, 1000000000 and `<< 31`. */
  function HppDecodeFixed(table: seq<Int64>, l: Lit): (v: int)
    requires Decodable(table, l)
    ensures l.Inline? ==> IsInt32(v)
    ensures l.BigDec? ==> v % 1000000000 == 0 && IsInt32(v / 1000000000)
    ensures l.BigBin? ==> v % TWO_31 == 0 && IsInt32(v / TWO_31)
    ensures l.Table? ==> v == table[l.n]
  {
    DecodeWith(HPP_ENCODE_STEPS, table, l)
  }

  /**
    As written, a flinch.hpp literal survives exactly when it is stored
    inline or in the table; both large tiers decode to a different number.
   */
  lemma HppRoundTripIff(table: seq<Int64>, num: Int64)
    ensures var (l, t) := HppEncode(table, num);
            HppDecode(t, l) == num <==> l.Inline? || l.Table?
  {
    var (l, t) := HppEncode(table, num);
    RoundTripWith(HPP_ENCODE_STEPS, table, num);
    if l.BigDec? {
      var q := SignExtend32(l.n);
      assert q * 1000000000 == num;
      assert q != 0;
      assert q * 10000 != q * 1000000000;
    } else if l.BigBin? {
      var q := SignExtend32(l.n);
      assert q * TWO_31 == num;
      assert q != 0;
      assert q * 32768 != q * TWO_31;
    }
  }

  /** The literal `3000000000` is stored as `IntegerInlineBigDec 3` and executes as 30000. */
  lemma HppDecimalMismatch()
    ensures HppEncode([], 3000000000).0 == BigDec(3)
    ensures HppDecode([], BigDec(3)) == 30000
  {
    assert TruncDiv(3000000000, 1000000000) == 3;
  }

  /** The literal `2^33` is stored as `IntegerInlineBigBin 4` and executes as 131072. */
  lemma HppBinaryMismatch()
    ensures HppEncode([], 0x2_0000_0000).0 == BigBin(4)
    ensures HppDecode([], BigBin(4)) == 131072
  {
    assert TruncDiv(0x2_0000_0000, 1000000000) == 8;
    assert FloorDiv(0x2_0000_0000, TWO_31) == 4;
  }

  /** With the corrected decoder every flinch.hpp literal round-trips. */
  lemma HppFixedRoundTrip(table: seq<Int64>, num: Int64)
    ensures HppDecodeFixed(HppEncode(table, num).1, HppEncode(table, num).0) == num
  {
    RoundTripWith(HPP_ENCODE_STEPS, table, num);
  }

  /** An `int32_t`-range literal is inline in both files and the two decoders agree on it. */
  lemma InlineAgrees(table: seq<Int64>, num: Int64)
    requires IsInt32(num)
    ensures Encode(table, num) == HppEncode(table, num) == (Inline(ToU32(num)), table)
    ensures HppDecode(table, Inline(ToU32(num))) == num
  {
    SignExtendToU32(num);
  }

  // ----- `isint` and `stoll` -----

  predicate IsDigit(c: char) {
    '0' <= c <= '9'
  }

  /**
    `isint`: non-empty, an optional leading sign, then only digits. A lone
    sign passes; the tokens `+` and `-` are operators and never get here.
   */
  predicate IsIntToken(s: string) {
    |s| > 0 && forall k :: (if s[0] == '+' || s[0] == '-' then 1 else 0) <= k < |s| ==> IsDigit(s[k])
  }

  /** The value of a run of decimal digits. */
  function DigitsValue(s: string): (v: nat)
    requires forall k :: 0 <= k < |s| ==> IsDigit(s[k])
    decreases |s|
  {
    if |s| == 0 then 0
    else
      assert IsDigit(s[|s| - 1]);
      DigitsValue(s[..|s| - 1]) * 10 + (s[|s| - 1] as int - '0' as int)
  }

  /** Why `stoll` throws. */
  datatype StollError = InvalidArgument | OutOfRange

  /** `stoll` on a token that passed `isint`. */
  function Stoll(s: string): (r: Result<Int64, StollError>)
    requires IsIntToken(s)
    ensures r.Ok? ==> IsInt64(r.value)
    ensures r == Err(InvalidArgument) <==> |s| == 1 && (s[0] == '+' || s[0] == '-')
  {
    var signed := s[0] == '+' || s[0] == '-';
    var digits := if signed then s[1..] else s;
    if |digits| == 0 then Err(InvalidArgument)
    else
      var v: int := if s[0] == '-' then -(DigitsValue(digits) as int) else DigitsValue(digits);
      if IsInt64(v) then Ok(v) else Err(OutOfRange)
  }

  /** Appending a digit scales the value by ten; the partner of `DigitsValue`. */
  lemma DigitsAppend(s: string, c: char)
    requires forall k :: 0 <= k < |s| ==> IsDigit(s[k])
    requires IsDigit(c)
    ensures forall k :: 0 <= k < |s + [c]| ==> IsDigit((s + [c])[k])
    ensures DigitsValue(s + [c]) == 10 * DigitsValue(s) + (c as int - '0' as int)
  {
    assert (s + [c])[..|s|] == s;
  }

  /** Leading zeros do not change the value. */
  lemma {:induction false} LeadingZero(s: string)
    requires forall k :: 0 <= k < |s| ==> IsDigit(s[k])
    ensures forall k :: 0 <= k < |['0'] + s| ==> IsDigit((['0'] + s)[k])
    ensures DigitsValue(['0'] + s) == DigitsValue(s)
    decreases |s|
  {
    if |s| > 0 {
      var init := s[..|s| - 1];
      LeadingZero(init);
      assert (['0'] + s)[..|s|] == ['0'] + init;
    }
  }
}
