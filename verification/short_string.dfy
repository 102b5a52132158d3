/**
  `ShortString` of types.hpp: a string of at most 247 bytes stored inline.

  The bytes are C `char`s, taken as signed, as they are on x86-64, so `<`
  orders a byte of 0x80 or above before every ASCII byte. Failing
  `assert`s are modelled as the `CapacityExceeded` error.
 */
module ShortStr {
  import opened Wrappers
  import opened MachineInt

  /** A C `char`. */
  newtype Char8 = x: int | -128 <= x < 128

  /** `mcap`: 256 bytes minus the `size_t` length field. */
  const MCAP: nat := 248

  /** The largest length a C string may have to be converted (`mlength < mcap - 1`). */
  const CSTR_MAX: nat := 246

  /** `(size_t)-1`, the default `len` of `substr`. */
  const NPOS: nat := TWO_64 - 1

  datatype ShortString = ShortString(bytes: seq<Char8>)

  datatype Fault = CapacityExceeded

  /** Every reachable `ShortString` has fewer than `mcap` bytes. */
  predicate Valid(s: ShortString) {
    |s.bytes| < MCAP
  }

  /** No byte is NUL; true of every string built from C strings. */
  predicate NoNul(b: seq<Char8>) {
    forall k :: 0 <= k < |b| ==> b[k] != 0
  }

  const Empty: ShortString := ShortString([])

  // ----- equality and order -----

  /** `operator==`: the length test, then a byte-by-byte scan. */
  method Eq(a: ShortString, b: ShortString) returns (r: bool)
    ensures r <==> a.bytes == b.bytes
  {
    if |b.bytes| != |a.bytes| {
      return false;
    }
    var i := 0;
    while i < |a.bytes|
      invariant i <= |a.bytes|
      invariant a.bytes[..i] == b.bytes[..i]
    {
      if a.bytes[i] != b.bytes[i] {
        return false;
      }
      i := i + 1;
    }
    assert a.bytes == a.bytes[..i] && b.bytes == b.bytes[..i];
    return true;
  }

  /** The length of the longest common prefix of `a` and `b`. */
  function CommonPrefix(a: seq<Char8>, b: seq<Char8>): (k: nat)
    ensures k <= |a| && k <= |b|
    ensures a[..k] == b[..k]
    ensures k < |a| && k < |b| ==> a[k] != b[k]
  {
    if |a| == 0 || |b| == 0 || a[0] != b[0] then 0
    else
      var k := CommonPrefix(a[1..], b[1..]);
      assert a[..k + 1] == [a[0]] + a[1..][..k];
      assert b[..k + 1] == [b[0]] + b[1..][..k];
      k + 1
  }

  /** Any position where the prefixes agree and then stop agreeing is the common prefix. */
  lemma {:induction false} CommonPrefixUnique(a: seq<Char8>, b: seq<Char8>, k: nat)
    requires k <= |a| && k <= |b| && a[..k] == b[..k]
    requires k == |a| || k == |b| || a[k] != b[k]
    ensures CommonPrefix(a, b) == k
  {
    if k > 0 {
      assert a[0] == a[..k][0] && b[0] == b[..k][0];
      assert a[1..][..k - 1] == a[..k][1..] && b[1..][..k - 1] == b[..k][1..];
      CommonPrefixUnique(a[1..], b[1..], k - 1);
    }
  }

  /**
    Lexicographic order: the first differing byte decides, and a proper
    prefix comes first.
   */
  predicate LexLess(a: seq<Char8>, b: seq<Char8>) {
    var k := CommonPrefix(a, b);
    if k < |a| && k < |b| then a[k] < b[k] else |a| < |b|
  }

  predicate Less(a: ShortString, b: ShortString) {
    LexLess(a.bytes, b.bytes)
  }

  /** `operator<`: scan while both have bytes; the first difference decides, else the shorter one. */
  method Lt(a: ShortString, b: ShortString) returns (r: bool)
    ensures r <==> Less(a, b)
  {
    var i := 0;
    while i < |a.bytes| && i < |b.bytes|
      invariant i <= |a.bytes| && i <= |b.bytes|
      invariant a.bytes[..i] == b.bytes[..i]
    {
      if a.bytes[i] != b.bytes[i] {
        CommonPrefixUnique(a.bytes, b.bytes, i);
        return a.bytes[i] < b.bytes[i];
      }
      assert a.bytes[..i + 1] == a.bytes[..i] + [a.bytes[i]];
      assert b.bytes[..i + 1] == b.bytes[..i] + [b.bytes[i]];
      i := i + 1;
    }
    CommonPrefixUnique(a.bytes, b.bytes, i);
    return |a.bytes| < |b.bytes|;
  }

  lemma LexLessIrreflexive(a: seq<Char8>)
    ensures !LexLess(a, a)
  {
    CommonPrefixUnique(a, a, |a|);
  }

  /** Exactly one of `a < b`, `a == b`, `b < a` holds. */
  lemma LexLessTrichotomy(a: seq<Char8>, b: seq<Char8>)
    ensures a == b || LexLess(a, b) || LexLess(b, a)
    ensures !(LexLess(a, b) && LexLess(b, a))
    ensures a == b ==> !LexLess(a, b)
  {
    var k := CommonPrefix(a, b);
    CommonPrefixUnique(b, a, k);
    LexLessIrreflexive(a);
    if k == |a| && k == |b| {
      assert a == a[..k] && b == b[..k];
    }
  }

  lemma LexLessTransitive(a: seq<Char8>, b: seq<Char8>, c: seq<Char8>)
    requires LexLess(a, b) && LexLess(b, c)
    ensures LexLess(a, c)
  {
    var i := CommonPrefix(a, b);
    var j := CommonPrefix(b, c);
    var m := if i < j then i else j;
    assert a[..m] == c[..m] by {
      assert a[..m] == a[..i][..m] && b[..m] == b[..i][..m];
      assert b[..m] == b[..j][..m] && c[..m] == c[..j][..m];
    }
    if i < j {
      // a and b part at i (or a ends there); b and c still agree at i
      assert b[i] == b[..j][i] == c[..j][i] == c[i];
      if i < |a| {
        assert a[..i + 1] != c[..i + 1] by { assert a[i] != c[i]; }
      }
      CommonPrefixUnique(a, c, i);
    } else if j < i {
      assert a[j] == a[..i][j] == b[..i][j] == b[j];
      CommonPrefixUnique(a, c, j);
    } else {
      if i < |a| && i < |c| {
        CommonPrefixUnique(a, c, i);
      } else {
        CommonPrefixUnique(a, c, i);
      }
    }
  }

  // ----- construction and appending -----

  /** The index of the first NUL byte of a C string. */
  function CLength(data: seq<Char8>): (n: nat)
    requires 0 in data
    ensures n < |data| && data[n] == 0 && NoNul(data[..n])
  {
    if data[0] == 0 then 0
    else
      assert 0 in data[1..] by {
        var k :| 0 <= k < |data| && data[k] == 0;
        assert data[1..][k - 1] == 0;
      }
      var n := CLength(data[1..]);
      assert data[..n + 1] == [data[0]] + data[1..][..n];
      n + 1
  }

  /** `ShortString(const char *)`: copies up to the terminating NUL and asserts the length fits. */
  function FromCStr(data: seq<Char8>): (r: Result<ShortString, Fault>)
    requires 0 in data
    ensures r.Ok? <==> CLength(data) <= CSTR_MAX
    ensures r.Ok? ==> r.value.bytes == data[..CLength(data)] && Valid(r.value) && NoNul(r.value.bytes)
  {
    var n := CLength(data);
    if n <= CSTR_MAX then Ok(ShortString(data[..n])) else Err(CapacityExceeded)
  }

  /** The loop of `operator+=`: one byte at a time, asserting `mlength < mcap` after each. */
  function AppendBytes(acc: seq<Char8>, b: seq<Char8>): (r: Result<seq<Char8>, Fault>)
    ensures r.Ok? <==> |b| == 0 || |acc| + |b| < MCAP
    ensures r.Ok? ==> r.value == acc + b
    decreases |b|
  {
    if |b| == 0 then Ok(acc)
    else if |acc| + 1 < MCAP then
      var r := AppendBytes(acc + [b[0]], b[1..]);
      assert acc + [b[0]] + b[1..] == acc + b;
      r
    else Err(CapacityExceeded)
  }

  /** `operator+=(const ShortString &)`. */
  function Append(a: ShortString, b: ShortString): (r: Result<ShortString, Fault>)
    ensures r.Ok? <==> |b.bytes| == 0 || |a.bytes| + |b.bytes| < MCAP
    ensures r.Ok? ==> r.value.bytes == a.bytes + b.bytes
    ensures r.Ok? && Valid(a) ==> Valid(r.value)
  {
    var bytes :- AppendBytes(a.bytes, b.bytes);
    Ok(ShortString(bytes))
  }

  /**
    `operator+=(char)`: goes through the C string `{c, 0}`, so appending
    NUL appends nothing.
   */
  function AppendChar(a: ShortString, c: Char8): (r: Result<ShortString, Fault>)
    ensures c == 0 ==> r == Ok(a)
    ensures c != 0 ==> (r.Ok? <==> |a.bytes| + 1 < MCAP)
    ensures c != 0 && r.Ok? ==> r.value.bytes == a.bytes + [c]
  {
    var data: seq<Char8> := [c, 0];
    assert 0 in data;
    var s := FromCStr(data).value;
    Append(a, s)
  }

  /** The bytes of `b` that are not NUL, in order. */
  function DropNul(b: seq<Char8>): (r: seq<Char8>)
    ensures |r| <= |b|
  {
    if |b| == 0 then []
    else (if b[0] == 0 then [] else [b[0]]) + DropNul(b[1..])
  }

  lemma {:induction false} DropNulKeepsNoNul(b: seq<Char8>)
    requires NoNul(b)
    ensures DropNul(b) == b
  {
    if |b| > 0 {
      DropNulKeepsNoNul(b[1..]);
    }
  }

  lemma {:induction false} DropNulAppend(a: seq<Char8>, c: Char8)
    ensures DropNul(a + [c]) == DropNul(a) + (if c == 0 then [] else [c])
  {
    if |a| > 0 {
      assert (a + [c])[1..] == a[1..] + [c];
      DropNulAppend(a[1..], c);
    } else {
      assert a + [c] == [c];
    }
  }

  /** The copy loop of `substr`: `ret += (*this)[pos + i]` for `i` in `[0, n)`. */
  function CopyChars(ret: ShortString, b: seq<Char8>, pos: nat, n: nat): (r: ShortString)
    requires pos + n <= |b| && |ret.bytes| + n < MCAP
    ensures r.bytes == ret.bytes + DropNul(b[pos..pos + n])
    decreases n
  {
    if n == 0 then ret
    else
      var ret' := AppendChar(ret, b[pos]).value;
      var r := CopyChars(ret', b, pos + 1, n - 1);
      assert b[pos..pos + n] == [b[pos]] + b[pos + 1..pos + n];
      r
  }

  /** `size - pos` in `size_t`: the default `len`. Both operands are below 2^64, so one wrap at most. */
  function SizeMinus(size: nat, pos: nat): (n: nat)
    requires size < TWO_64 && pos < TWO_64
    ensures n < TWO_64 && (n - (size - pos)) % TWO_64 == 0
    ensures pos <= size ==> n == size - pos
    ensures pos > size ==> n == size - pos + TWO_64
  {
    if pos <= size then size - pos else size - pos + TWO_64
  }

  /** `pos += size` when `pos` read as `ptrdiff_t` is negative, in `size_t`. */
  function NegativeStart(size: nat, pos: nat): (p: nat)
    requires size < TWO_64 && TWO_63 <= pos < TWO_64
    ensures p < TWO_64 && (p - (pos + size)) % TWO_64 == 0
    ensures TWO_64 - pos <= size ==> p == size - (TWO_64 - pos)
    ensures TWO_64 - pos > size ==> p >= TWO_63
  {
    if pos + size >= TWO_64 then pos + size - TWO_64 else pos + size
  }

  /**
    `substr(pos, len)` with its `size_t` arithmetic: `len == NPOS` means "to
    the end", a `pos` whose sign bit is set counts back from the end, and a
    start at or past the end gives the empty string.
   */
  function Substr(s: ShortString, pos: nat, len: nat): (r: ShortString)
    requires Valid(s) && pos < TWO_64 && len < TWO_64
    ensures |r.bytes| <= |s.bytes|
  {
    var size := |s.bytes|;
    var len1 := if len == NPOS then SizeMinus(size, pos) else len;
    var pos1 := if pos >= TWO_63 then NegativeStart(size, pos) else pos;
    if pos1 >= TWO_63 || pos1 >= size then Empty
    else
      var n := if len1 < size - pos1 then len1 else size - pos1;
      CopyChars(Empty, s.bytes, pos1, n)
  }

  /** A forward `substr` returns the bytes `[pos, pos + min(len, size - pos))`, NULs dropped. */
  lemma SubstrForward(s: ShortString, pos: nat, len: nat)
    requires Valid(s) && pos < TWO_63 && len < NPOS
    ensures pos >= |s.bytes| ==> Substr(s, pos, len) == Empty
    ensures pos < |s.bytes| ==> Substr(s, pos, len).bytes == DropNul(s.bytes[pos..pos + Min(len, |s.bytes| - pos)])
  {
    if pos < |s.bytes| {
      assert Substr(s, pos, len) == CopyChars(Empty, s.bytes, pos, Min(len, |s.bytes| - pos));
    }
  }

  /** With the default `len`, a forward `substr` runs to the end. */
  lemma SubstrToEnd(s: ShortString, pos: nat)
    requires Valid(s) && pos < TWO_63
    ensures pos >= |s.bytes| ==> Substr(s, pos, NPOS) == Empty
    ensures pos < |s.bytes| ==> Substr(s, pos, NPOS).bytes == DropNul(s.bytes[pos..])
  {
    if pos < |s.bytes| {
      assert Substr(s, pos, NPOS) == CopyChars(Empty, s.bytes, pos, |s.bytes| - pos);
      assert s.bytes[pos..pos + (|s.bytes| - pos)] == s.bytes[pos..];
    }
  }

  /** `(size_t)-k`, moved forward by `size`: `size - k` when that is not negative, else still "negative". */
  lemma FromEndStart(size: nat, k: nat)
    requires size < TWO_63 && 0 < k <= TWO_63
    ensures k <= size ==> NegativeStart(size, TWO_64 - k) == size - k
    ensures k > size ==> NegativeStart(size, TWO_64 - k) >= TWO_63
    ensures SizeMinus(size, TWO_64 - k) == size + k
  {
  }

  /** `substr` from a start inside the string copies `min(len', size - start)` bytes, NULs dropped. */
  lemma SubstrCopies(s: ShortString, pos: nat, len: nat, start: nat, count: nat)
    requires Valid(s) && pos < TWO_64 && len < TWO_64
    requires start == if pos >= TWO_63 then NegativeStart(|s.bytes|, pos) else pos
    requires count == if len == NPOS then SizeMinus(|s.bytes|, pos) else len
    ensures start >= TWO_63 || start >= |s.bytes| ==> Substr(s, pos, len) == Empty
    ensures start < TWO_63 && start < |s.bytes| ==>
      Substr(s, pos, len).bytes == DropNul(s.bytes[start..start + Min(count, |s.bytes| - start)])
  {
  }

  /** A `pos` of `(size_t)-k` starts `k` bytes before the end, or gives nothing when `k > size`. */
  lemma SubstrFromEnd(s: ShortString, k: nat, len: nat)
    requires Valid(s) && 0 < k <= TWO_63 && len < NPOS
    ensures k > |s.bytes| ==> Substr(s, TWO_64 - k, len) == Empty
    ensures k <= |s.bytes| ==>
      Substr(s, TWO_64 - k, len).bytes == DropNul(s.bytes[|s.bytes| - k..|s.bytes| - k + Min(len, k)])
  {
    var size := |s.bytes|;
    FromEndStart(size, k);
    var start := NegativeStart(size, TWO_64 - k);
    SubstrCopies(s, TWO_64 - k, len, start, len);
    if k <= size {
      assert Min(len, size - start) == Min(len, k);
    }
  }

  /** With the default `len`, a `pos` of `(size_t)-k` gives the last `k` bytes. */
  lemma SubstrFromEndToEnd(s: ShortString, k: nat)
    requires Valid(s) && 0 < k <= TWO_63
    ensures k > |s.bytes| ==> Substr(s, TWO_64 - k, NPOS) == Empty
    ensures k <= |s.bytes| ==> Substr(s, TWO_64 - k, NPOS).bytes == DropNul(s.bytes[|s.bytes| - k..])
  {
    var size := |s.bytes|;
    FromEndStart(size, k);
    var start := NegativeStart(size, TWO_64 - k);
    SubstrCopies(s, TWO_64 - k, NPOS, start, size + k);
    if k <= size {
      assert start + Min(size + k, size - start) == size;
      assert s.bytes[start..size] == s.bytes[size - k..];
    }
  }

  function Min(a: nat, b: nat): nat {
    if a < b then a else b
  }

  /** Cutting the first `|a|` bytes of `a + b` gives `a` back when `a` has no NUL byte. */
  lemma SubstrPrefix(a: ShortString, ab: ShortString)
    requires Valid(ab) && NoNul(a.bytes) && 0 < |a.bytes| <= |ab.bytes| && ab.bytes[..|a.bytes|] == a.bytes
    ensures Substr(ab, 0, |a.bytes|) == a
  {
    SubstrForward(ab, 0, |a.bytes|);
    assert ab.bytes[0..0 + Min(|a.bytes|, |ab.bytes|)] == a.bytes;
    DropNulKeepsNoNul(a.bytes);
  }

  /** Cutting from `|a|` to the end of `a + b` gives `b` back when `b` has no NUL byte. */
  lemma SubstrSuffix(ab: ShortString, n: nat, b: ShortString)
    requires Valid(ab) && NoNul(b.bytes) && n < |ab.bytes| && ab.bytes[n..] == b.bytes && n < TWO_63
    ensures Substr(ab, n, NPOS) == b
  {
    SubstrToEnd(ab, n);
    DropNulKeepsNoNul(b.bytes);
  }

  /** On strings without NUL bytes, appending then cutting gives both parts back. */
  lemma AppendThenSubstr(a: ShortString, b: ShortString)
    requires NoNul(a.bytes) && NoNul(b.bytes) && |a.bytes| + |b.bytes| < MCAP
    ensures Append(a, b).Ok?
    ensures NoNul(Append(a, b).value.bytes)
    ensures |a.bytes| > 0 ==> Substr(Append(a, b).value, 0, |a.bytes|) == a
    ensures |b.bytes| > 0 ==> Substr(Append(a, b).value, |a.bytes|, NPOS) == b
  {
    var ab := Append(a, b).value;
    assert ab.bytes == a.bytes + b.bytes;
    if |a.bytes| > 0 {
      assert ab.bytes[..|a.bytes|] == a.bytes;
      SubstrPrefix(a, ab);
    }
    if |b.bytes| > 0 {
      assert ab.bytes[|a.bytes|..] == b.bytes;
      SubstrSuffix(ab, |a.bytes|, b);
    }
  }
}
