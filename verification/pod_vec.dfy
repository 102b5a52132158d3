/**
  `PODVec` of types.hpp: a growable vector of plain-old-data elements.

  Besides the elements and `mcapacity`, the model keeps `room`: how many
  elements the buffer was last allocated for. It is not a field of the
  source; it is what makes an out-of-buffer write visible. A write at an
  index at or past `room` is the `OutOfBounds` error, and so are the
  precondition violations the source leaves undefined (popping an empty
  vector, inserting or erasing past the end) and the failing `assert` of `at`.
 */
module PodVec {
  import opened Wrappers

  /** The default `growth_factor`, in tenths: 20 means the capacity doubles. */
  const DEFAULT_GROWTH: nat := 20

  datatype Vec<T> = Vec(items: seq<T>, cap: nat, room: nat)

  datatype Fault = OutOfBounds

  /** The buffer holds every element, and at least `mcapacity` of them. */
  predicate Safe<T>(v: Vec<T>) {
    |v.items| <= v.room && v.cap <= v.room
  }

  /** `PODVec()`. */
  function New<T>(): (v: Vec<T>)
    ensures Safe(v) && v.items == []
  {
    Vec([], 0, 0)
  }

  /** `PODVec(count, value)`: allocates `count` copies and leaves `mcapacity` at 0. */
  function Filled<T>(count: nat, x: T): (v: Vec<T>)
    ensures Safe(v) && |v.items| == count && forall k :: 0 <= k < count ==> v.items[k] == x
  {
    Vec(seq(count, _ => x), 0, count)
  }

  /** The capacity update shared by `push_back` and `insert_at` for the new length `len`. */
  function Grow(cap: nat, len: nat, growth: nat): (c: nat)
    ensures len <= cap ==> c == cap
    ensures len > cap ==> c >= len && c != cap && 10 * c + 9 >= cap * growth
  {
    if len > cap then
      var c := (cap * growth + 9) / 10;
      if len > c then len else c
    else cap
  }

  /** The buffer after a capacity update: reallocated exactly when the capacity changed. */
  function Realloc(room: nat, oldCap: nat, newCap: nat): (r: nat)
    ensures r == room || r == newCap
    ensures oldCap <= room ==> newCap <= r
  {
    if newCap != oldCap then newCap else room
  }

  /** `push_back`: one more element at the end; grows the buffer when the length passes the capacity. */
  function PushBack<T>(v: Vec<T>, x: T, growth: nat): (r: Result<Vec<T>, Fault>)
    ensures Safe(v) ==> r.Ok? && Safe(r.value)
    ensures r.Ok? ==> r.value.items == v.items + [x]
    ensures r.Ok? ==> r.value.cap >= v.cap && r.value.cap >= |r.value.items|
    ensures r.Ok? && |v.items| < v.cap ==> r.value.cap == v.cap
  {
    var len := |v.items| + 1;
    var cap := Grow(v.cap, len, growth);
    var room := Realloc(v.room, v.cap, cap);
    if len - 1 < room then Ok(Vec(v.items + [x], cap, room)) else Err(OutOfBounds)
  }

  /** `pop_back`: the last element, and the vector without it; capacity and buffer stay. */
  function PopBack<T>(v: Vec<T>): (r: Result<(T, Vec<T>), Fault>)
    ensures r.Ok? <==> |v.items| > 0
    ensures r.Ok? ==> v.items == r.value.1.items + [r.value.0]
    ensures r.Ok? ==> r.value.1.cap == v.cap && r.value.1.room == v.room
    ensures r.Ok? && Safe(v) ==> Safe(r.value.1)
  {
    if |v.items| == 0 then Err(OutOfBounds)
    else
      var n := |v.items| - 1;
      assert v.items == v.items[..n] + [v.items[n]];
      Ok((v.items[n], v.(items := v.items[..n])))
  }

  /** `insert_at(i, x)`: grows like `push_back`, then shifts the tail up by one. */
  function InsertAt<T>(v: Vec<T>, i: nat, x: T, growth: nat): (r: Result<Vec<T>, Fault>)
    ensures i > |v.items| ==> r == Err(OutOfBounds)
    ensures Safe(v) && i <= |v.items| ==> r.Ok? && Safe(r.value)
    ensures r.Ok? ==> i <= |v.items| && r.value.items == v.items[..i] + [x] + v.items[i..]
  {
    if i > |v.items| then Err(OutOfBounds)
    else
      var len := |v.items| + 1;
      var cap := Grow(v.cap, len, growth);
      var room := Realloc(v.room, v.cap, cap);
      if len - 1 < room then Ok(Vec(v.items[..i] + [x] + v.items[i..], cap, room)) else Err(OutOfBounds)
  }

  /** `erase_at(i)`: shifts the tail down by one; capacity and buffer stay. */
  function EraseAt<T>(v: Vec<T>, i: nat): (r: Result<Vec<T>, Fault>)
    ensures r.Ok? <==> i < |v.items|
    ensures r.Ok? ==> r.value.items == v.items[..i] + v.items[i + 1..] && r.value.cap == v.cap
    ensures r.Ok? && Safe(v) ==> Safe(r.value)
  {
    if i < |v.items| then Ok(v.(items := v.items[..i] + v.items[i + 1..])) else Err(OutOfBounds)
  }

  /** `at(pos)`: asserts `pos < mlength`. */
  function At<T>(v: Vec<T>, i: nat): (r: Result<T, Fault>)
    ensures r.Ok? <==> i < |v.items|
    ensures r.Ok? ==> r.value == v.items[i]
  {
    if i < |v.items| then Ok(v.items[i]) else Err(OutOfBounds)
  }

  /** Popping right after pushing gives back the element and the same elements as before. */
  lemma PushThenPop<T>(v: Vec<T>, x: T, growth: nat)
    requires Safe(v)
    ensures PopBack(PushBack(v, x, growth).value).Ok?
    ensures var (y, w) := PopBack(PushBack(v, x, growth).value).value;
      y == x && w.items == v.items && Safe(w)
  {
    var p := PushBack(v, x, growth).value;
    assert p.items[..|p.items| - 1] == v.items;
  }

  /** Erasing the element just inserted restores the elements; reading it back yields it. */
  lemma InsertThenErase<T>(v: Vec<T>, i: nat, x: T, growth: nat)
    requires Safe(v) && i <= |v.items|
    ensures InsertAt(v, i, x, growth).Ok?
    ensures At(InsertAt(v, i, x, growth).value, i) == Ok(x)
    ensures EraseAt(InsertAt(v, i, x, growth).value, i).Ok?
    ensures EraseAt(InsertAt(v, i, x, growth).value, i).value.items == v.items
  {
    var w := InsertAt(v, i, x, growth).value;
    assert w.items[..i] == v.items[..i] && w.items[i + 1..] == v.items[i..];
    assert v.items[..i] + v.items[i..] == v.items;
  }

  /** With a growth factor of at least 11, a capacity that must grow grows by at least one tenth. */
  lemma GrowthIsGeometric(cap: nat, len: nat, growth: nat)
    requires growth >= 11 && len > cap
    ensures 10 * Grow(cap, len, growth) >= cap * growth
    ensures cap > 0 ==> Grow(cap, len, growth) > cap
  {
  }

  // ----- copies -----

  /** `operator=(const PODVec &)` as written: allocates `mlength` elements but copies `mcapacity`. */
  function CopyAssignAsWritten<T>(other: Vec<T>): (v: Vec<T>)
    ensures v.items == other.items && v.cap == other.cap
  {
    Vec(other.items, other.cap, |other.items|)
  }

  /**
    `PODVec(const PODVec &)` as written: allocates `mcapacity` elements, but
    only when the source is non-empty, copies `mcapacity` either way, then
    copies `mlength` elements into the new buffer.
   */
  function CopyConstructAsWritten<T>(other: Vec<T>): (r: Result<Vec<T>, Fault>)
    ensures r.Ok? <==> |other.items| <= other.cap
    ensures r.Ok? ==> r.value.items == other.items && r.value.cap == other.cap
  {
    var room := if |other.items| > 0 then other.cap else 0;
    if |other.items| <= room then Ok(Vec(other.items, other.cap, room)) else Err(OutOfBounds)
  }

  /**
    A copy whose buffer holds all elements and `mcapacity` of them, as both
    copy operations evidently intend.
   */
  function Copy<T>(other: Vec<T>): (v: Vec<T>)
    ensures v.items == other.items && v.cap == other.cap && Safe(v)
  {
    Vec(other.items, other.cap, if |other.items| > other.cap then |other.items| else other.cap)
  }

  /** With a correct copy, pushing onto the copy behaves like pushing onto the original. */
  lemma CopyThenPush<T>(v: Vec<T>, x: T, growth: nat)
    requires Safe(v)
    ensures PushBack(Copy(v), x, growth).Ok?
    ensures PushBack(Copy(v), x, growth).value.items == PushBack(v, x, growth).value.items
  {
  }

  /**
    Copy-assigning a vector with spare capacity, then pushing, writes past
    the new buffer; the as-written copy is safe only when there is no spare capacity.
   */
  lemma CopyAssignOverflows<T>(v: Vec<T>, x: T, growth: nat)
    requires Safe(v)
    ensures Safe(CopyAssignAsWritten(v)) <==> v.cap <= |v.items|
    ensures |v.items| < v.cap ==> PushBack(CopyAssignAsWritten(v), x, growth) == Err(OutOfBounds)
  {
  }

  /** Copy-constructing an emptied vector that kept its capacity, then pushing, writes through no buffer. */
  lemma CopyConstructEmptyOverflows<T>(v: Vec<T>, x: T, growth: nat)
    requires Safe(v) && |v.items| == 0 && v.cap > 0
    ensures CopyConstructAsWritten(v).Ok?
    ensures PushBack(CopyConstructAsWritten(v).value, x, growth) == Err(OutOfBounds)
  {
  }

  /** Copy-constructing a vector made by `PODVec(count, value)` copies `count` elements into an empty buffer. */
  lemma CopyConstructFilledOverflows<T>(count: nat, x: T)
    requires count > 0
    ensures CopyConstructAsWritten(Filled(count, x)) == Err(OutOfBounds)
  {
  }

  /** The as-written copy constructor is safe on every non-empty vector within its capacity. */
  lemma CopyConstructNonEmptySafe<T>(v: Vec<T>)
    requires Safe(v) && 0 < |v.items| <= v.cap
    ensures CopyConstructAsWritten(v).Ok? && Safe(CopyConstructAsWritten(v).value)
  {
  }

  /** `capacity()` as written: returns `mlength`. */
  function CapacityAsWritten<T>(v: Vec<T>): (n: nat)
    ensures n == |v.items|
  {
    |v.items|
  }

  /** `capacity()` as evidently intended: `mcapacity`, which a push leaves unchanged while the length is below it. */
  function Capacity<T>(v: Vec<T>): (n: nat)
    ensures n == v.cap
  {
    v.cap
  }

  /** Whenever the buffer has spare room, `capacity()` as written under-reports it. */
  lemma CapacityReportsLength<T>(v: Vec<T>, x: T, growth: nat)
    requires Safe(v) && |v.items| + 1 < v.cap
    ensures PushBack(v, x, growth).Ok?
    ensures CapacityAsWritten(PushBack(v, x, growth).value) < Capacity(PushBack(v, x, growth).value)
  {
  }
}
