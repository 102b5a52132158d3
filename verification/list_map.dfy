/**
  `bsearch_up` and `PODListMap` of types.hpp: an association list kept
  sorted by key and searched by bisection. The key type's `operator<` is the
  parameter `lt`; any strict total order will do, and `ShortString`'s
  `operator<`, the order of the operator tables of flinch.hpp, is one.
 */
module ListMap {
  import opened Wrappers
  import opened ShortStr

  // ----- bisection -----

  /** The recursion that the loop of `bsearch_up` unrolls. */
  function Search(a: nat, b: nat, f: nat -> bool): (r: nat)
    ensures a < b ==> a <= r <= b
    ensures a >= b ==> r == a
    decreases b - a
  {
    if a < b then
      var avg := (a + b) / 2;
      if f(avg) then Search(avg + 1, b, f) else Search(a, avg, f)
    else a
  }

  /** `f` is true, then false, on `[a, b)`. */
  predicate Monotone(a: nat, b: nat, f: nat -> bool) {
    forall i, j :: a <= i <= j < b && !f(i) ==> !f(j)
  }

  /**
    `bsearch_up(a, b, f)`: `a` ends at a boundary, where `f` is true just
    before (or nothing is before) and false at `a` (or `a` is `b`). When `f`
    is true-then-false, that is the least index in `[a, b)` where `f` is
    false, or `b` if there is none.
   */
  method BsearchUp(a0: nat, b0: nat, f: nat -> bool) returns (a: nat)
    ensures a == Search(a0, b0, f)
    ensures a0 < b0 ==> a0 <= a <= b0 && (a == a0 || f(a - 1)) && (a == b0 || !f(a))
    ensures a0 >= b0 ==> a == a0
    ensures a0 < b0 && Monotone(a0, b0, f) ==>
      (forall i :: a0 <= i < a ==> f(i)) && (forall i :: a <= i < b0 ==> !f(i))
  {
    a := a0;
    var b: nat := b0;
    while a < b
      invariant Search(a, b, f) == Search(a0, b0, f)
      decreases b - a
    {
      var avg: nat := (a + b) / 2;
      if f(avg) {
        a := avg + 1;
      } else {
        b := avg;
      }
    }
    if a0 < b0 {
      SearchAt(a0, b0, f);
      if a > a0 {
        SearchBelow(a0, b0, f, a - 1);
      }
    }
    SearchSplits(a0, b0, f);
  }

  /** Whatever `f` is, it holds just before the search result, when the result is past `a`. */
  lemma {:induction false} SearchBelow(a: nat, b: nat, f: nat -> bool, p: nat)
    requires a < b && p >= a && p + 1 == Search(a, b, f)
    ensures f(p)
    decreases b - a
  {
    var avg := (a + b) / 2;
    if f(avg) {
      if p != avg {
        SearchBelow(avg + 1, b, f, p);
      }
    } else {
      SearchBelow(a, avg, f, p);
    }
  }

  /** Whatever `f` is, it fails at the search result, when the result is before `b`. */
  lemma {:induction false} SearchAt(a: nat, b: nat, f: nat -> bool)
    requires a < b
    ensures Search(a, b, f) == b || !f(Search(a, b, f))
    decreases b - a
  {
    var avg := (a + b) / 2;
    if f(avg) {
      if avg + 1 < b {
        SearchAt(avg + 1, b, f);
      }
    } else {
      if a < avg {
        SearchAt(a, avg, f);
      }
    }
  }

  /** On a true-then-false `f`, the search result splits `[a, b)` into the true part and the false part. */
  lemma SearchSplits(a: nat, b: nat, f: nat -> bool)
    ensures a < b && Monotone(a, b, f) ==>
      (forall i :: a <= i < Search(a, b, f) ==> f(i)) && (forall i :: Search(a, b, f) <= i < b ==> !f(i))
  {
    if a < b && Monotone(a, b, f) {
      SearchMonotone(a, b, f);
    }
  }

  /** The recursion respects a true-then-false comparator. */
  lemma {:induction false} SearchMonotone(a: nat, b: nat, f: nat -> bool)
    requires a < b && Monotone(a, b, f)
    ensures forall i :: a <= i < Search(a, b, f) ==> f(i)
    ensures forall i :: Search(a, b, f) <= i < b ==> !f(i)
    decreases b - a
  {
    var avg := (a + b) / 2;
    if f(avg) {
      if avg + 1 < b {
        SearchMonotone(avg + 1, b, f);
      }
    } else {
      if a < avg {
        SearchMonotone(a, avg, f);
      }
    }
  }

  // ----- the sorted association list -----

  /** `operator<` of a key type: irreflexive, transitive, and total on distinct keys. */
  ghost predicate StrictTotalOrder<K(!new)>(lt: (K, K) -> bool) {
    && (forall a :: !lt(a, a))
    && (forall a, b, c :: lt(a, b) && lt(b, c) ==> lt(a, c))
    && (forall a, b :: a == b || lt(a, b) || lt(b, a))
  }

  /** `ShortString::operator<` is such an order. */
  lemma ShortStringOrder()
    ensures StrictTotalOrder((a: ShortString, b: ShortString) => Less(a, b))
  {
    var lt := (a: ShortString, b: ShortString) => Less(a, b);
    forall a: ShortString
      ensures !lt(a, a)
    {
      LexLessIrreflexive(a.bytes);
    }
    forall a: ShortString, b: ShortString, c: ShortString | lt(a, b) && lt(b, c)
      ensures lt(a, c)
    {
      LexLessTransitive(a.bytes, b.bytes, c.bytes);
    }
    forall a: ShortString, b: ShortString
      ensures a == b || lt(a, b) || lt(b, a)
    {
      LexLessTrichotomy(a.bytes, b.bytes);
    }
  }

  /** `Pair<TK, TV>`. */
  datatype Entry<K, V> = Entry(key: K, val: V)

  datatype ListMap<K, V> = ListMap(list: seq<Entry<K, V>>)

  /** Keys strictly increase along the list. */
  predicate Sorted<K, V>(m: ListMap<K, V>, lt: (K, K) -> bool) {
    forall i, j :: 0 <= i < j < |m.list| ==> lt(m.list[i].key, m.list[j].key)
  }

  /** The value of the first entry with key `k`: the map a list denotes. */
  function Get<K(==), V>(list: seq<Entry<K, V>>, k: K): Option<V> {
    if |list| == 0 then None
    else if list[0].key == k then Some(list[0].val)
    else Get(list[1..], k)
  }

  /** An entry whose key appears nowhere earlier is the one `Get` finds. */
  lemma {:induction false} GetAt<K, V>(list: seq<Entry<K, V>>, p: nat, k: K)
    requires p < |list| && list[p].key == k
    requires forall i :: 0 <= i < p ==> list[i].key != k
    ensures Get(list, k) == Some(list[p].val)
  {
    if p > 0 {
      GetAt(list[1..], p - 1, k);
    }
  }

  /** A key on no entry is absent. */
  lemma {:induction false} GetAbsent<K, V>(list: seq<Entry<K, V>>, k: K)
    requires forall i :: 0 <= i < |list| ==> list[i].key != k
    ensures Get(list, k) == None
  {
    if |list| > 0 {
      GetAbsent(list[1..], k);
    }
  }

  /** A key `Get` finds sits on some entry. */
  lemma {:induction false} GetPresent<K, V>(list: seq<Entry<K, V>>, k: K)
    requires Get(list, k).Some?
    ensures exists p :: 0 <= p < |list| && list[p].key == k && Get(list, k) == Some(list[p].val)
  {
    if list[0].key != k {
      GetPresent(list[1..], k);
      var p :| 0 <= p < |list[1..]| && list[1..][p].key == k && Get(list[1..], k) == Some(list[1..][p].val);
      assert list[p + 1] == list[1..][p];
    }
  }

  /** A key `Get` misses sits on no entry. */
  lemma {:induction false} GetNone<K, V>(list: seq<Entry<K, V>>, k: K)
    requires Get(list, k).None?
    ensures forall i :: 0 <= i < |list| ==> list[i].key != k
  {
    if |list| > 0 {
      GetNone(list[1..], k);
      assert forall i :: 1 <= i < |list| ==> list[i] == list[1..][i - 1];
    }
  }

  /** In a sorted list, `Get` finds the entry at any index. */
  lemma SortedGet<K(!new), V>(m: ListMap<K, V>, lt: (K, K) -> bool, p: nat)
    requires StrictTotalOrder(lt) && Sorted(m, lt) && p < |m.list|
    ensures Get(m.list, m.list[p].key) == Some(m.list[p].val)
  {
    assert forall i :: 0 <= i < p ==> lt(m.list[i].key, m.list[p].key);
    GetAt(m.list, p, m.list[p].key);
  }

  /** The comparator the map hands to `bsearch_up`: "the entry at `i` has a key below `k`". */
  function Below<K, V>(m: ListMap<K, V>, lt: (K, K) -> bool, k: K): nat -> bool {
    (i: nat) => i < |m.list| && lt(m.list[i].key, k)
  }

  /** The position `bsearch_up` computes for `k`: on any list, a slot in
      `[0, |list|]` whose left neighbour's key is below `k` and whose own key
      is not. */
  function Slot<K, V>(m: ListMap<K, V>, lt: (K, K) -> bool, k: K): (r: nat)
    ensures r <= |m.list|
    ensures 0 < r ==> lt(m.list[r - 1].key, k)
    ensures r < |m.list| ==> !lt(m.list[r].key, k)
  {
    var f := Below(m, lt, k);
    if |m.list| == 0 then 0
    else
      SearchAt(0, |m.list|, f);
      var s := Search(0, |m.list|, f);
      if s > 0 then SearchBelow(0, |m.list|, f, s - 1); s else s
  }

  /** On a sorted list, the slot splits the keys below `k` from the rest. */
  lemma SlotSpec<K(!new), V>(m: ListMap<K, V>, lt: (K, K) -> bool, k: K)
    requires StrictTotalOrder(lt) && Sorted(m, lt)
    ensures Slot(m, lt, k) <= |m.list|
    ensures forall i :: 0 <= i < Slot(m, lt, k) ==> lt(m.list[i].key, k)
    ensures forall i :: Slot(m, lt, k) <= i < |m.list| ==> !lt(m.list[i].key, k)
  {
    var f := Below(m, lt, k);
    if |m.list| > 0 {
      assert Monotone(0, |m.list|, f);
      SearchMonotone(0, |m.list|, f);
      var s := Slot(m, lt, k);
      forall i | 0 <= i < s
        ensures lt(m.list[i].key, k)
      {
        assert f(i);
      }
      forall i | s <= i < |m.list|
        ensures !lt(m.list[i].key, k)
      {
        assert !f(i);
      }
    }
  }

  /** `k` is present exactly when the entry at its slot carries it. */
  lemma SlotFinds<K(!new), V>(m: ListMap<K, V>, lt: (K, K) -> bool, k: K)
    requires StrictTotalOrder(lt) && Sorted(m, lt)
    ensures Get(m.list, k).Some? <==> Slot(m, lt, k) < |m.list| && m.list[Slot(m, lt, k)].key == k
  {
    SlotSpec(m, lt, k);
    var s := Slot(m, lt, k);
    if s < |m.list| && m.list[s].key == k {
      SortedGet(m, lt, s);
    } else {
      assert forall i :: 0 <= i < |m.list| ==> m.list[i].key != k;
      GetAbsent(m.list, k);
    }
  }

  /** `count(k)`: 1 when the slot holds `k`, else 0. */
  function Count<K(==), V>(m: ListMap<K, V>, lt: (K, K) -> bool, k: K): (n: nat)
    ensures n <= 1
  {
    var s := Slot(m, lt, k);
    if s < |m.list| && m.list[s].key == k then 1 else 0
  }

  /** On a sorted list, `count(k)` is 1 exactly when `k` is present. */
  lemma CountSpec<K(!new), V>(m: ListMap<K, V>, lt: (K, K) -> bool, k: K)
    requires StrictTotalOrder(lt) && Sorted(m, lt)
    ensures Count(m, lt, k) == 1 <==> Get(m.list, k).Some?
    ensures Count(m, lt, k) == 0 <==> Get(m.list, k).None?
  {
    SlotFinds(m, lt, k);
  }

  /**
    Where `insert` puts entry `e` once it has found slot `s`: append at the
    end, overwrite an entry with the same key, or shift the tail up by one.
   */
  function Place<K(==), V>(list: seq<Entry<K, V>>, s: nat, e: Entry<K, V>): (r: seq<Entry<K, V>>)
    ensures |list| <= |r| <= |list| + 1
  {
    if s >= |list| then list + [e]
    else if list[s].key == e.key then list[s := e]
    else list[..s] + [e] + list[s..]
  }

  /** `insert(k, v)`: the entry goes to the slot the binary search finds. */
  function Insert<K(==), V>(m: ListMap<K, V>, lt: (K, K) -> bool, k: K, v: V): (r: ListMap<K, V>)
    ensures |m.list| <= |r.list| <= |m.list| + 1
  {
    ListMap(Place(m.list, Slot(m, lt, k), Entry(k, v)))
  }

  /** `Place` makes room: the slot is inside the list and does not already carry the key. */
  predicate Shifts<K(==), V>(list: seq<Entry<K, V>>, s: nat, k: K) {
    s < |list| && list[s].key != k
  }

  /** Where an old entry that does not carry the new key sits after `Place`. */
  function Moved<K(==), V>(list: seq<Entry<K, V>>, s: nat, k: K, p: nat): nat {
    if Shifts(list, s, k) && p >= s then p + 1 else p
  }

  /** Which old entry sits at index `i` after `Place`, for `i` other than the slot. */
  function Origin<K(==), V>(list: seq<Entry<K, V>>, s: nat, k: K, i: nat): nat {
    if Shifts(list, s, k) && i > s then i - 1 else i
  }

  /** The new entry sits at the slot (or at the end); every other old entry moves up by one or stays. */
  lemma PlaceLayout<K, V>(list: seq<Entry<K, V>>, s: nat, e: Entry<K, V>)
    requires s <= |list|
    ensures s < |Place(list, s, e)| && Place(list, s, e)[s] == e
    ensures forall p :: 0 <= p < |list| && list[p].key != e.key ==>
      Moved(list, s, e.key, p) < |Place(list, s, e)| && Place(list, s, e)[Moved(list, s, e.key, p)] == list[p]
    ensures forall i :: 0 <= i < |Place(list, s, e)| && i != s ==>
      Origin(list, s, e.key, i) < |list| && Place(list, s, e)[i] == list[Origin(list, s, e.key, i)]
  {
    var r := Place(list, s, e);
    if s >= |list| {
      assert r == list + [e];
    } else if list[s].key == e.key {
      assert r == list[s := e];
    } else {
      assert r == list[..s] + [e] + list[s..];
      assert forall p :: s <= p < |list| ==> r[p + 1] == list[p];
      assert forall p :: 0 <= p < s ==> r[p] == list[p];
    }
  }

  /** Insertion keeps the keys strictly sorted. */
  lemma InsertSorted<K(!new), V>(m: ListMap<K, V>, lt: (K, K) -> bool, k: K, v: V)
    requires StrictTotalOrder(lt) && Sorted(m, lt)
    ensures Sorted(Insert(m, lt, k, v), lt)
  {
    SlotSpec(m, lt, k);
    PlaceSorted(m.list, lt, Slot(m, lt, k), Entry(k, v));
  }

  /** Placing an entry at the boundary between smaller and not-smaller keys keeps a sorted list sorted. */
  lemma PlaceSorted<K(!new), V>(list: seq<Entry<K, V>>, lt: (K, K) -> bool, s: nat, e: Entry<K, V>)
    requires StrictTotalOrder(lt) && Sorted(ListMap(list), lt) && s <= |list|
    requires forall i :: 0 <= i < s ==> lt(list[i].key, e.key)
    requires forall i :: s <= i < |list| ==> !lt(list[i].key, e.key)
    ensures Sorted(ListMap(Place(list, s, e)), lt)
  {
    var r := Place(list, s, e);
    var n := |list|;
    if s < n && list[s].key != e.key {
      assert lt(e.key, list[s].key);
      assert r == list[..s] + [e] + list[s..];
      forall i, j | 0 <= i < j < |r|
        ensures lt(r[i].key, r[j].key)
      {
        if j == s {
          assert r[i] == list[i];
        } else if i == s {
          assert r[j] == list[j - 1];
        } else if i < s && j > s {
          assert r[i] == list[i] && r[j] == list[j - 1];
        } else if i > s {
          assert r[i] == list[i - 1] && r[j] == list[j - 1];
        } else {
          assert r[i] == list[i] && r[j] == list[j];
        }
      }
    } else if s < n {
      assert forall i :: 0 <= i < n ==> r[i].key == list[i].key;
    } else {
      assert forall i :: 0 <= i < n ==> r[i] == list[i];
    }
  }

  /** Insertion leaves the lookup of every other key unchanged. */
  lemma InsertFrame<K(!new), V>(m: ListMap<K, V>, lt: (K, K) -> bool, k: K, v: V, k': K)
    requires StrictTotalOrder(lt) && Sorted(m, lt) && k' != k
    ensures Get(Insert(m, lt, k, v).list, k') == Get(m.list, k')
  {
    InsertSorted(m, lt, k, v);
    SlotSpec(m, lt, k);
    PlaceLayout(m.list, Slot(m, lt, k), Entry(k, v));
    var r := Insert(m, lt, k, v);
    if Get(m.list, k').Some? {
      GetPresent(m.list, k');
      var p :| 0 <= p < |m.list| && m.list[p].key == k' && Get(m.list, k') == Some(m.list[p].val);
      SortedGet(r, lt, Moved(m.list, Slot(m, lt, k), k, p));
    } else {
      GetNone(m.list, k');
      GetAbsent(r.list, k');
    }
  }

  /** Insertion updates the denoted map at `k` and nowhere else. */
  lemma InsertSpec<K(!new), V>(m: ListMap<K, V>, lt: (K, K) -> bool, k: K, v: V)
    requires StrictTotalOrder(lt) && Sorted(m, lt)
    ensures Sorted(Insert(m, lt, k, v), lt)
    ensures Get(Insert(m, lt, k, v).list, k) == Some(v)
    ensures forall k' :: k' != k ==> Get(Insert(m, lt, k, v).list, k') == Get(m.list, k')
    ensures |Insert(m, lt, k, v).list| == |m.list| + (if Get(m.list, k).Some? then 0 else 1)
  {
    InsertSorted(m, lt, k, v);
    SlotSpec(m, lt, k);
    PlaceLayout(m.list, Slot(m, lt, k), Entry(k, v));
    SlotFinds(m, lt, k);
    SortedGet(Insert(m, lt, k, v), lt, Slot(m, lt, k));
    forall k' | k' != k
      ensures Get(Insert(m, lt, k, v).list, k') == Get(m.list, k')
    {
      InsertFrame(m, lt, k, v, k');
    }
  }

  /**
    `operator[](k)`: the value stored for `k`; when there is none, `TV{}`
    (here `dflt`) is inserted first and the lookup repeated.
   */
  function Index<K(==), V>(m: ListMap<K, V>, lt: (K, K) -> bool, k: K, dflt: V): (r: (V, ListMap<K, V>))
    ensures r.1 == m || r.1 == Insert(m, lt, k, dflt)
    ensures r.1 == m ==> exists p :: 0 <= p < |m.list| && m.list[p] == Entry(k, r.0)
  {
    var s := Slot(m, lt, k);
    if s < |m.list| && m.list[s].key == k then (m.list[s].val, m)
    else
      var m' := Insert(m, lt, k, dflt);
      var s' := Slot(m', lt, k);
      if s' < |m'.list| && m'.list[s'].key == k then (m'.list[s'].val, m') else (dflt, m')
  }

  /** `operator[]` reads a present key without change, and otherwise inserts and returns `dflt`. */
  lemma IndexSpec<K(!new), V>(m: ListMap<K, V>, lt: (K, K) -> bool, k: K, dflt: V)
    requires StrictTotalOrder(lt) && Sorted(m, lt)
    ensures Get(m.list, k).Some? ==> Index(m, lt, k, dflt) == (Get(m.list, k).value, m)
    ensures Get(m.list, k).None? ==> Index(m, lt, k, dflt) == (dflt, Insert(m, lt, k, dflt))
    ensures Sorted(Index(m, lt, k, dflt).1, lt)
    ensures Get(Index(m, lt, k, dflt).1.list, k) == Some(Index(m, lt, k, dflt).0)
  {
    var s := Slot(m, lt, k);
    SlotFinds(m, lt, k);
    if s < |m.list| && m.list[s].key == k {
      SortedGet(m, lt, s);
    } else {
      var m' := Insert(m, lt, k, dflt);
      InsertSpec(m, lt, k, dflt);
      SlotFinds(m', lt, k);
      SortedGet(m', lt, Slot(m', lt, k));
    }
  }
}
