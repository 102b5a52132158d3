/**
  The interning tables of flinch.cpp and flinch.hpp (`TOKEN_LOG`): label
  names, function names, variable names, large integer literals and string
  literals are each kept in a table, and a token refers to an entry by its
  index.
 */
module TokenLog {

  /** No entry occurs twice. */
  predicate NoDups<T(==)>(t: seq<T>) {
    forall i, j :: 0 <= i < j < |t| ==> t[i] != t[j]
  }

  /** `i` is the first index holding `s`. */
  predicate FirstAt<T(==)>(t: seq<T>, s: T, i: nat) {
    i < |t| && t[i] == s && forall k :: 0 <= k < i ==> t[k] != s
  }

  /**
    `get_token_X_num(s)`: scans the table front to back and returns the
    index of the first equal entry; when there is none, appends `s` and
    returns the new entry's index.
   */
  method GetNum<T(==)>(t: seq<T>, s: T) returns (t2: seq<T>, n: nat)
    ensures s in t ==> t2 == t && FirstAt(t, s, n)
    ensures s !in t ==> t2 == t + [s] && n == |t|
    ensures n < |t2| && t2[n] == s
  {
    var i := 0;
    while i < |t|
      invariant i <= |t|
      invariant forall k :: 0 <= k < i ==> t[k] != s
    {
      if t[i] == s {
        return t, i;
      }
      i := i + 1;
    }
    return t + [s], |t|;
  }

  /** `get_token_X(n)`: the entry at `n` (reading past the end is undefined behaviour). */
  function Get<T>(t: seq<T>, n: nat): (r: T)
    requires n < |t|
    ensures r in t
  {
    t[n]
  }

  /** The same table and index `GetNum` yields, as a function. */
  function Intern<T(==)>(t: seq<T>, s: T): (r: (seq<T>, nat))
    ensures r.1 < |r.0| && r.0[r.1] == s
    ensures |t| <= |r.0| && r.0[..|t|] == t
  {
    if s in t then (t, IndexOf(t, s)) else (t + [s], |t|)
  }

  /** The first index of a present entry. */
  function IndexOf<T(==)>(t: seq<T>, s: T): (i: nat)
    requires s in t
    ensures FirstAt(t, s, i)
  {
    if t[0] == s then 0 else 1 + IndexOf(t[1..], s)
  }

  /** The method and the function agree on every table and key. */
  lemma GetNumIsIntern<T>(t: seq<T>, s: T, t2: seq<T>, n: nat)
    requires s in t ==> t2 == t && FirstAt(t, s, n)
    requires s !in t ==> t2 == t + [s] && n == |t|
    ensures (t2, n) == Intern(t, s)
  {
    if s in t {
      FirstAtUnique(t, s, n, IndexOf(t, s));
    }
  }

  /** There is only one first index. */
  lemma FirstAtUnique<T>(t: seq<T>, s: T, i: nat, j: nat)
    requires FirstAt(t, s, i) && FirstAt(t, s, j)
    ensures i == j
  {
  }

  /** Interning keeps a table duplicate-free, and in a duplicate-free table every entry is first. */
  lemma InternKeepsNoDups<T>(t: seq<T>, s: T)
    requires NoDups(t)
    ensures NoDups(Intern(t, s).0)
    ensures FirstAt(Intern(t, s).0, s, Intern(t, s).1)
  {
  }

  /**
    Interning `a` and then `b` yields the same index exactly when the two
    values are equal; old indexes keep their entries.
   */
  lemma InternSameIffEqual<T>(t: seq<T>, a: T, b: T)
    requires NoDups(t)
    ensures var (t1, na) := Intern(t, a);
            var (t2, nb) := Intern(t1, b);
            (na == nb <==> a == b) && na < |t2| && t2[na] == a
  {
    var (t1, na) := Intern(t, a);
    InternKeepsNoDups(t, a);
    var (t2, nb) := Intern(t1, b);
    assert t2[..|t1|] == t1;
    assert t2[na] == t1[na];
  }

  /** Interning each value of `xs` in turn, collecting the indexes. */
  function InternAll<T(==)>(t: seq<T>, xs: seq<T>): (r: (seq<T>, seq<nat>))
    ensures |r.1| == |xs|
    ensures |t| <= |r.0| && r.0[..|t|] == t
    ensures forall k :: 0 <= k < |xs| ==> r.1[k] < |r.0| && r.0[r.1[k]] == xs[k]
    decreases |xs|
  {
    if |xs| == 0 then (t, [])
    else
      var (t1, n) := Intern(t, xs[0]);
      var (t2, ns) := InternAll(t1, xs[1..]);
      assert t2[..|t1|] == t1;
      assert t2[n] == t1[n];
      (t2, [n] + ns)
  }

  /**
    Over any list of names interned into a duplicate-free table, two
    positions get the same index exactly when they hold the same name.
   */
  lemma {:induction false} InternAllFaithful<T>(t: seq<T>, xs: seq<T>)
    requires NoDups(t)
    ensures NoDups(InternAll(t, xs).0)
    ensures forall j, k :: 0 <= j < |xs| && 0 <= k < |xs| ==>
              (InternAll(t, xs).1[j] == InternAll(t, xs).1[k] <==> xs[j] == xs[k])
    decreases |xs|
  {
    if |xs| > 0 {
      var (t1, n) := Intern(t, xs[0]);
      InternKeepsNoDups(t, xs[0]);
      InternAllFaithful(t1, xs[1..]);
    }
  }
}
