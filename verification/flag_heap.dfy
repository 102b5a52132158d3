/**
  The min-heap of the path-finding benchmark (etc/pf.py and etc/pf.c): a
  binary tree whose nodes carry a key, a value and a one-bit `flag` that
  alternates the side the next push descends into. Both versions are
  modelled as immutable trees; the Python version fills an empty child
  before it looks at the flag, the C version always follows the flag.
  A push may carry a whole subtree (`pop` pushes the right subtree into the
  left one), so both arguments of `PushRaw` are heaps.
 */
module FlagHeap {
  import opened Wrappers

  datatype Heap =
    | Empty
    | Node(key: int, value: int, left: Heap, right: Heap, flag: nat)

  /** Which source the push follows. */
  datatype Flavour = Py | C

  function Size(h: Heap): nat {
    match h
    case Empty => 0
    case Node(_, _, l, r, _) => 1 + Size(l) + Size(r)
  }

  /** The `(key, value)` pairs stored in the tree. */
  function Elems(h: Heap): multiset<(int, int)> {
    match h
    case Empty => multiset{}
    case Node(k, v, l, r, _) => multiset{(k, v)} + Elems(l) + Elems(r)
  }

  /** Heap order: no child has a smaller key than its parent. */
  predicate Ordered(h: Heap) {
    match h
    case Empty => true
    case Node(k, _, l, r, _) =>
      && (l.Node? ==> k <= l.key) && (r.Node? ==> k <= r.key)
      && Ordered(l) && Ordered(r)
  }

  /** Every key of a heap-ordered tree is at least the root's. */
  lemma {:induction false} RootIsMin(h: Heap)
    requires Ordered(h) && h.Node?
    ensures forall e :: e in Elems(h) ==> h.key <= e.0
  {
    if h.left.Node? {
      RootIsMin(h.left);
    }
    if h.right.Node? {
      RootIsMin(h.right);
    }
  }

  /** `(flag + 1) & 1`. */
  function Toggle(flag: nat): nat {
    (flag + 1) % 2
  }

  /** The measure both pushes decrease: total size, then "a swap is still due". */
  function SwapDue(h: Heap, v: Heap): nat {
    if h.Node? && v.Node? && h.key > v.key then 1 else 0
  }

  /**
    `pushraw` of etc/pf.c: an empty heap becomes `val`; a root with a larger
    key trades places with `val` and is itself pushed; otherwise the root's
    flag toggles and `val` goes left when it is 0, right when it is 1.
   */
  function PushC(h: Heap, v: Heap): (r: Heap)
    requires v.Node?
    ensures r.Node? && r.key == if h.Node? && h.key <= v.key then h.key else v.key
    decreases Size(h) + Size(v), SwapDue(h, v)
  {
    if h.Empty? then v
    else if h.key > v.key then PushC(v, h)
    else
      var f := Toggle(h.flag);
      if f == 0 then h.(flag := f, left := PushC(h.left, v))
      else h.(flag := f, right := PushC(h.right, v))
  }

  /**
    `pushraw` of etc/pf.py: as in C, except that an empty left child, then
    an empty right child, takes `val` before the flag is consulted.
   */
  function PushPy(h: Heap, v: Heap): (r: Heap)
    requires v.Node?
    ensures r.Node? && r.key == if h.Node? && h.key <= v.key then h.key else v.key
    decreases Size(h) + Size(v), SwapDue(h, v)
  {
    if h.Empty? then v
    else if h.key > v.key then PushPy(v, h)
    else if h.left.Empty? then h.(left := v)
    else if h.right.Empty? then h.(right := v)
    else
      var f := Toggle(h.flag);
      if f == 0 then h.(flag := f, left := PushPy(h.left, v))
      else h.(flag := f, right := PushPy(h.right, v))
  }

  /** `pushraw` keeps every pair of both trees and adds none (C). */
  lemma {:induction false} PushCElems(h: Heap, v: Heap)
    requires v.Node?
    ensures Elems(PushC(h, v)) == Elems(h) + Elems(v)
    decreases Size(h) + Size(v), SwapDue(h, v)
  {
    if h.Empty? {
    } else if h.key > v.key {
      assert PushC(h, v) == PushC(v, h);
      PushCElems(v, h);
    } else if Toggle(h.flag) == 0 {
      var l := PushC(h.left, v);
      assert PushC(h, v) == Node(h.key, h.value, l, h.right, 0);
      PushCElems(h.left, v);
      assert Elems(Node(h.key, h.value, l, h.right, 0)) == multiset{(h.key, h.value)} + Elems(l) + Elems(h.right);
    } else {
      var r := PushC(h.right, v);
      assert PushC(h, v) == Node(h.key, h.value, h.left, r, 1);
      PushCElems(h.right, v);
      assert Elems(Node(h.key, h.value, h.left, r, 1)) == multiset{(h.key, h.value)} + Elems(h.left) + Elems(r);
    }
  }

  /** `pushraw` of two heap-ordered trees is heap-ordered (C). */
  lemma {:induction false} PushCOrdered(h: Heap, v: Heap)
    requires v.Node? && Ordered(h) && Ordered(v)
    ensures Ordered(PushC(h, v))
    decreases Size(h) + Size(v), SwapDue(h, v)
  {
    if h.Empty? {
    } else if h.key > v.key {
      PushCOrdered(v, h);
    } else if Toggle(h.flag) == 0 {
      PushCOrdered(h.left, v);
    } else {
      PushCOrdered(h.right, v);
    }
  }

  /** The pairs of a node: its own and those of both children. */
  lemma ElemsOfNode(k: int, x: int, l: Heap, r: Heap, f: nat)
    ensures Elems(Node(k, x, l, r, f)) == multiset{(k, x)} + Elems(l) + Elems(r)
  {
  }

  /** The Python push into a node with an empty child keeps every pair. */
  lemma PushPyFillElems(h: Heap, v: Heap)
    requires v.Node? && h.Node? && h.key <= v.key && (h.left.Empty? || h.right.Empty?)
    ensures Elems(PushPy(h, v)) == Elems(h) + Elems(v)
  {
    ElemsOfNode(h.key, h.value, h.left, h.right, h.flag);
    if h.left.Empty? {
      ElemsOfNode(h.key, h.value, v, h.right, h.flag);
    } else {
      ElemsOfNode(h.key, h.value, h.left, v, h.flag);
    }
  }

  /** One step of the Python push into a node whose children are both present. */
  lemma PushPyDescends(h: Heap, v: Heap)
    requires v.Node? && h.Node? && h.key <= v.key && h.left.Node? && h.right.Node?
    ensures Toggle(h.flag) == 0 ==> PushPy(h, v) == Node(h.key, h.value, PushPy(h.left, v), h.right, 0)
    ensures Toggle(h.flag) != 0 ==> PushPy(h, v) == Node(h.key, h.value, h.left, PushPy(h.right, v), 1)
  {
  }

  /** Replacing one child by a tree holding `m` more pairs adds `m` to the node. */
  lemma ReplaceChildElems(k: int, x: int, c: Heap, c2: Heap, o: Heap, f: nat, f2: nat, m: multiset<(int, int)>)
    requires Elems(c2) == Elems(c) + m
    ensures Elems(Node(k, x, c2, o, f2)) == Elems(Node(k, x, c, o, f)) + m
    ensures Elems(Node(k, x, o, c2, f2)) == Elems(Node(k, x, o, c, f)) + m
  {
    ElemsOfNode(k, x, c2, o, f2);
    ElemsOfNode(k, x, c, o, f);
    ElemsOfNode(k, x, o, c2, f2);
    ElemsOfNode(k, x, o, c, f);
  }

  /** The Python push that descends keeps every pair, given that the push into the child does. */
  lemma PushPyDescendElems(h: Heap, v: Heap)
    requires v.Node? && h.Node? && h.key <= v.key && h.left.Node? && h.right.Node?
    requires Toggle(h.flag) == 0 ==> Elems(PushPy(h.left, v)) == Elems(h.left) + Elems(v)
    requires Toggle(h.flag) != 0 ==> Elems(PushPy(h.right, v)) == Elems(h.right) + Elems(v)
    ensures Elems(PushPy(h, v)) == Elems(h) + Elems(v)
  {
    PushPyDescends(h, v);
    assert h == Node(h.key, h.value, h.left, h.right, h.flag);
    if Toggle(h.flag) == 0 {
      ReplaceChildElems(h.key, h.value, h.left, PushPy(h.left, v), h.right, h.flag, 0, Elems(v));
    } else {
      ReplaceChildElems(h.key, h.value, h.right, PushPy(h.right, v), h.left, h.flag, 1, Elems(v));
    }
  }

  /** `pushraw` keeps every pair of both trees and adds none (Python). */
  lemma {:induction false} PushPyElems(h: Heap, v: Heap)
    requires v.Node?
    ensures Elems(PushPy(h, v)) == Elems(h) + Elems(v)
    decreases Size(h) + Size(v), SwapDue(h, v)
  {
    if h.Empty? {
    } else if h.key > v.key {
      PushPyElems(v, h);
    } else if h.left.Empty? || h.right.Empty? {
      PushPyFillElems(h, v);
    } else {
      if Toggle(h.flag) == 0 {
        PushPyElems(h.left, v);
      } else {
        PushPyElems(h.right, v);
      }
      PushPyDescendElems(h, v);
    }
  }

  /** `pushraw` of two heap-ordered trees is heap-ordered (Python). */
  lemma {:induction false} PushPyOrdered(h: Heap, v: Heap)
    requires v.Node? && Ordered(h) && Ordered(v)
    ensures Ordered(PushPy(h, v))
    decreases Size(h) + Size(v), SwapDue(h, v)
  {
    if h.Empty? {
    } else if h.key > v.key {
      PushPyOrdered(v, h);
    } else if h.left.Empty? || h.right.Empty? {
    } else if Toggle(h.flag) == 0 {
      PushPyOrdered(h.left, v);
    } else {
      PushPyOrdered(h.right, v);
    }
  }

  /** Either `pushraw` keeps the pairs of both trees and heap order. */
  lemma PushRawSpec(fl: Flavour, h: Heap, v: Heap)
    requires v.Node?
    ensures Elems(PushRaw(fl, h, v)) == Elems(h) + Elems(v)
    ensures Ordered(h) && Ordered(v) ==> Ordered(PushRaw(fl, h, v))
  {
    match fl
    case Py =>
      PushPyElems(h, v);
      if Ordered(h) && Ordered(v) {
        PushPyOrdered(h, v);
      }
    case C =>
      PushCElems(h, v);
      if Ordered(h) && Ordered(v) {
        PushCOrdered(h, v);
      }
  }

  /** `push` adds exactly the one pair and keeps heap order. */
  lemma PushSpec(fl: Flavour, h: Heap, key: int, value: int)
    ensures Elems(Push(fl, h, key, value)) == Elems(h) + multiset{(key, value)}
    ensures Ordered(h) ==> Ordered(Push(fl, h, key, value))
  {
    var n := Node(key, value, Empty, Empty, 0);
    assert Ordered(n);
    assert Elems(n) == multiset{(key, value)};
    PushRawSpec(fl, h, n);
    assert Push(fl, h, key, value) == PushRaw(fl, h, n);
  }

  /** `pop` removes exactly the root pair and keeps heap order. */
  lemma PopSpec(fl: Flavour, h: Heap)
    requires h.Node?
    ensures Elems(h) == Elems(Pop(fl, h).value.1) + multiset{(h.key, h.value)}
    ensures Ordered(h) ==> Ordered(Pop(fl, h).value.1)
  {
    var rest := Pop(fl, h).value.1;
    assert Elems(h) == multiset{(h.key, h.value)} + Elems(h.left) + Elems(h.right);
    assert Ordered(h) ==> Ordered(h.left) && Ordered(h.right);
    if h.right.Node? {
      assert rest == PushRaw(fl, h.left, h.right);
      PushRawSpec(fl, h.left, h.right);
    } else {
      assert rest == h.left;
      assert Elems(h.right) == multiset{};
    }
  }

  function PushRaw(fl: Flavour, h: Heap, v: Heap): (r: Heap)
    requires v.Node?
    ensures r.Node? && r.key == if h.Node? && h.key <= v.key then h.key else v.key
  {
    match fl
    case Py => PushPy(h, v)
    case C => PushC(h, v)
  }

  /** `push(heap, key, value)`: a fresh node with no children and flag 0. */
  function Push(fl: Flavour, h: Heap, key: int, value: int): (r: Heap)
    ensures r.Node? && r.key == if h.Node? && h.key <= key then h.key else key
  {
    PushRaw(fl, h, Node(key, value, Empty, Empty, 0))
  }

  /**
    `pop`: the root's key and value; the right subtree, if any, is pushed
    into the left one, which becomes the heap. An empty heap has nothing to
    pop (Python raises, C dereferences null).
   */
  function Pop(fl: Flavour, h: Heap): (r: Option<((int, int), Heap)>)
    ensures r.None? <==> h.Empty?
    ensures r.Some? ==> r.value.0 == (h.key, h.value)
  {
    match h
    case Empty => None
    case Node(k, v, l, rt, _) =>
      var rest := if rt.Node? then PushRaw(fl, l, rt) else l;
      Some(((k, v), rest))
  }

  /** On a heap-ordered tree, `pop` yields a pair with the least key of all. */
  lemma PopMin(fl: Flavour, h: Heap)
    requires Ordered(h) && h.Node?
    ensures Pop(fl, h).Some?
    ensures Pop(fl, h).value.0 in Elems(h)
    ensures forall e :: e in Elems(h) ==> Pop(fl, h).value.0.0 <= e.0
  {
    RootIsMin(h);
  }

  /** Popping what was just pushed onto an empty heap gives the pair back and leaves nothing. */
  lemma PushThenPop(fl: Flavour, key: int, value: int)
    ensures Pop(fl, Push(fl, Empty, key, value)) == Some(((key, value), Empty))
  {
  }

  /** Both flavours store the same pairs and put the same key at the root. */
  lemma FlavoursAgreeOnContents(h: Heap, v: Heap)
    requires v.Node?
    ensures Elems(PushPy(h, v)) == Elems(PushC(h, v))
    ensures PushPy(h, v).key == PushC(h, v).key
  {
    PushPyElems(h, v);
    PushCElems(h, v);
  }
}
