/**
  `dijkstra` of the path-finding benchmark (etc/pf.py and etc/pf.c): a
  shortest-path search over a `size` by `size` grid from `Start(size)` to
  `End(size)`, moving one cell left, right, up or down through open
  (non-zero) cells, with the flag heap of `FlagHeap` as priority queue.

  Heap entries carry the neighbour index exactly as computed, which in
  Python may be negative: Python reads `grid[-1]` as the last cell, C reads
  outside the buffer. `Index` captures both; an index neither accepts is a
  `Fault`. One iteration of the `while heap` loop is `Step`; `Run` repeats it
  at most `fuel` times.
 */
module GridDijkstra {
  import opened Wrappers
  import opened MachineInt
  import opened FlagHeap
  import opened LcgGrid

  /** An entry of `distances`: Python's `float('inf')` and C's `INT_MAX` are `Inf`. */
  datatype Dist = Inf | Fin(d: int)

  /** What the search state holds between iterations. */
  datatype Search = Search(heap: Heap, dist: seq<Dist>)

  /** `Found(k)` returns `k`; `NoPath` returns -1. */
  datatype Outcome = Found(cost: int) | NoPath | Fault | OutOfFuel

  datatype Next = Continue(s: Search) | Stop(out: Outcome)

  /** The cell a list index `i` denotes in a list of `n` cells, if any. */
  function Index(fl: Flavour, i: int, n: nat): (r: Option<nat>)
    ensures r.Some? <==> (if fl == Py then 0 <= i + n && i < n else 0 <= i < n)
    ensures r.Some? ==> r.value < n && (i >= 0 ==> r.value == i) && (i < 0 ==> r.value == i + n)
  {
    if 0 <= i < n then Some(i)
    else if fl == Py && 0 <= i + n && i < 0 then Some(i + n)
    else None
  }

  /**
    `new_dist < distances[neighbor]`. Every number is below Python's
    infinity; C's stand-in `INT_MAX` is only beaten by smaller numbers.
   */
  predicate Improves(fl: Flavour, nd: int, d: Dist) {
    match d
    case Inf => fl == Py || nd < INT_MAX
    case Fin(x) => nd < x
  }

  /** `current_distance > distances[current_index]`: never true of an infinite distance. */
  predicate Stale(k: int, d: Dist) {
    d.Fin? && k > d.d
  }

  /** `a` is no larger than `b`. */
  predicate DistLe(a: Dist, b: Dist) {
    b.Inf? || (a.Fin? && a.d <= b.d)
  }

  /** `get_neighbors(index, size)`: left, right, up, down, unchecked. */
  function Neighbors(v: int, size: nat): seq<int> {
    [v - 1, v + 1, v - size, v + size]
  }

  /** `w` is one of the four neighbours of `u`. */
  predicate Adjacent(u: int, w: int, size: nat) {
    w == u - 1 || w == u + 1 || w == u - size || w == u + size
  }

  /**
    One pass of the `for` loop for neighbour `nb` of a cell popped at
    distance `k`: a wall is skipped; otherwise, when `k + 1` improves the
    neighbour's distance, the distance is lowered and `(k + 1, nb)` pushed.
   */
  function Relax(fl: Flavour, grid: seq<int>, k: int, nb: int, s: Search): (r: Option<Search>)
    requires |s.dist| == |grid|
    ensures r.None? <==> Index(fl, nb, |grid|).None?
    ensures r.Some? ==> |r.value.dist| == |grid|
  {
    match Index(fl, nb, |grid|)
    case None => None
    case Some(i) =>
      if grid[i] != 0 && Improves(fl, k + 1, s.dist[i]) then
        Some(Search(Push(fl, s.heap, k + 1, nb), s.dist[i := Fin(k + 1)]))
      else Some(s)
  }

  /** The whole `for i in range(4)` loop over the given neighbours, in order. */
  function RelaxAll(fl: Flavour, grid: seq<int>, k: int, nbs: seq<int>, s: Search): (r: Option<Search>)
    requires |s.dist| == |grid|
    ensures r.Some? ==> |r.value.dist| == |grid|
    decreases |nbs|
  {
    if nbs == [] then Some(s)
    else match Relax(fl, grid, k, nbs[0], s)
      case None => None
      case Some(s1) => RelaxAll(fl, grid, k, nbs[1..], s1)
  }

  /**
    One iteration of `while heap`: pop; stop with the key when the value is
    `end`; skip a stale entry; otherwise relax the four neighbours. An empty
    heap ends the search with -1.
   */
  function Step(fl: Flavour, grid: seq<int>, size: nat, s: Search): (r: Next)
    requires |s.dist| == |grid|
    ensures r.Continue? ==> |r.s.dist| == |grid|
    ensures r == Stop(NoPath) <==> s.heap.Empty?
    ensures r != Stop(OutOfFuel)
  {
    match Pop(fl, s.heap)
    case None => Stop(NoPath)
    case Some(((k, v), rest)) =>
      if v == End(size) then Stop(Found(k))
      else match Index(fl, v, |grid|)
        case None => Stop(Fault)
        case Some(i) =>
          if Stale(k, s.dist[i]) then Continue(Search(rest, s.dist))
          else match RelaxAll(fl, grid, k, Neighbors(v, size), Search(rest, s.dist))
            case None => Stop(Fault)
            case Some(s1) => Continue(s1)
  }

  /** The `while heap` loop, cut off after `fuel` iterations. */
  function Run(fl: Flavour, grid: seq<int>, size: nat, s: Search, fuel: nat): (r: Outcome)
    requires |s.dist| == |grid|
    ensures fuel == 0 ==> r == OutOfFuel
    ensures fuel > 0 && s.heap.Empty? ==> r == NoPath
    decreases fuel
  {
    if fuel == 0 then OutOfFuel
    else match Step(fl, grid, size, s)
      case Stop(o) => o
      case Continue(s1) => Run(fl, grid, size, s1, fuel - 1)
  }

  /** The search state before the loop: every distance infinite but the start's, which is 0, and the start pushed. */
  function Init(fl: Flavour, grid: seq<int>, size: nat): (r: Option<Search>)
    ensures r.Some? <==> Index(fl, Start(size), |grid|).Some?
    ensures r.Some? ==> |r.value.dist| == |grid|
    ensures r.Some? ==> Elems(r.value.heap) == multiset{(0, Start(size))}
    ensures r.Some? ==> forall j :: 0 <= j < |grid| ==>
      r.value.dist[j] == if j == Index(fl, Start(size), |grid|).value then Fin(0) else Inf
  {
    match Index(fl, Start(size), |grid|)
    case None => None
    case Some(i) =>
      PushSpec(fl, Empty, 0, Start(size));
      Some(Search(Push(fl, Empty, 0, Start(size)), seq(|grid|, _ => Inf)[i := Fin(0)]))
  }

  /** `dijkstra(grid, size)`, with at most `fuel` iterations of the loop. */
  function Dijkstra(fl: Flavour, grid: seq<int>, size: nat, fuel: nat): (r: Outcome)
    requires |grid| == size * size
    ensures Index(fl, Start(size), |grid|).None? ==> r == Fault
    ensures Index(fl, Start(size), |grid|).Some? && fuel == 0 ==> r == OutOfFuel
    ensures Index(fl, Start(size), |grid|).Some? && fuel > 0 && Start(size) == End(size) ==> r == Found(0)
  {
    match Init(fl, grid, size)
    case None => Fault
    case Some(s) => Run(fl, grid, size, s, fuel)
  }

  // ----- soundness: a returned cost is the length of a walk -----

  /** There is a walk of `k` moves from the start to `v` whose every cell after the start is open. */
  predicate Reach(fl: Flavour, grid: seq<int>, size: nat, k: nat, v: int)
    decreases k
  {
    if k == 0 then v == Start(size)
    else match Index(fl, v, |grid|)
      case None => false
      case Some(i) =>
        grid[i] != 0 &&
        (Reach(fl, grid, size, k - 1, v + 1) || Reach(fl, grid, size, k - 1, v - 1) ||
         Reach(fl, grid, size, k - 1, v + size) || Reach(fl, grid, size, k - 1, v - size))
  }

  /** Every heap entry `(k, v)` has `k >= 0` and a walk of `k` moves to `v`. */
  predicate EntriesReach(fl: Flavour, grid: seq<int>, size: nat, h: Heap) {
    forall e :: e in Elems(h) ==> e.0 >= 0 && Reach(fl, grid, size, e.0, e.1)
  }

  /** A walk to `u` extends by one move to an open neighbour `w`. */
  lemma ReachStep(fl: Flavour, grid: seq<int>, size: nat, k: nat, u: int, w: int)
    requires Reach(fl, grid, size, k, u) && Adjacent(u, w, size)
    requires Index(fl, w, |grid|).Some? && grid[Index(fl, w, |grid|).value] != 0
    ensures Reach(fl, grid, size, k + 1, w)
  {
  }

  /** Adding one reached entry to a heap of reached entries. */
  lemma EntriesReachAdd(fl: Flavour, grid: seq<int>, size: nat, h: Heap, h2: Heap, k: nat, v: int)
    requires EntriesReach(fl, grid, size, h) && Reach(fl, grid, size, k, v)
    requires Elems(h2) == Elems(h) + multiset{(k, v)}
    ensures EntriesReach(fl, grid, size, h2)
  {
    forall e | e in Elems(h2)
      ensures e.0 >= 0 && Reach(fl, grid, size, e.0, e.1)
    {
      if e != (k, v) {
        assert e in Elems(h);
      }
    }
  }

  /** Pushing a reached entry onto a heap of reached entries. */
  lemma EntriesReachPush(fl: Flavour, grid: seq<int>, size: nat, h: Heap, k: nat, v: int)
    requires EntriesReach(fl, grid, size, h) && Reach(fl, grid, size, k, v)
    ensures EntriesReach(fl, grid, size, Push(fl, h, k, v))
  {
    PushSpec(fl, h, k, v);
    EntriesReachAdd(fl, grid, size, h, Push(fl, h, k, v), k, v);
  }

  /** Pushing an open neighbour of a reached cell at one more move keeps every entry reached. */
  lemma PushNeighborReach(fl: Flavour, grid: seq<int>, size: nat, k: nat, u: int, nb: int, h: Heap)
    requires Reach(fl, grid, size, k, u) && Adjacent(u, nb, size)
    requires Index(fl, nb, |grid|).Some? && grid[Index(fl, nb, |grid|).value] != 0
    requires EntriesReach(fl, grid, size, h)
    ensures EntriesReach(fl, grid, size, Push(fl, h, k + 1, nb))
  {
    ReachStep(fl, grid, size, k, u, nb);
    EntriesReachPush(fl, grid, size, h, k + 1, nb);
  }

  /** Relaxing a neighbour of a reached cell pushes only reached entries. */
  lemma RelaxReach(fl: Flavour, grid: seq<int>, size: nat, k: int, u: int, nb: int, s: Search)
    requires |s.dist| == |grid| && k >= 0 && Reach(fl, grid, size, k, u) && Adjacent(u, nb, size)
    requires EntriesReach(fl, grid, size, s.heap)
    ensures Relax(fl, grid, k, nb, s).Some? ==> EntriesReach(fl, grid, size, Relax(fl, grid, k, nb, s).value.heap)
  {
    match Index(fl, nb, |grid|)
    case None =>
    case Some(i) =>
      if grid[i] != 0 && Improves(fl, k + 1, s.dist[i]) {
        PushNeighborReach(fl, grid, size, k, u, nb, s.heap);
      }
  }

  /** Relaxing neighbours of a reached cell pushes only reached entries. */
  lemma {:induction false} RelaxAllReach(fl: Flavour, grid: seq<int>, size: nat, k: int, u: int, nbs: seq<int>, s: Search)
    requires |s.dist| == |grid| && k >= 0 && Reach(fl, grid, size, k, u)
    requires forall j :: 0 <= j < |nbs| ==> Adjacent(u, nbs[j], size)
    requires EntriesReach(fl, grid, size, s.heap)
    ensures RelaxAll(fl, grid, k, nbs, s).Some? ==> EntriesReach(fl, grid, size, RelaxAll(fl, grid, k, nbs, s).value.heap)
    decreases |nbs|
  {
    if nbs != [] {
      RelaxReach(fl, grid, size, k, u, nbs[0], s);
      match Relax(fl, grid, k, nbs[0], s)
      case None =>
      case Some(s1) =>
        RelaxAllReach(fl, grid, size, k, u, nbs[1..], s1);
    }
  }

  /** Popping keeps the remaining entries, and the popped one was among them. */
  lemma PopEntries(fl: Flavour, h: Heap)
    requires h.Node?
    ensures Pop(fl, h).value.0 in Elems(h)
    ensures forall e :: e in Elems(Pop(fl, h).value.1) ==> e in Elems(h)
  {
    PopSpec(fl, h);
  }

  /** Popping a heap of reached entries yields a reached entry and leaves reached entries. */
  lemma PopReach(fl: Flavour, grid: seq<int>, size: nat, h: Heap)
    requires h.Node? && EntriesReach(fl, grid, size, h)
    ensures Pop(fl, h).value.0.0 >= 0 && Reach(fl, grid, size, Pop(fl, h).value.0.0, Pop(fl, h).value.0.1)
    ensures EntriesReach(fl, grid, size, Pop(fl, h).value.1)
  {
    PopEntries(fl, h);
  }

  /** `get_neighbors` lists only neighbours. */
  lemma NeighborsAdjacent(v: int, size: nat)
    ensures forall j :: 0 <= j < |Neighbors(v, size)| ==> Adjacent(v, Neighbors(v, size)[j], size)
  {
  }

  /** A step keeps every heap entry reachable; a step that finds the end returns a reached distance. */
  lemma StepReach(fl: Flavour, grid: seq<int>, size: nat, s: Search)
    requires |s.dist| == |grid| && EntriesReach(fl, grid, size, s.heap)
    ensures Step(fl, grid, size, s).Continue? ==> EntriesReach(fl, grid, size, Step(fl, grid, size, s).s.heap)
    ensures Step(fl, grid, size, s).Stop? && Step(fl, grid, size, s).out.Found? ==>
      Step(fl, grid, size, s).out.cost >= 0 && Reach(fl, grid, size, Step(fl, grid, size, s).out.cost, End(size))
  {
    match Pop(fl, s.heap)
    case None =>
    case Some(((k, v), rest)) =>
      PopReach(fl, grid, size, s.heap);
      if v != End(size) {
        match Index(fl, v, |grid|)
        case None =>
        case Some(i) =>
          if !Stale(k, s.dist[i]) {
            NeighborsAdjacent(v, size);
            RelaxAllReach(fl, grid, size, k, v, Neighbors(v, size), Search(rest, s.dist));
          }
      }
  }

  /** Whatever the loop returns as a cost is the length of some walk from the start to the end. */
  lemma {:induction false} RunReach(fl: Flavour, grid: seq<int>, size: nat, s: Search, fuel: nat)
    requires |s.dist| == |grid| && EntriesReach(fl, grid, size, s.heap)
    ensures Run(fl, grid, size, s, fuel).Found? ==>
      Run(fl, grid, size, s, fuel).cost >= 0 && Reach(fl, grid, size, Run(fl, grid, size, s, fuel).cost, End(size))
    decreases fuel
  {
    if fuel > 0 {
      StepReach(fl, grid, size, s);
      match Step(fl, grid, size, s)
      case Stop(o) =>
      case Continue(s1) =>
        RunReach(fl, grid, size, s1, fuel - 1);
    }
  }

  /** `dijkstra` returns either -1 or the length of a walk from the start to the end through open cells. */
  lemma DijkstraSound(fl: Flavour, grid: seq<int>, size: nat, fuel: nat)
    requires |grid| == size * size
    ensures Dijkstra(fl, grid, size, fuel).Found? ==>
      Dijkstra(fl, grid, size, fuel).cost >= 0 && Reach(fl, grid, size, Dijkstra(fl, grid, size, fuel).cost, End(size))
  {
    match Init(fl, grid, size)
    case None =>
    case Some(s) =>
      assert EntriesReach(fl, grid, size, s.heap);
      RunReach(fl, grid, size, s, fuel);
  }

  // ----- distances only decrease, and never at a wall -----

  /** `a` holds no larger distances than `b`, and the same ones at every wall. */
  predicate Lowers(grid: seq<int>, a: seq<Dist>, b: seq<Dist>) {
    |a| == |grid| && |b| == |grid| &&
    forall j :: 0 <= j < |grid| ==> DistLe(a[j], b[j]) && (grid[j] == 0 ==> a[j] == b[j])
  }

  /** Lowering the distance of one open cell. */
  lemma LowerOne(grid: seq<int>, d: seq<Dist>, i: nat, x: Dist)
    requires |d| == |grid| && i < |grid| && grid[i] != 0 && DistLe(x, d[i])
    ensures Lowers(grid, d[i := x], d)
  {
  }

  lemma LowerNone(grid: seq<int>, d: seq<Dist>)
    requires |d| == |grid|
    ensures Lowers(grid, d, d)
  {
  }

  /**
    Relaxing one neighbour lowers only that neighbour's distance, only to
    `k + 1`, only when that is a strict improvement of an open cell, and
    then pushes exactly `(k + 1, nb)`; otherwise nothing changes.
   */
  lemma RelaxSpec(fl: Flavour, grid: seq<int>, k: int, nb: int, s: Search)
    requires |s.dist| == |grid| && Index(fl, nb, |grid|).Some?
    ensures Relax(fl, grid, k, nb, s).Some?
    ensures var i := Index(fl, nb, |grid|).value;
      var r := Relax(fl, grid, k, nb, s).value;
      if grid[i] != 0 && Improves(fl, k + 1, s.dist[i]) then
        r.dist == s.dist[i := Fin(k + 1)] && Elems(r.heap) == Elems(s.heap) + multiset{(k + 1, nb)}
      else r == s
    ensures Lowers(grid, Relax(fl, grid, k, nb, s).value.dist, s.dist)
  {
    var i := Index(fl, nb, |grid|).value;
    var r := Relax(fl, grid, k, nb, s).value;
    if grid[i] != 0 && Improves(fl, k + 1, s.dist[i]) {
      assert r == Search(Push(fl, s.heap, k + 1, nb), s.dist[i := Fin(k + 1)]);
      PushSpec(fl, s.heap, k + 1, nb);
      LowerOne(grid, s.dist, i, Fin(k + 1));
    } else {
      assert r == s;
      LowerNone(grid, s.dist);
    }
  }

  /** The neighbour loop only lowers distances, and never at a wall. */
  lemma {:induction false} RelaxAllLowers(fl: Flavour, grid: seq<int>, k: int, nbs: seq<int>, s: Search)
    requires |s.dist| == |grid|
    ensures RelaxAll(fl, grid, k, nbs, s).Some? ==> Lowers(grid, RelaxAll(fl, grid, k, nbs, s).value.dist, s.dist)
    decreases |nbs|
  {
    if nbs != [] {
      match Index(fl, nbs[0], |grid|)
      case None =>
      case Some(_) =>
        RelaxSpec(fl, grid, k, nbs[0], s);
        var s1 := Relax(fl, grid, k, nbs[0], s).value;
        RelaxAllLowers(fl, grid, k, nbs[1..], s1);
    }
  }

  /**
    A step only lowers distances and never at a wall; a stale entry is
    dropped with the distances untouched.
   */
  lemma StepLowers(fl: Flavour, grid: seq<int>, size: nat, s: Search)
    requires |s.dist| == |grid|
    ensures Step(fl, grid, size, s).Continue? ==> Lowers(grid, Step(fl, grid, size, s).s.dist, s.dist)
    ensures (s.heap.Node? && Pop(fl, s.heap).value.0.1 != End(size) &&
             Index(fl, Pop(fl, s.heap).value.0.1, |grid|).Some? &&
             Stale(Pop(fl, s.heap).value.0.0, s.dist[Index(fl, Pop(fl, s.heap).value.0.1, |grid|).value]))
      ==> Step(fl, grid, size, s) == Continue(Search(Pop(fl, s.heap).value.1, s.dist))
  {
    match Pop(fl, s.heap)
    case None =>
    case Some(((k, v), rest)) =>
      if v != End(size) {
        match Index(fl, v, |grid|)
        case None =>
        case Some(i) =>
          if !Stale(k, s.dist[i]) {
            RelaxAllLowers(fl, grid, k, Neighbors(v, size), Search(rest, s.dist));
          }
      }
  }

  // ----- the heap stays heap-ordered -----

  /** The neighbour loop keeps the heap ordered. */
  lemma {:induction false} RelaxAllOrdered(fl: Flavour, grid: seq<int>, k: int, nbs: seq<int>, s: Search)
    requires |s.dist| == |grid| && Ordered(s.heap)
    ensures RelaxAll(fl, grid, k, nbs, s).Some? ==> Ordered(RelaxAll(fl, grid, k, nbs, s).value.heap)
    decreases |nbs|
  {
    if nbs != [] {
      match Index(fl, nbs[0], |grid|)
      case None =>
      case Some(i) =>
        if grid[i] != 0 && Improves(fl, k + 1, s.dist[i]) {
          PushSpec(fl, s.heap, k + 1, nbs[0]);
        }
        var s1 := Relax(fl, grid, k, nbs[0], s).value;
        RelaxAllOrdered(fl, grid, k, nbs[1..], s1);
    }
  }

  /** A step keeps the heap ordered, so every pop takes an entry of least distance. */
  lemma StepOrdered(fl: Flavour, grid: seq<int>, size: nat, s: Search)
    requires |s.dist| == |grid| && Ordered(s.heap)
    ensures Step(fl, grid, size, s).Continue? ==> Ordered(Step(fl, grid, size, s).s.heap)
  {
    match Pop(fl, s.heap)
    case None =>
    case Some(((k, v), rest)) =>
      PopSpec(fl, s.heap);
      if v != End(size) {
        match Index(fl, v, |grid|)
        case None =>
        case Some(i) =>
          if !Stale(k, s.dist[i]) {
            RelaxAllOrdered(fl, grid, k, Neighbors(v, size), Search(rest, s.dist));
          }
      }
  }

  // ----- no out-of-range index on a walled grid -----

  /** A cell strictly inside the border. */
  predicate Interior(v: int, size: nat) {
    size > 0 && 0 <= v < size * size && !OnBorder(v, size)
  }

  /** A `size` by `size` grid whose border cells are all walls, as `generate_grid` leaves it. */
  predicate Walled(grid: seq<int>, size: nat) {
    size > 0 && |grid| == size * size &&
    forall i :: 0 <= i < |grid| && grid[i] != 0 ==> !OnBorder(i, size)
  }

  predicate EntriesInterior(size: nat, h: Heap) {
    forall e :: e in Elems(h) ==> Interior(e.1, size)
  }

  /** The four neighbours of an interior cell are cells of the grid. */
  lemma InteriorNeighbors(v: int, size: nat)
    requires Interior(v, size)
    ensures 0 <= v - size && v + size < size * size
    ensures forall j :: 0 <= j < |Neighbors(v, size)| ==> 0 <= Neighbors(v, size)[j] < size * size
  {
    InteriorBounds(v, size);
  }

  /** The generated grid is walled. */
  lemma GeneratedIsWalled(size: nat, seed: nat)
    requires size > 0
    ensures Walled(GridOf(size, seed), size)
  {
  }

  /** Pushing an interior cell onto a heap of interior cells. */
  lemma EntriesInteriorPush(fl: Flavour, size: nat, h: Heap, k: int, v: int)
    requires EntriesInterior(size, h) && Interior(v, size)
    ensures EntriesInterior(size, Push(fl, h, k, v))
  {
    PushSpec(fl, h, k, v);
    forall e | e in Elems(Push(fl, h, k, v))
      ensures Interior(e.1, size)
    {
      if e != (k, v) {
        assert e in Elems(h);
      }
    }
  }

  /** On a walled grid, relaxing in-range neighbours never faults and pushes only interior cells. */
  lemma {:induction false} RelaxAllInterior(fl: Flavour, grid: seq<int>, size: nat, k: int, nbs: seq<int>, s: Search)
    requires Walled(grid, size) && |s.dist| == |grid| && EntriesInterior(size, s.heap)
    requires forall j :: 0 <= j < |nbs| ==> 0 <= nbs[j] < |grid|
    ensures RelaxAll(fl, grid, k, nbs, s).Some?
    ensures EntriesInterior(size, RelaxAll(fl, grid, k, nbs, s).value.heap)
    decreases |nbs|
  {
    if nbs != [] {
      var nb := nbs[0];
      if grid[nb] != 0 && Improves(fl, k + 1, s.dist[nb]) {
        EntriesInteriorPush(fl, size, s.heap, k + 1, nb);
      }
      var s1 := Relax(fl, grid, k, nb, s).value;
      RelaxAllInterior(fl, grid, size, k, nbs[1..], s1);
    }
  }

  /** On a walled grid a step from interior entries never faults and keeps the entries interior. */
  lemma StepInterior(fl: Flavour, grid: seq<int>, size: nat, s: Search)
    requires Walled(grid, size) && |s.dist| == |grid| && EntriesInterior(size, s.heap)
    ensures Step(fl, grid, size, s) != Stop(Fault)
    ensures Step(fl, grid, size, s).Continue? ==> EntriesInterior(size, Step(fl, grid, size, s).s.heap)
  {
    match Pop(fl, s.heap)
    case None =>
    case Some(((k, v), rest)) =>
      PopEntries(fl, s.heap);
      assert Interior(v, size);
      assert EntriesInterior(size, rest);
      if v != End(size) && !Stale(k, s.dist[v]) {
        InteriorNeighbors(v, size);
        RelaxAllInterior(fl, grid, size, k, Neighbors(v, size), Search(rest, s.dist));
      }
  }

  lemma {:induction false} RunInterior(fl: Flavour, grid: seq<int>, size: nat, s: Search, fuel: nat)
    requires Walled(grid, size) && |s.dist| == |grid| && EntriesInterior(size, s.heap)
    ensures Run(fl, grid, size, s, fuel) != Fault
    decreases fuel
  {
    if fuel > 0 {
      StepInterior(fl, grid, size, s);
      match Step(fl, grid, size, s)
      case Stop(o) =>
      case Continue(s1) =>
        RunInterior(fl, grid, size, s1, fuel - 1);
    }
  }

  /**
    From size 3 on, `dijkstra` on a walled grid never indexes outside the
    grid: Python never wraps a negative index and C never reads past the buffer.
   */
  lemma DijkstraSafe(fl: Flavour, grid: seq<int>, size: nat, fuel: nat)
    requires size >= 3 && Walled(grid, size)
    ensures Dijkstra(fl, grid, size, fuel) != Fault
  {
    StartEndInterior(size);
    var s := Init(fl, grid, size).value;
    assert EntriesInterior(size, s.heap);
    RunInterior(fl, grid, size, s, fuel);
  }

  /** In particular on every grid `generate_grid` makes. */
  lemma GeneratedGridSafe(fl: Flavour, size: nat, seed: nat, fuel: nat)
    requires size >= 3
    ensures Dijkstra(fl, GridOf(size, seed), size, fuel) != Fault
  {
    GeneratedIsWalled(size, seed);
    DijkstraSafe(fl, GridOf(size, seed), size, fuel);
  }

  /** On a 3 by 3 grid the start is the end, so the first pop returns 0. */
  lemma StartIsEndAtSize3(fl: Flavour, grid: seq<int>, fuel: nat)
    requires |grid| == 9 && fuel > 0
    ensures Dijkstra(fl, grid, 3, fuel) == Found(0)
  {
    var s := Init(fl, grid, 3).value;
    assert Start(3) == End(3) == 4;
    PushThenPop(fl, 0, 4);
  }
}
