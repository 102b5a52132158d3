/**
  The maze generator of the path-finding benchmark (etc/pf.py and
  etc/pf.c): a 32-bit linear congruential generator fills a `size` by
  `size` grid with 0 (wall) and 1 (open) cells, the start and end cells are
  opened, and then the whole border is walled. Cell `i` is at row
  `i / size`, column `i % size`.
 */
module LcgGrid {
  import opened Wrappers
  import opened MachineInt

  /** The initial value of the global `seed`. */
  const SEED: nat := 8381853
  const MULT: nat := 141853155
  /** A cell is open when its draw exceeds this. */
  const THRESHOLD: nat := 1477603712

  /** Writing a cell outside the grid: an `IndexError` in Python, undefined behaviour in C. */
  datatype Fault = IndexOutOfRange

  /**
    `lcg` of etc/pf.py. The mask `& 0xFFFFFFFF` on the non-negative product
    keeps its low 32 bits, which is reduction modulo 2^32.
   */
  function PyLcg(seed: nat): (r: nat)
    ensures r < TWO_32
  {
    ((seed + 1) * MULT) % TWO_32
  }

  /** `lcg` of etc/pf.c: both the increment and the product are `uint32_t` arithmetic. */
  function CLcg(seed: nat): (r: nat)
    requires seed < TWO_32
    ensures r < TWO_32
  {
    ToU32(ToU32(seed + 1) * MULT)
  }

  /** The two generators agree on every 32-bit seed, so they draw the same sequence. */
  lemma LcgAgree(seed: nat)
    requires seed < TWO_32
    ensures CLcg(seed) == PyLcg(seed)
  {
    if seed + 1 == TWO_32 {
      assert ToU32(seed + 1) == 0;
      assert (seed + 1) * MULT == TWO_32 * MULT;
    } else {
      assert ToU32(seed + 1) == seed + 1;
    }
  }

  /** The seed after `k` calls of `lcg`. */
  function LcgIter(seed: nat, k: nat): nat {
    if k == 0 then seed else PyLcg(LcgIter(seed, k - 1))
  }

  /** The cell value of one draw: `1 if lcg() > 1477603712 else 0`. */
  function Bit(draw: nat): int {
    if draw > THRESHOLD then 1 else 0
  }

  /** The bottom-left corner's inner neighbour, where the search starts. */
  function Start(size: nat): int {
    size * (size - 2) + 1
  }

  /** The top-right corner's inner neighbour, where the search ends. */
  function End(size: nat): int {
    size * 2 - 2
  }

  predicate OnBorder(i: nat, size: nat)
    requires size > 0
  {
    i / size == 0 || i / size == size - 1 || i % size == 0 || i % size == size - 1
  }

  /** What `generate_grid` leaves in cell `i` of a grid whose first draw follows `seed`. */
  function Cell(size: nat, seed: nat, i: nat): int
    requires size > 0
  {
    if OnBorder(i, size) then 0
    else if i == Start(size) || i == End(size) then 1
    else Bit(LcgIter(seed, i + 1))
  }

  /** The grid `generate_grid` produces, cell by cell. */
  function GridOf(size: nat, seed: nat): (g: seq<int>)
    requires size > 0
    ensures |g| == size * size
    ensures forall i :: 0 <= i < |g| ==> g[i] == Cell(size, seed, i)
  {
    seq(size * size, (i: int) requires 0 <= i => Cell(size, seed, i))
  }

  /** A positive multiple of a positive `size` is at least `size`. */
  lemma {:induction false} MulAtLeast(d: int, size: nat)
    requires d >= 1
    ensures d * size >= size
    decreases d
  {
    if d > 1 {
      MulAtLeast(d - 1, size);
      assert d * size == (d - 1) * size + size;
    }
  }

  /** Cell `j` is `r * size + c` exactly when it is in row `r`, column `c`. */
  lemma RowCol(j: nat, size: nat, r: nat, c: nat)
    requires size > 0 && c < size
    ensures j == r * size + c <==> j / size == r && j % size == c
  {
    var q, m := j / size, j % size;
    assert j == q * size + m;
    if j == r * size + c {
      assert (q - r) * size == c - m;
      if q > r {
        MulAtLeast(q - r, size);
      } else if q < r {
        MulAtLeast(r - q, size);
      }
    }
  }

  /** Every cell of the grid has a row below `size`. */
  lemma RowInRange(j: nat, size: nat)
    requires 0 < size && j < size * size
    ensures j / size < size
  {
    var q := j / size;
    assert q * size <= j;
    if q >= size {
      MulAtLeast(q - size + 1, size);
    }
  }

  /** A cell below the first row is at least `size`. */
  lemma RowLowerBound(v: nat, size: nat)
    requires size > 0 && v / size >= 1
    ensures v >= size
  {
    MulAtLeast(v / size, size);
    assert v == (v / size) * size + v % size;
  }

  /** A cell above the last row has a cell of the grid below it. */
  lemma RowUpperBound(v: nat, size: nat)
    requires size > 0 && v / size <= size - 2
    ensures v + size < size * size
  {
    var r := v / size;
    var d := size - r - 1;
    MulAtLeast(d, size);
    assert v == r * size + v % size;
    assert size * size == r * size + size + d * size;
  }

  /** A cell inside the border has a grid cell on each side. */
  lemma InteriorBounds(v: nat, size: nat)
    requires 0 < size && v < size * size && !OnBorder(v, size)
    ensures size <= v && v + size < size * size
  {
    RowInRange(v, size);
    RowLowerBound(v, size);
    RowUpperBound(v, size);
  }

  /** The four cells the border loop clears in round `m` are inside the grid. */
  lemma RoundInRange(m: nat, size: nat)
    requires m < size
    ensures 0 <= m * size && m * size + size - 1 < size * size
    ensures 0 <= size * (size - 1) && m + size * (size - 1) < size * size
  {
    if m + 1 < size {
      MulAtLeast(size - m - 1, size);
    }
    assert size * size == (m + 1) * size + (size - m - 1) * size;
    assert size * (size - 1) + size == size * size;
  }

  /** After `m` rounds of the border loop: the border cells whose row or column is below `m`. */
  predicate Cleared(j: nat, size: nat, m: nat)
    requires size > 0
  {
    var r, c := j / size, j % size;
    (r == 0 && c < m) || (r == size - 1 && c < m) || (c == 0 && r < m) || (c == size - 1 && r < m)
  }

  /** Round `m` clears exactly the cells in column `m` of the outer rows and row `m` of the outer columns. */
  lemma ClearedStep(j: nat, size: nat, m: nat)
    requires m < size
    ensures Cleared(j, size, m + 1) <==>
      Cleared(j, size, m) || j == m * size || j == m * size + size - 1 || j == m || j == m + size * (size - 1)
  {
    RowCol(j, size, m, 0);
    RowCol(j, size, m, size - 1);
    RowCol(j, size, 0, m);
    RowCol(j, size, size - 1, m);
    assert m + size * (size - 1) == (size - 1) * size + m;
  }

  /** A grid cell is cleared after all `size` rounds exactly when it is on the border. */
  lemma ClearedAll(j: nat, size: nat)
    requires 0 < size && j < size * size
    ensures Cleared(j, size, size) <==> OnBorder(j, size)
  {
    RowInRange(j, size);
  }

  /** The first loop of `generate_grid`: one draw per cell, in index order. */
  method FillRandom(n: nat, seed0: nat) returns (g: seq<int>, seed: nat)
    ensures |g| == n && seed == LcgIter(seed0, n)
    ensures forall j :: 0 <= j < n ==> g[j] == Bit(LcgIter(seed0, j + 1))
  {
    g := [];
    seed := seed0;
    var i := 0;
    while i < n
      invariant i <= n && |g| == i
      invariant seed == LcgIter(seed0, i)
      invariant forall j :: 0 <= j < i ==> g[j] == Bit(LcgIter(seed0, j + 1))
    {
      seed := PyLcg(seed);
      g := g + [Bit(seed)];
      i := i + 1;
    }
  }

  /** The second loop of `generate_grid`: walls the first and last row and column, leaving the rest. */
  method ClearBorder(g0: seq<int>, size: nat) returns (g: seq<int>)
    requires size > 0 && |g0| == size * size
    ensures |g| == |g0|
    ensures forall j :: 0 <= j < |g| ==> g[j] == if OnBorder(j, size) then 0 else g0[j]
  {
    g := g0;
    var m := 0;
    while m < size
      invariant m <= size && |g| == |g0|
      invariant forall j :: 0 <= j < |g0| ==> g[j] == if Cleared(j, size, m) then 0 else g0[j]
    {
      RoundInRange(m, size);
      g := g[m * size := 0][m * size + size - 1 := 0][m := 0][m + size * (size - 1) := 0];
      forall j | 0 <= j < |g0|
        ensures g[j] == if Cleared(j, size, m + 1) then 0 else g0[j]
      {
        ClearedStep(j, size, m);
      }
      m := m + 1;
    }
    forall j | 0 <= j < |g0|
      ensures g[j] == if OnBorder(j, size) then 0 else g0[j]
    {
      ClearedAll(j, size);
    }
  }

  /** Start and end are cells of every non-empty grid. */
  lemma StartEndInGrid(size: nat)
    requires size > 0
    ensures 0 <= Start(size) < size * size && 0 <= End(size) < size * size
  {
    assert Start(size) == (size - 1) * (size - 1);
    assert size * size == (size - 1) * (size - 1) + 2 * size - 1;
  }

  /**
    `generate_grid(grid, size)` on a fresh grid of `size * size` cells,
    drawing from `seed0`; returns the grid and the global seed afterwards.
    With `size == 0` the write to `grid[size*2-2]` is out of range.
   */
  method GenerateGrid(size: nat, seed0: nat) returns (r: Result<seq<int>, Fault>, seed: nat)
    ensures r.Err? <==> size == 0
    ensures r.Ok? ==> |r.value| == size * size
    ensures r.Ok? ==> forall i :: 0 <= i < |r.value| ==> r.value[i] == Cell(size, seed0, i)
    ensures r.Ok? ==> r.value == GridOf(size, seed0)
    ensures seed == LcgIter(seed0, size * size)
  {
    var g;
    g, seed := FillRandom(size * size, seed0);
    if size == 0 {
      return Err(IndexOutOfRange), seed;
    }
    StartEndInGrid(size);
    g := g[End(size) := 1][Start(size) := 1];
    g := ClearBorder(g, size);
    assert g == GridOf(size, seed0);
    r := Ok(g);
  }

  /** Every cell is 0 or 1 and every border cell is 0. */
  lemma CellShape(size: nat, seed: nat, i: nat)
    requires size > 0
    ensures Cell(size, seed, i) == 0 || Cell(size, seed, i) == 1
    ensures OnBorder(i, size) ==> Cell(size, seed, i) == 0
  {
  }

  /** From size 3 on, the start and end cells lie inside the border. */
  lemma StartEndInterior(size: nat)
    requires size >= 3
    ensures 0 <= Start(size) < size * size && !OnBorder(Start(size), size)
    ensures 0 <= End(size) < size * size && !OnBorder(End(size), size)
  {
    StartEndInGrid(size);
    assert Start(size) == (size - 2) * size + 1;
    RowCol(Start(size), size, size - 2, 1);
    assert End(size) == 1 * size + (size - 2);
    RowCol(End(size), size, 1, size - 2);
  }

  /** From size 3 on, the start and end cells are open. */
  lemma StartEndOpen(size: nat, seed: nat)
    requires size >= 3
    ensures Cell(size, seed, Start(size)) == 1 && Cell(size, seed, End(size)) == 1
  {
    StartEndInterior(size);
  }

  /** With one or two cells a side, every cell is on the border, so the grid is all wall. */
  lemma TinyGridIsWall(size: nat, seed: nat, i: nat)
    requires 0 < size <= 2 && i < size * size
    ensures Cell(size, seed, i) == 0
  {
    RowInRange(i, size);
  }
}
