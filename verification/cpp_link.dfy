/**
  The back half of flinch.cpp's `load_program` (flinch.cpp:607-724): the
  peephole fuser, function registration with in-function label
  resolution, and the two root-level label passes.

  Indices are `size_t` in the source. The fuser steps its index back with
  `i--`, which wraps below zero; the model keeps the index as an `int`, so
  the wrapped value is a negative number. Label locations are `iword_t`
  with `-1` as "unset"; the model writes "unset" as `None` and does not
  bound programs to 2^32 tokens.
 */
module CppLink {
  import opened Wrappers
  import opened Tokens

  /** `program.erase(program.begin() + k)`. */
  function Erase<T>(p: seq<T>, k: nat): (r: seq<T>)
    requires k < |p|
    ensures |r| == |p| - 1
    ensures r[..k] == p[..k] && r[k..] == p[k + 1..]
  {
    p[..k] + p[k + 1..]
  }

  /** The compiled program ends in its only `Exit`. */
  predicate ExitLast(p: seq<Token>) {
    |p| > 0 && p[|p| - 1].kind == Exit && forall k :: 0 <= k < |p| - 1 ==> p[k].kind != Exit
  }

  // ----- the peephole fuser -----

  /** `still_valid()`: `i` and `i + 1` are in range and neither is `Exit`. */
  predicate StillValid(p: seq<Token>, i: int) {
    0 <= i && i + 1 < |p| && p[i].kind != Exit && p[i + 1].kind != Exit
  }

  /** The fused kind for `LocalVarLookup` followed by `Assign`, `Goto` or `IfGoto`. */
  function VarFusion(k: Kind): Kind {
    if k == Assign then AssignVar else if k == Goto then GotoLabel else IfGotoLabel
  }

  /** `LocalVarLookup n; Assign|Goto|IfGoto` becomes `AssignVar|GotoLabel|IfGotoLabel n`, and `i` steps back. */
  function FuseVar(p: seq<Token>, i: int): (r: (seq<Token>, int))
    ensures r.1 == i || r.1 == i - 1
    ensures |r.0| == |p| - (i - r.1)
    ensures r.1 == i ==> r.0 == p
    ensures r.1 == i - 1 ==> StillValid(p, i) && p[i].kind == LocalVarLookup
                             && r.0 == Erase(p, i + 1)[i := p[i].(kind := VarFusion(p[i + 1].kind))]
  {
    if StillValid(p, i) && p[i].kind == LocalVarLookup && (p[i + 1].kind == Assign || p[i + 1].kind == Goto || p[i + 1].kind == IfGoto) then
      (Erase(p[i := p[i].(kind := VarFusion(p[i + 1].kind))], i + 1), i - 1)
    else (p, i)
  }

  /**
    The pair rewrite the jump fusions evidently intend: `LocalVarLookup n;
    Assign` becomes `AssignVar n` as written, but `Goto` and `IfGoto` fuse
    with a preceding `LabelLookup`, the token `:label` produces.
   */
  function FuseVarFixed(p: seq<Token>, i: int): (r: (seq<Token>, int))
    ensures r.1 == i || r.1 == i - 1
    ensures |r.0| == |p| - (i - r.1)
    ensures r.1 == i ==> r.0 == p
    ensures r.1 == i - 1 ==> StillValid(p, i)
                             && (if p[i + 1].kind == Assign then p[i].kind == LocalVarLookup
                                 else p[i].kind == LabelLookup && (p[i + 1].kind == Goto || p[i + 1].kind == IfGoto))
                             && r.0 == Erase(p, i + 1)[i := p[i].(kind := VarFusion(p[i + 1].kind))]
  {
    if StillValid(p, i)
       && ((p[i].kind == LocalVarLookup && p[i + 1].kind == Assign)
           || (p[i].kind == LabelLookup && (p[i + 1].kind == Goto || p[i + 1].kind == IfGoto))) then
      (Erase(p[i := p[i].(kind := VarFusion(p[i + 1].kind))], i + 1), i - 1)
    else (p, i)
  }

  /** `LabelLookup n; ForLoop` becomes `ForLoopLabel n`, and `i` steps back twice. */
  function FuseFor(p: seq<Token>, i: int): (r: (seq<Token>, int))
    ensures r.1 == i || r.1 == i - 2
    ensures r.1 == i ==> r.0 == p
    ensures r.1 == i - 2 ==> |r.0| == |p| - 1
    ensures r.1 == i - 2 ==> StillValid(p, i) && r.0 == Erase(p, i + 1)[i := p[i].(kind := ForLoopLabel)]
  {
    if StillValid(p, i) && p[i].kind == LabelLookup && p[i + 1].kind == ForLoop then
      (Erase(p[i := p[i].(kind := ForLoopLabel)], i + 1), i - 2)
    else (p, i)
  }

  /**
    `LocalVarLookup v; IntegerInline k; ForLoopLabel t` becomes
    `ForLoopFull t` with the variable and the limit in the extra fields.
   */
  function FuseForFull(p: seq<Token>, i: int): (r: (seq<Token>, int))
    ensures r.1 == i || r.1 == i - 1
    ensures r.1 == i ==> r.0 == p
    ensures r.1 == i - 1 ==> |r.0| == |p| - 2
    ensures r.1 == i - 1 ==> StillValid(p, i) && i + 2 < |p| && p[i + 2].kind == ForLoopLabel && r.0 == p[..i] + [Token(ForLoopFull, p[i + 2].n, p[i].n, p[i + 1].n)] + p[i + 3..]
  {
    if StillValid(p, i) && i + 2 < |p| && p[i].kind == LocalVarLookup && p[i + 1].kind == IntegerInline && p[i + 2].kind == ForLoopLabel then
      var t := Token(ForLoopFull, p[i + 2].n, p[i].n, p[i + 1].n);
      (Erase(Erase(p[i := t], i + 2), i + 1), i - 1)
    else (p, i)
  }

  /** `Cmp<op>; IfGotoLabel t` becomes `IfGotoLabel<op> t`. */
  function FuseCmp(p: seq<Token>, i: int): (r: (seq<Token>, int))
    ensures r.1 == i || r.1 == i - 1
    ensures r.1 == i ==> r.0 == p
    ensures r.1 == i - 1 ==> |r.0| == |p| - 1
    ensures r.1 == i - 1 ==> StillValid(p, i) && p[i].kind.Bin? && p[i].kind.op.CmpOp?
                             && r.0 == Erase(p, i + 1)[i := Token(IfGotoLabelCmp(p[i].kind.op.c), p[i + 1].n, p[i].x1, p[i].x2)]
  {
    if StillValid(p, i) && p[i].kind.Bin? && p[i].kind.op.CmpOp? && p[i + 1].kind == IfGotoLabel then
      (Erase(p[i := Token(IfGotoLabelCmp(p[i].kind.op.c), p[i + 1].n, p[i].x1, p[i].x2)], i + 1), i - 1)
    else (p, i)
  }

  /** The body of the fuser's loop: the four rewrites, tried in order at the moving index. */
  function FuseAll(p: seq<Token>, i: int): (r: (seq<Token>, int))
    ensures 3 * |r.0| - r.1 <= 3 * |p| - i
    ensures r.1 <= i && |r.0| <= |p|
    ensures i + 1 < |p| ==> r.1 + 1 < |r.0|
  {
    var (p1, i1) := FuseVar(p, i);
    var (p2, i2) := FuseFor(p1, i1);
    var (p3, i3) := FuseForFull(p2, i2);
    FuseCmp(p3, i3)
  }

  /** The loop body with the corrected pair rewrite in place of `FuseVar`. */
  function FuseAllFixed(p: seq<Token>, i: int): (r: (seq<Token>, int))
    ensures 3 * |r.0| - r.1 <= 3 * |p| - i
    ensures r.1 <= i && |r.0| <= |p|
    ensures i + 1 < |p| ==> r.1 + 1 < |r.0|
  {
    var (p1, i1) := FuseVarFixed(p, i);
    var (p2, i2) := FuseFor(p1, i1);
    var (p3, i3) := FuseForFull(p2, i2);
    FuseCmp(p3, i3)
  }

  /**
    The fuser as written, from index `i`. When a rewrite at index 0 steps
    the index below zero, the next loop test reads `program[SIZE_MAX]`.
   */
  function PeepholeFrom(p: seq<Token>, i: int): (r: Result<seq<Token>, Fault>)
    requires i <= |p|
    decreases 3 * |p| - i + 3
  {
    if i < 0 then Err(Undefined(TokenBelowZero))
    else if i >= |p| || p[i].kind == Exit then Ok(p)
    else if i + 1 >= |p| then Err(Undefined(NextTokenPastEnd))
    else if p[i + 1].kind == Exit then Ok(p)
    else
      var (q, j) := FuseAll(p, i);
      PeepholeFrom(q, j + 1)
  }

  /**
    flinch.cpp:616-646. Where it finishes on a program without `goto` or
    `if_goto`, the corrected fuser gives the same program.
   */
  function Peephole(p: seq<Token>): (r: Result<seq<Token>, Fault>)
    ensures r.Ok? && NoJumps(p) ==> PeepholeFixed(p) == r
  {
    if PeepholeFrom(p, 0).Ok? && NoJumps(p) then
      PeepholeFixedAgrees(p, 0);
      PeepholeFrom(p, 0)
    else PeepholeFrom(p, 0)
  }

  /**
    The corrected fuser: the index is clamped at 0 after a step back below
    zero, and jumps fuse with label pushes rather than variable references.
   */
  function PeepholeFixedFrom(p: seq<Token>, i: int): Result<seq<Token>, Fault>
    requires i <= |p|
    decreases 3 * |p| - i + 3
  {
    if i < 0 then PeepholeFixedFrom(p, 0)
    else if i >= |p| || p[i].kind == Exit then Ok(p)
    else if i + 1 >= |p| then Err(Undefined(NextTokenPastEnd))
    else if p[i + 1].kind == Exit then Ok(p)
    else
      var (q, j) := FuseAllFixed(p, i);
      PeepholeFixedFrom(q, j + 1)
  }

  /** On a program ending in its only `Exit` the corrected fuser never fails, keeps that shape and never lengthens it. */
  function PeepholeFixed(p: seq<Token>): (r: Result<seq<Token>, Fault>)
    ensures ExitLast(p) ==> r.Ok? && ExitLast(r.value) && |r.value| <= |p|
  {
    if ExitLast(p) then
      PeepholeFixedSafe(p, 0);
      PeepholeFixedFrom(p, 0)
    else PeepholeFixedFrom(p, 0)
  }

  /**
    On a program that ends in its only `Exit`, the corrected fuser never
    fails, keeps that shape, and never lengthens the program.
   */
  lemma {:induction false} PeepholeFixedSafe(p: seq<Token>, i: int)
    requires i <= |p| && ExitLast(p)
    ensures PeepholeFixedFrom(p, i).Ok?
    ensures ExitLast(PeepholeFixedFrom(p, i).value) && |PeepholeFixedFrom(p, i).value| <= |p|
    decreases 3 * |p| - i + 3
  {
    if i < 0 {
      PeepholeFixedSafe(p, 0);
    } else if i >= |p| || p[i].kind == Exit {
    } else if p[i + 1].kind == Exit {
    } else {
      var q, j := PeepholeFixedStep(p, i);
      PeepholeFixedSafe(q, j + 1);
    }
  }

  /** One round of the corrected fuser's loop, on a program that ends in its only `Exit`. */
  lemma PeepholeFixedStep(p: seq<Token>, i: int) returns (q: seq<Token>, j: int)
    requires ExitLast(p) && 0 <= i < |p| && p[i].kind != Exit && p[i + 1].kind != Exit
    ensures (q, j) == FuseAllFixed(p, i)
    ensures ExitLast(q) && j + 1 <= |q| <= |p| && 3 * |q| - j < 3 * |p| - i + 3
    ensures PeepholeFixedFrom(p, i) == PeepholeFixedFrom(q, j + 1)
  {
    q, j := FuseAllFixed(p, i).0, FuseAllFixed(p, i).1;
    FuseAllFixedExitLast(p, i);
    PeepholeFixedUnfold(p, i);
  }

  /** The corrected fuser goes on from where one round of rewrites leaves it. */
  lemma PeepholeFixedUnfold(p: seq<Token>, i: int)
    requires 0 <= i && i + 1 < |p| && p[i].kind != Exit && p[i + 1].kind != Exit
    ensures FuseAllFixed(p, i).1 + 1 <= |FuseAllFixed(p, i).0|
    ensures PeepholeFixedFrom(p, i) == PeepholeFixedFrom(FuseAllFixed(p, i).0, FuseAllFixed(p, i).1 + 1)
  {
  }

  /** The rewrites never create or remove the closing `Exit`. */
  lemma FuseAllFixedExitLast(p: seq<Token>, i: int)
    requires ExitLast(p)
    ensures ExitLast(FuseAllFixed(p, i).0)
  {
    var (p1, i1) := FuseVarFixed(p, i);
    if i1 != i {
      ExitLastStep(p, i, p[i].(kind := VarFusion(p[i + 1].kind)));
    }
    var (p2, i2) := FuseFor(p1, i1);
    FuseForExitLast(p1, i1);
    var (p3, i3) := FuseForFull(p2, i2);
    FuseForFullExitLast(p2, i2);
    FuseCmpExitLast(p3, i3);
  }

  lemma FuseForExitLast(p: seq<Token>, i: int)
    requires ExitLast(p)
    ensures ExitLast(FuseFor(p, i).0)
  {
    if FuseFor(p, i).1 != i {
      ExitLastStep(p, i, p[i].(kind := ForLoopLabel));
    }
  }

  lemma FuseForFullExitLast(p: seq<Token>, i: int)
    requires ExitLast(p)
    ensures ExitLast(FuseForFull(p, i).0)
  {
    if FuseForFull(p, i).1 != i {
      ExitLastFull(p, i);
    }
  }

  lemma FuseCmpExitLast(p: seq<Token>, i: int)
    requires ExitLast(p)
    ensures ExitLast(FuseCmp(p, i).0)
  {
    if FuseCmp(p, i).1 != i {
      ExitLastStep(p, i, Token(IfGotoLabelCmp(p[i].kind.op.c), p[i + 1].n, p[i].x1, p[i].x2));
    }
  }

  /** A pair rewrite at a valid index keeps `ExitLast`. */
  lemma ExitLastStep(p: seq<Token>, i: int, t: Token)
    requires ExitLast(p) && StillValid(p, i) && t.kind != Exit
    ensures ExitLast(Erase(p, i + 1)[i := t])
  {
    var q := Erase(p, i + 1)[i := t];
    assert q[|q| - 1] == p[|p| - 1];
    forall k | 0 <= k < |q| - 1
      ensures q[k].kind != Exit
    {
      if k < i {
        assert q[k] == p[k];
      } else if k > i {
        assert q[k] == p[k + 1];
      }
    }
  }

  lemma ExitLastFull(p: seq<Token>, i: int)
    requires ExitLast(p)
    requires StillValid(p, i) && i + 2 < |p| && p[i + 2].kind != Exit
    ensures ExitLast(p[..i] + [Token(ForLoopFull, p[i + 2].n, p[i].n, p[i + 1].n)] + p[i + 3..])
  {
    var q := p[..i] + [Token(ForLoopFull, p[i + 2].n, p[i].n, p[i + 1].n)] + p[i + 3..];
    assert q[|q| - 1] == p[|p| - 1];
    forall k | 0 <= k < |q| - 1
      ensures q[k].kind != Exit
    {
      if k < i {
        assert q[k] == p[k];
      } else if k > i {
        assert q[k] == p[k + 2];
      }
    }
  }

  /** No `Goto` or `IfGoto` token: the two pair rewrites then coincide. */
  predicate NoJumps(p: seq<Token>) {
    forall k :: 0 <= k < |p| ==> p[k].kind != Goto && p[k].kind != IfGoto
  }

  /** A pair rewrite to a token other than a jump keeps `NoJumps`. */
  lemma NoJumpsStep(p: seq<Token>, i: int, t: Token)
    requires NoJumps(p) && StillValid(p, i) && t.kind != Goto && t.kind != IfGoto
    ensures NoJumps(Erase(p, i + 1)[i := t])
  {
    var q := Erase(p, i + 1)[i := t];
    forall k | 0 <= k < |q|
      ensures q[k].kind != Goto && q[k].kind != IfGoto
    {
      if k < i {
        assert q[k] == p[k];
      } else if k > i {
        assert q[k] == p[k + 1];
      }
    }
  }

  lemma NoJumpsFull(p: seq<Token>, i: int)
    requires NoJumps(p) && StillValid(p, i) && i + 2 < |p|
    ensures NoJumps(p[..i] + [Token(ForLoopFull, p[i + 2].n, p[i].n, p[i + 1].n)] + p[i + 3..])
  {
    var q := p[..i] + [Token(ForLoopFull, p[i + 2].n, p[i].n, p[i + 1].n)] + p[i + 3..];
    forall k | 0 <= k < |q|
      ensures q[k].kind != Goto && q[k].kind != IfGoto
    {
      if k < i {
        assert q[k] == p[k];
      } else if k > i {
        assert q[k] == p[k + 2];
      }
    }
  }

  /** Without jumps, the corrected pair rewrite is the one as written, and leaves no jump behind. */
  lemma FuseVarAgrees(p: seq<Token>, i: int)
    requires NoJumps(p)
    ensures FuseVarFixed(p, i) == FuseVar(p, i) && NoJumps(FuseVar(p, i).0)
  {
    if StillValid(p, i) {
      assert p[i + 1].kind != Goto && p[i + 1].kind != IfGoto;
      if FuseVar(p, i).1 != i {
        NoJumpsStep(p, i, p[i].(kind := AssignVar));
      }
    }
  }

  lemma FuseForNoJumps(p: seq<Token>, i: int)
    requires NoJumps(p)
    ensures NoJumps(FuseFor(p, i).0)
  {
    if FuseFor(p, i).1 != i {
      NoJumpsStep(p, i, p[i].(kind := ForLoopLabel));
    }
  }

  lemma FuseForFullNoJumps(p: seq<Token>, i: int)
    requires NoJumps(p)
    ensures NoJumps(FuseForFull(p, i).0)
  {
    if FuseForFull(p, i).1 != i {
      NoJumpsFull(p, i);
    }
  }

  lemma FuseCmpNoJumps(p: seq<Token>, i: int)
    requires NoJumps(p)
    ensures NoJumps(FuseCmp(p, i).0)
  {
    if FuseCmp(p, i).1 != i {
      NoJumpsStep(p, i, Token(IfGotoLabelCmp(p[i].kind.op.c), p[i + 1].n, p[i].x1, p[i].x2));
    }
  }

  /** Without jumps, one round of the corrected rewrites is one round of the rewrites as written, and stays without jumps. */
  lemma FuseAllAgrees(p: seq<Token>, i: int)
    requires NoJumps(p)
    ensures FuseAllFixed(p, i) == FuseAll(p, i) && NoJumps(FuseAll(p, i).0)
  {
    FuseVarAgrees(p, i);
    var (p1, i1) := FuseVar(p, i);
    FuseForNoJumps(p1, i1);
    var (p2, i2) := FuseFor(p1, i1);
    FuseForFullNoJumps(p2, i2);
    var (p3, i3) := FuseForFull(p2, i2);
    FuseCmpNoJumps(p3, i3);
  }

  /**
    On a program without `Goto` or `IfGoto`, wherever the fuser as written
    finishes, the corrected one gives the same program.
   */
  lemma {:induction false} PeepholeFixedAgrees(p: seq<Token>, i: int)
    requires i <= |p| && NoJumps(p) && PeepholeFrom(p, i).Ok?
    ensures PeepholeFixedFrom(p, i) == PeepholeFrom(p, i)
    decreases 3 * |p| - i + 3
  {
    if 0 <= i && i + 1 < |p| && p[i].kind != Exit && p[i + 1].kind != Exit {
      FuseAllAgrees(p, i);
      var (q, j) := FuseAll(p, i);
      PeepholeFixedAgrees(q, j + 1);
    }
  }

  /**
    A program that starts `:a inc_goto_until` fuses to `ForLoopLabel` at
    index 0 and steps the index to -2; the next loop test reads
    `program[SIZE_MAX]`. The corrected fuser restarts at 0.
   */
  lemma PeepholeWrapsAtStart()
    ensures Peephole([Make(LabelLookup, 0), Make(ForLoop, 0), Make(Exit, 0)]).Err?
    ensures PeepholeFixed([Make(LabelLookup, 0), Make(ForLoop, 0), Make(Exit, 0)]) == Ok([Make(ForLoopLabel, 0), Make(Exit, 0)])
  {
    var p := [Make(LabelLookup, 0), Make(ForLoop, 0), Make(Exit, 0)];
    var q := [Make(ForLoopLabel, 0), Make(Exit, 0)];
    WrapFusions();
    hide FuseAll, FuseAllFixed;
    assert PeepholeFrom(p, 0) == PeepholeFrom(q, -1);
    assert PeepholeFrom(q, -1).Err?;
    assert PeepholeFixedFrom(p, 0) == PeepholeFixedFrom(q, -1) == PeepholeFixedFrom(q, 0);
    assert PeepholeFixedFrom(q, 0) == Ok(q);
  }

  /** Both fusers turn `:a inc_goto_until` at index 0 into `ForLoopLabel` and step back to -2. */
  lemma WrapFusions()
    ensures FuseAll([Make(LabelLookup, 0), Make(ForLoop, 0), Make(Exit, 0)], 0) == ([Make(ForLoopLabel, 0), Make(Exit, 0)], -2)
    ensures FuseAllFixed([Make(LabelLookup, 0), Make(ForLoop, 0), Make(Exit, 0)], 0) == ([Make(ForLoopLabel, 0), Make(Exit, 0)], -2)
  {
    var p := [Make(LabelLookup, 0), Make(ForLoop, 0), Make(Exit, 0)];
    var q := [Make(ForLoopLabel, 0), Make(Exit, 0)];
    WrapFor();
    hide FuseFor;
    assert FuseVar(p, 0) == (p, 0);
    assert FuseVarFixed(p, 0) == (p, 0);
    assert FuseForFull(q, -2) == (q, -2);
    assert FuseCmp(q, -2) == (q, -2);
  }

  /** The loop fusion at the head of `:a inc_goto_until; Exit`. */
  lemma WrapFor()
    ensures FuseFor([Make(LabelLookup, 0), Make(ForLoop, 0), Make(Exit, 0)], 0) == ([Make(ForLoopLabel, 0), Make(Exit, 0)], -2)
  {
    var p := [Make(LabelLookup, 0), Make(ForLoop, 0), Make(Exit, 0)];
    var q := [Make(ForLoopLabel, 0), Make(Exit, 0)];
    var e := Erase(p[0 := Make(ForLoopLabel, 0)], 1);
    assert e[..1] == [Make(ForLoopLabel, 0)] && e[1..] == [Make(Exit, 0)];
    assert e == e[..1] + e[1..] == q;
  }

  /**
    `$x goto` fuses to `GotoLabel` carrying the variable's id in the field
    that label resolution reads as a label id.
   */
  lemma GotoFusionKeepsVarId(x: nat)
    ensures Peephole([Make(LocalVarLookup, x), Make(Goto, 0), Make(Exit, 0)]) == Ok([Make(GotoLabel, x), Make(Exit, 0)])
  {
    var p := [Make(LocalVarLookup, x), Make(Goto, 0), Make(Exit, 0)];
    var q := [Make(GotoLabel, x), Make(Exit, 0)];
    GotoFusesErase(x);
    assert VarFusion(Goto) == GotoLabel;
    assert FuseVar(p, 0) == (q, -1);
    assert !StillValid(q, -1);
    assert FuseAll(p, 0) == (q, -1);
    hide FuseAll, FuseVar;
    assert q[1].kind == Exit;
    assert PeepholeFrom(q, 0) == Ok(q);
    assert PeepholeFrom(p, 0) == PeepholeFrom(q, 0);
  }

  /** Writing `GotoLabel n` over the head of a `lookup; goto; exit` triple and erasing the `goto`. */
  lemma GotoFusesErase(n: nat)
    ensures Erase([Make(LabelLookup, n), Make(Goto, 0), Make(Exit, 0)][0 := Make(GotoLabel, n)], 1)
            == [Make(GotoLabel, n), Make(Exit, 0)]
    ensures Erase([Make(LocalVarLookup, n), Make(Goto, 0), Make(Exit, 0)][0 := Make(GotoLabel, n)], 1)
            == [Make(GotoLabel, n), Make(Exit, 0)]
  {
    var e := Erase([Make(LabelLookup, n), Make(Goto, 0), Make(Exit, 0)][0 := Make(GotoLabel, n)], 1);
    assert e[..1] == [Make(GotoLabel, n)] && e[1..] == [Make(Exit, 0)];
    assert e == e[..1] + e[1..];
    var e' := Erase([Make(LocalVarLookup, n), Make(Goto, 0), Make(Exit, 0)][0 := Make(GotoLabel, n)], 1);
    assert e'[..1] == [Make(GotoLabel, n)] && e'[1..] == [Make(Exit, 0)];
    assert e' == e'[..1] + e'[1..];
  }

  /**
    The corrected fuser leaves `$x goto` alone, so it still throws when
    run, and fuses `:t goto` into `GotoLabel t`.
   */
  lemma GotoFusionFixed(x: nat, t: nat)
    ensures PeepholeFixed([Make(LocalVarLookup, x), Make(Goto, 0), Make(Exit, 0)])
         == Ok([Make(LocalVarLookup, x), Make(Goto, 0), Make(Exit, 0)])
    ensures PeepholeFixed([Make(LabelLookup, t), Make(Goto, 0), Make(Exit, 0)]) == Ok([Make(GotoLabel, t), Make(Exit, 0)])
  {
    FixedKeepsVarGoto(x);
    FixedFusesLabelGoto(t);
  }

  lemma FixedKeepsVarGoto(x: nat)
    ensures PeepholeFixed([Make(LocalVarLookup, x), Make(Goto, 0), Make(Exit, 0)])
         == Ok([Make(LocalVarLookup, x), Make(Goto, 0), Make(Exit, 0)])
  {
    var p := [Make(LocalVarLookup, x), Make(Goto, 0), Make(Exit, 0)];
    assert FuseAllFixed(p, 0) == (p, 0);
    hide FuseAllFixed;
    assert PeepholeFixedFrom(p, 1) == Ok(p);
  }

  lemma FixedFusesLabelGoto(t: nat)
    ensures PeepholeFixed([Make(LabelLookup, t), Make(Goto, 0), Make(Exit, 0)]) == Ok([Make(GotoLabel, t), Make(Exit, 0)])
  {
    var l := [Make(LabelLookup, t), Make(Goto, 0), Make(Exit, 0)];
    var q := [Make(GotoLabel, t), Make(Exit, 0)];
    GotoFusesErase(t);
    assert FuseVarFixed(l, 0) == (q, -1);
    assert !StillValid(q, -1);
    assert FuseAllFixed(l, 0) == (q, -1);
    hide FuseAllFixed, FuseVarFixed;
    assert PeepholeFixedFrom(q, 0) == Ok(q);
  }

  // ----- function registration -----

  /** `Func { loc, len, name }`: the body starts at `loc`, and `loc - 1 + len` is its `FuncEnd`. */
  datatype Func = Func(loc: nat, len: nat, name: nat)

  /** Every label id unset. */
  function NoLabels(count: nat): (r: seq<Option<nat>>)
    ensures |r| == count && forall m :: 0 <= m < count ==> r[m] == None
  {
    seq(count, _ => None)
  }

  /** The tokens of `s` that are not `LabelDec`, in order. */
  function DropLabelDecs(s: seq<Token>): (r: seq<Token>)
    ensures |r| <= |s|
    ensures forall k :: 0 <= k < |r| ==> r[k].kind != LabelDec
    decreases |s|
  {
    if |s| == 0 then []
    else (if s[0].kind == LabelDec then [] else [s[0]]) + DropLabelDecs(s[1..])
  }

  /**
    The first loop over a body: from `j` up to the next `FuncEnd`, each
    `LabelDec m` records its own index as label `m` and is erased, so the
    label names the token that then follows it. Running off the end of the
    program is undefined behaviour. Also returns where the loop stopped.
   */
  function CollectLabels(p: seq<Token>, j: nat, labels: seq<Option<nat>>): (r: Result<(seq<Token>, seq<Option<nat>>, nat), Fault>)
    ensures r.Ok? ==> |r.value.0| <= |p| && |r.value.1| == |labels|
    ensures r.Ok? ==> j <= r.value.2 < |r.value.0| && r.value.0[r.value.2].kind == FuncEnd && r.value.0[..j] == p[..j]
    decreases |p| - j
  {
    if j >= |p| then Err(Undefined(SecondTokenPastEnd))
    else if p[j].kind == FuncEnd then Ok((p, labels, j))
    else if p[j].kind == LabelDec then
      if p[j].n >= |labels| then Err(Undefined(LabelsIndex))
      else CollectLabels(Erase(p, j), j, labels[p[j].n := Some(j)])
    else CollectLabels(p, j + 1, labels)
  }

  /** `e` is the first `FuncEnd` at or after `j`. */
  predicate FirstEnd(p: seq<Token>, j: nat, e: nat) {
    j <= e < |p| && p[e].kind == FuncEnd && forall k :: j <= k < e ==> p[k].kind != FuncEnd
  }

  /**
    What the body loop promises when it returns `(q, ls, e)`: it erases
    exactly the `LabelDec`s before the first `FuncEnd` and nothing else;
    every label it records points, in `q`, at a token of the body or at its
    `FuncEnd`, never at a `LabelDec`; and every label declared in the body
    is recorded.
   */
  predicate CollectPost(p: seq<Token>, j: nat, labels: seq<Option<nat>>, q: seq<Token>, ls: seq<Option<nat>>, e: nat) {
    |ls| == |labels| && j <= e < |q| <= |p|
    && var e0 := e + (|p| - |q|);
    && FirstEnd(p, j, e0) && FirstEnd(q, j, e)
    && q == p[..j] + DropLabelDecs(p[j..e0]) + p[e0..]
    && (forall k :: j <= k <= e ==> q[k].kind != LabelDec)
    && (forall m :: 0 <= m < |labels| && ls[m] != labels[m] ==> ls[m].Some? && j <= ls[m].value <= e)
    && (forall k :: j <= k < e0 && p[k].kind == LabelDec ==> p[k].n < |labels| && ls[p[k].n].Some?)
  }

  lemma {:induction false} CollectLabelsFaithful(p: seq<Token>, j: nat, labels: seq<Option<nat>>)
    requires CollectLabels(p, j, labels).Ok?
    ensures var (q, ls, e) := CollectLabels(p, j, labels).value; CollectPost(p, j, labels, q, ls, e)
    decreases |p| - j
  {
    var (q, ls, e) := CollectLabels(p, j, labels).value;
    if p[j].kind == FuncEnd {
      CollectEndCase(p, j, labels);
    } else if p[j].kind == LabelDec {
      var labels1 := labels[p[j].n := Some(j)];
      assert CollectLabels(p, j, labels) == CollectLabels(Erase(p, j), j, labels1);
      CollectLabelsFaithful(Erase(p, j), j, labels1);
      CollectDropCase(p, j, labels, q, ls, e);
    } else {
      CollectLabelsFaithful(p, j + 1, labels);
      CollectKeepCase(p, j, labels, q, ls, e);
    }
  }

  lemma CollectEndCase(p: seq<Token>, j: nat, labels: seq<Option<nat>>)
    requires j < |p| && p[j].kind == FuncEnd
    ensures CollectPost(p, j, labels, p, labels, j)
  {
    assert p[j..j] == [];
    assert p == p[..j] + p[j..];
  }

  lemma CollectDropCase(p: seq<Token>, j: nat, labels: seq<Option<nat>>, q: seq<Token>, ls: seq<Option<nat>>, e: nat)
    requires j < |p| && p[j].kind == LabelDec && p[j].n < |labels|
    requires CollectPost(Erase(p, j), j, labels[p[j].n := Some(j)], q, ls, e)
    ensures CollectPost(p, j, labels, q, ls, e)
  {
    var p1 := Erase(p, j);
    var e0 := e + (|p| - |q|);
    assert e + (|p1| - |q|) == e0 - 1;
    forall k | j < k <= e0
      ensures p[k] == p1[k - 1]
    {
    }
    CollectLabelStep(p, j, e0);
    forall k | j <= k < e0 && p[k].kind == LabelDec
      ensures p[k].n < |labels| && ls[p[k].n].Some?
    {
      if k > j {
        assert p1[k - 1].kind == LabelDec;
      }
    }
  }

  lemma CollectKeepCase(p: seq<Token>, j: nat, labels: seq<Option<nat>>, q: seq<Token>, ls: seq<Option<nat>>, e: nat)
    requires j < |p| && p[j].kind != LabelDec && p[j].kind != FuncEnd
    requires CollectPost(p, j + 1, labels, q, ls, e)
    ensures CollectPost(p, j, labels, q, ls, e)
  {
    var e0 := e + (|p| - |q|);
    CollectKeepStep(p, j, e0);
    assert q[j] == p[j];
  }

  lemma CollectLabelStep(p: seq<Token>, j: nat, e0: nat)
    requires j < e0 <= |p| && p[j].kind == LabelDec
    ensures Erase(p, j)[..j] == p[..j]
    ensures Erase(p, j)[j..e0 - 1] == p[j + 1..e0] && Erase(p, j)[e0 - 1..] == p[e0..]
    ensures DropLabelDecs(p[j..e0]) == DropLabelDecs(p[j + 1..e0])
  {
    assert p[j..e0][1..] == p[j + 1..e0];
  }

  lemma CollectKeepStep(p: seq<Token>, j: nat, e0: nat)
    requires j < e0 <= |p| && p[j].kind != LabelDec
    ensures p[..j + 1] + DropLabelDecs(p[j + 1..e0]) == p[..j] + DropLabelDecs(p[j..e0])
  {
    assert p[j..e0][1..] == p[j + 1..e0];
    assert p[..j + 1] == p[..j] + [p[j]];
  }

  /**
    The second loop over a body: every label use up to the next `FuncEnd`
    gets the recorded location, or the "Unknown label usage" exception.
    Returns the program and the index of that `FuncEnd`.
   */
  function ResolveLocal(p: seq<Token>, j: nat, labels: seq<Option<nat>>): (r: Result<(seq<Token>, nat), Fault>)
    ensures r.Ok? ==> |r.value.0| == |p| && j <= r.value.1 < |p| && r.value.0[r.value.1].kind == FuncEnd
    ensures r.Ok? ==> r.value.0[..j] == p[..j]
    decreases |p| - j
  {
    if j >= |p| then Err(Undefined(SecondTokenPastEnd))
    else if p[j].kind == FuncEnd then Ok((p, j))
    else if UsesLabel(p[j].kind) then
      if p[j].n >= |labels| then Err(Undefined(LabelsIndex))
      else match labels[p[j].n]
        case None => Err(Thrown(UnknownLabelUsage))
        case Some(loc) => ResolveLocal(p[j := p[j].(n := loc)], j + 1, labels)
    else ResolveLocal(p, j + 1, labels)
  }

  /** `q` is `p` with the label fields in `[j, e)` mapped through `labels`. */
  predicate ResolvedBetween(p: seq<Token>, q: seq<Token>, j: nat, e: nat, labels: seq<Option<nat>>)
    requires |q| == |p| && j <= e <= |p|
  {
    forall k :: j <= k < e ==>
      q[k].kind == p[k].kind && q[k].x1 == p[k].x1 && q[k].x2 == p[k].x2
      && (UsesLabel(p[k].kind) ==> p[k].n < |labels| && labels[p[k].n] == Some(q[k].n))
      && (!UsesLabel(p[k].kind) ==> q[k].n == p[k].n)
  }

  /** The resolving loop stops at the first `FuncEnd` and rewrites only label fields before it. */
  lemma {:induction false} ResolveLocalFaithful(p: seq<Token>, j: nat, labels: seq<Option<nat>>)
    requires ResolveLocal(p, j, labels).Ok?
    ensures var (q, e) := ResolveLocal(p, j, labels).value;
      FirstEnd(p, j, e) && q[e..] == p[e..] && ResolvedBetween(p, q, j, e, labels)
    decreases |p| - j
  {
    var (q, e) := ResolveLocal(p, j, labels).value;
    if p[j].kind == FuncEnd {
    } else if UsesLabel(p[j].kind) {
      var t := p[j].(n := labels[p[j].n].value);
      assert ResolveLocal(p, j, labels) == ResolveLocal(p[j := t], j + 1, labels);
      ResolveLocalFaithful(p[j := t], j + 1, labels);
      ResolveStep(p, j, labels, t, q, e);
    } else {
      ResolveLocalFaithful(p, j + 1, labels);
      ResolveStep(p, j, labels, p[j], q, e);
    }
  }

  /** One step of `ResolveLocalFaithful`: the token at `j` became `t`. */
  lemma ResolveStep(p: seq<Token>, j: nat, labels: seq<Option<nat>>, t: Token, q: seq<Token>, e: nat)
    requires j < |p| && p[j].kind != FuncEnd && t.kind == p[j].kind && t.x1 == p[j].x1 && t.x2 == p[j].x2
    requires UsesLabel(p[j].kind) ==> p[j].n < |labels| && labels[p[j].n] == Some(t.n)
    requires !UsesLabel(p[j].kind) ==> t == p[j]
    requires |q| == |p| && FirstEnd(p[j := t], j + 1, e) && q[e..] == p[j := t][e..]
    requires ResolvedBetween(p[j := t], q, j + 1, e, labels)
    requires q[..j + 1] == p[j := t][..j + 1]
    ensures FirstEnd(p, j, e) && q[e..] == p[e..] && ResolvedBetween(p, q, j, e, labels)
  {
    var p1 := p[j := t];
    assert q[j] == t;
    assert p1[e..] == p[e..];
    forall k | j < k < e
      ensures p1[k] == p[k]
    {
    }
  }

  /** A label use before the first `FuncEnd` whose label the body never declared throws. */
  lemma {:induction false} ResolveLocalUnknown(p: seq<Token>, j: nat, labels: seq<Option<nat>>, k: nat)
    requires j <= k < |p| && UsesLabel(p[k].kind) && p[k].n < |labels| && labels[p[k].n].None?
    requires forall m :: j <= m <= k ==> p[m].kind != FuncEnd
    ensures ResolveLocal(p, j, labels).Err?
    decreases |p| - j
  {
    if j < k {
      if UsesLabel(p[j].kind) && p[j].n < |labels| && labels[p[j].n].Some? {
        var p1 := p[j := p[j].(n := labels[p[j].n].value)];
        assert p1[k] == p[k];
        assert forall m :: j + 1 <= m <= k ==> p1[m] == p[m];
        ResolveLocalUnknown(p1, j + 1, labels, k);
      } else if !UsesLabel(p[j].kind) {
        ResolveLocalUnknown(p, j + 1, labels, k);
      }
    }
  }

  /** Registering the definition at `i`: the two body loops, then `funcs[n]`. */
  function RegisterOne(p: seq<Token>, funcs: seq<Func>, labelCount: nat, i: nat): (r: Result<(seq<Token>, seq<Func>), Fault>)
    requires i < |p| && p[i].kind == FuncDec
    ensures r.Ok? ==> i < |r.value.0| <= |p| && |r.value.1| == |funcs|
    ensures r.Ok? ==> r.value.0[..i + 1] == p[..i + 1]
    ensures r.Ok? ==> p[i].n < |funcs| && 0 < r.value.1[p[i].n].len && i + r.value.1[p[i].n].len < |r.value.0|
  {
    var n := p[i].n;
    if n >= |funcs| then Err(Undefined(FuncsIndex))
    else if funcs[n].name != 0 then Err(Thrown(RedefinedFunction))
    else
      var (q, labels, _) :- CollectLabels(p, i + 1, NoLabels(labelCount));
      var (q2, e) :- ResolveLocal(q, i + 1, labels);
      Ok((q2, funcs[n := Func(i + 1, e - i, n)]))
  }

  /** Registering a definition whose `funcs` entry is already taken throws. */
  lemma RegisterRedefined(p: seq<Token>, funcs: seq<Func>, labelCount: nat, i: nat)
    requires i < |p| && p[i].kind == FuncDec && p[i].n < |funcs| && funcs[p[i].n].name != 0
    ensures RegisterOne(p, funcs, labelCount, i) == Err(Thrown(RedefinedFunction))
  {
  }

  /**
    After registering the definition `n` at `i`: the entry was free before;
    `funcs[n]` is `{i + 1, e - i, n}` for the first `FuncEnd` `e` after
    `i`; the body holds no `LabelDec`; every other entry is unchanged.
   */
  predicate RegisterPost(p: seq<Token>, funcs: seq<Func>, i: nat, q: seq<Token>, fs: seq<Func>)
    requires i < |p| && p[i].n < |funcs|
  {
    var n := p[i].n;
    && |fs| == |funcs| && i < |q| && funcs[n].name == 0 && q[i] == p[i]
    && fs[n].loc == i + 1 && fs[n].name == n && FirstEnd(q, i + 1, i + fs[n].len)
    && (forall k :: i < k < i + fs[n].len ==> q[k].kind != LabelDec)
    && (forall m :: 0 <= m < |funcs| && m != n ==> fs[m] == funcs[m])
  }

  lemma RegisterOneShape(p: seq<Token>, funcs: seq<Func>, labelCount: nat, i: nat)
    requires i < |p| && p[i].kind == FuncDec && RegisterOne(p, funcs, labelCount, i).Ok?
    ensures p[i].n < |funcs|
    ensures RegisterPost(p, funcs, i, RegisterOne(p, funcs, labelCount, i).value.0, RegisterOne(p, funcs, labelCount, i).value.1)
  {
    var n := p[i].n;
    var r1 := CollectLabels(p, i + 1, NoLabels(labelCount)).value;
    CollectLabelsFaithful(p, i + 1, NoLabels(labelCount));
    var r2 := ResolveLocal(r1.0, i + 1, r1.1).value;
    ResolveLocalFaithful(r1.0, i + 1, r1.1);
    RegisterCompose(p, funcs, i, r1.0, r1.1, r1.2, r2.0, r2.1);
  }

  lemma RegisterCompose(p: seq<Token>, funcs: seq<Func>, i: nat, q: seq<Token>, ls: seq<Option<nat>>, e1: nat, q2: seq<Token>, e: nat)
    requires i < |p| && p[i].n < |funcs| && funcs[p[i].n].name == 0
    requires CollectPost(p, i + 1, NoLabels(|ls|), q, ls, e1)
    requires |q2| == |q| && FirstEnd(q, i + 1, e) && q2[e..] == q[e..] && ResolvedBetween(q, q2, i + 1, e, ls)
    requires q2[..i + 1] == q[..i + 1]
    ensures RegisterPost(p, funcs, i, q2, funcs[p[i].n := Func(i + 1, e - i, p[i].n)])
  {
    assert q[..i + 1] == p[..i + 1];
    assert q2[i] == q[i] == p[i];
  }

  /**
    The registration loop from `i` to `Exit`. It visits every index,
    function bodies included.
   */
  function Register(p: seq<Token>, funcs: seq<Func>, labelCount: nat, i: nat): (r: Result<(seq<Token>, seq<Func>), Fault>)
    ensures r.Ok? ==> |r.value.1| == |funcs|
    decreases |p| - i
  {
    if i >= |p| || p[i].kind == Exit then Ok((p, funcs))
    else if p[i].kind != FuncDec then Register(p, funcs, labelCount, i + 1)
    else
      var (q, fs) :- RegisterOne(p, funcs, labelCount, i);
      Register(q, fs, labelCount, i + 1)
  }

  // ----- root-level labels -----

  /**
    Where the root passes look after index `i`: a `FuncDec` jumps ahead by
    its function's `len`, to its `FuncEnd` when the entry is still
    accurate. Reading past the end is undefined behaviour.
   */
  function SkipDef(p: seq<Token>, funcs: seq<Func>, i: nat): (r: Result<nat, Fault>)
    requires i < |p|
    ensures r.Ok? ==> i <= r.value < |p|
    ensures r.Ok? && p[i].kind != FuncDec ==> r.value == i
  {
    if p[i].kind != FuncDec then Ok(i)
    else if p[i].n >= |funcs| then Err(Undefined(FuncsIndex))
    else if i + funcs[p[i].n].len >= |p| then Err(Undefined(TokenPastEnd))
    else Ok(i + funcs[p[i].n].len)
  }

  /**
    The first root pass: outside function bodies, each `LabelDec m`
    records its own index as root label `m` and is erased. Erasing shifts
    every later token, function bodies included.
   */
  function RootCollect(p: seq<Token>, funcs: seq<Func>, labels: seq<Option<nat>>, i: nat): (r: Result<(seq<Token>, seq<Option<nat>>), Fault>)
    ensures r.Ok? ==> |r.value.0| <= |p| && |r.value.1| == |labels|
    decreases |p| - i
  {
    if i >= |p| || p[i].kind == Exit then Ok((p, labels))
    else
      var j :- SkipDef(p, funcs, i);
      if p[j].kind == LabelDec then
        if p[j].n >= |labels| then Err(Undefined(RootLabelsIndex))
        else RootCollect(Erase(p, j), funcs, labels[p[j].n := Some(j)], j)
      else RootCollect(p, funcs, labels, j + 1)
  }

  /** The second root pass: every label use outside function bodies gets its root label, or throws. */
  function RootResolve(p: seq<Token>, funcs: seq<Func>, labels: seq<Option<nat>>, i: nat): (r: Result<seq<Token>, Fault>)
    ensures r.Ok? ==> |r.value| == |p|
    decreases |p| - i
  {
    if i >= |p| || p[i].kind == Exit then Ok(p)
    else
      var j :- SkipDef(p, funcs, i);
      if UsesLabel(p[j].kind) then
        if p[j].n >= |labels| then Err(Undefined(RootLabelsIndex))
        else match labels[p[j].n]
          case None => Err(Thrown(UnknownLabelUsage))
          case Some(loc) => RootResolve(p[j := p[j].(n := loc)], funcs, labels, j + 1)
      else RootResolve(p, funcs, labels, j + 1)
  }

  /** The root resolving pass rewrites label fields only: lengths and kinds stay. */
  lemma {:induction false} RootResolveKinds(p: seq<Token>, funcs: seq<Func>, labels: seq<Option<nat>>, i: nat)
    requires RootResolve(p, funcs, labels, i).Ok?
    ensures var q := RootResolve(p, funcs, labels, i).value;
            forall k :: 0 <= k < |p| ==> q[k].kind == p[k].kind && (!UsesLabel(p[k].kind) ==> q[k] == p[k])
    decreases |p| - i
  {
    if i < |p| && p[i].kind != Exit {
      var j := RootResolveStep(p, funcs, labels, i);
      hide RootResolve, SkipDef;
      if UsesLabel(p[j].kind) {
        var p1 := p[j := p[j].(n := labels[p[j].n].value)];
        RootResolveKinds(p1, funcs, labels, j + 1);
        var q := RootResolve(p1, funcs, labels, j + 1).value;
        forall k | 0 <= k < |p|
          ensures q[k].kind == p[k].kind && (!UsesLabel(p[k].kind) ==> q[k] == p[k])
        {
          assert q[k].kind == p1[k].kind && (!UsesLabel(p1[k].kind) ==> q[k] == p1[k]);
        }
      } else {
        RootResolveKinds(p, funcs, labels, j + 1);
      }
    }
  }

  /** One step of the root resolving pass past the definitions at `i`. */
  lemma RootResolveStep(p: seq<Token>, funcs: seq<Func>, labels: seq<Option<nat>>, i: nat) returns (j: nat)
    requires RootResolve(p, funcs, labels, i).Ok? && i < |p| && p[i].kind != Exit
    ensures SkipDef(p, funcs, i) == Ok(j) && i <= j < |p|
    ensures UsesLabel(p[j].kind) ==> p[j].n < |labels| && labels[p[j].n].Some?
    ensures UsesLabel(p[j].kind) ==>
      RootResolve(p, funcs, labels, i) == RootResolve(p[j := p[j].(n := labels[p[j].n].value)], funcs, labels, j + 1)
    ensures !UsesLabel(p[j].kind) ==> RootResolve(p, funcs, labels, i) == RootResolve(p, funcs, labels, j + 1)
  {
    j := SkipDef(p, funcs, i).value;
  }

  /** A compiled program with its function table. */
  datatype Linked = Linked(program: seq<Token>, funcs: seq<Func>)

  /**
    flinch.cpp:648-724: register every definition, then the two root
    passes. `funcCount` and `labelCount` are the sizes of the function name
    and label tables.
   */
  function Link(p: seq<Token>, funcCount: nat, labelCount: nat): (r: Result<Linked, Fault>)
    ensures r.Ok? ==> |r.value.funcs| == funcCount && |r.value.program| <= |p|
  {
    var (q, fs) :- Register(p, seq(funcCount, _ => Func(0, 0, 0)), labelCount, 0);
    RegisterShrinks(p, seq(funcCount, _ => Func(0, 0, 0)), labelCount, 0);
    var (q2, ls) :- RootCollect(q, fs, NoLabels(labelCount), 0);
    var q3 :- RootResolve(q2, fs, ls, 0);
    Ok(Linked(q3, fs))
  }

  lemma {:induction false} RegisterShrinks(p: seq<Token>, funcs: seq<Func>, labelCount: nat, i: nat)
    requires Register(p, funcs, labelCount, i).Ok?
    ensures |Register(p, funcs, labelCount, i).value.0| <= |p|
    decreases |p| - i
  {
    if i < |p| && p[i].kind != Exit {
      if p[i].kind != FuncDec {
        RegisterShrinks(p, funcs, labelCount, i + 1);
      } else {
        var (q, fs) := RegisterOne(p, funcs, labelCount, i).value;
        RegisterShrinks(q, fs, labelCount, i + 1);
      }
    }
  }

  /** The example program of `RootLabelStalesLoc`: `a: f^ ^^`. */
  function StaleExample(): (p: seq<Token>)
    ensures |p| == 4 && p[0].kind == LabelDec && p[1].kind == FuncDec
  {
    [Make(LabelDec, 0), Make(FuncDec, 1), Make(FuncEnd, 0), Make(Exit, 0)]
  }

  lemma StaleExampleRegisters()
    ensures Register(StaleExample(), seq(2, _ => Func(0, 0, 0)), 1, 0)
         == Ok((StaleExample(), seq(2, _ => Func(0, 0, 0))[1 := Func(2, 1, 1)]))
  {
    var p := StaleExample();
    var f0 := seq(2, _ => Func(0, 0, 0));
    assert f0[1].name == 0;
    assert CollectLabels(p, 2, NoLabels(1)) == Ok((p, NoLabels(1), 2));
    assert ResolveLocal(p, 2, NoLabels(1)) == Ok((p, 2));
    var fs := f0[1 := Func(2, 1, 1)];
    assert RegisterOne(p, f0, 1, 1) == Ok((p, fs));
    assert Register(p, fs, 1, 2) == Ok((p, fs));
  }

  lemma StaleExampleCollects()
    ensures var fs := seq(2, _ => Func(0, 0, 0))[1 := Func(2, 1, 1)];
            RootCollect(StaleExample(), fs, NoLabels(1), 0)
              == Ok(([Make(FuncDec, 1), Make(FuncEnd, 0), Make(Exit, 0)], [Some(0)]))
  {
    var p := StaleExample();
    var fs := seq(2, _ => Func(0, 0, 0))[1 := Func(2, 1, 1)];
    var q := [Make(FuncDec, 1), Make(FuncEnd, 0), Make(Exit, 0)];
    assert Erase(p, 0) == q;
    assert RootCollect(q, fs, [Some(0)], 1) == Ok((q, [Some(0)]));
    assert RootCollect(q, fs, [Some(0)], 0) == Ok((q, [Some(0)]));
    assert NoLabels(1)[0 := Some(0)] == [Some(0)];
  }

  lemma StaleExampleResolves()
    ensures var fs := seq(2, _ => Func(0, 0, 0))[1 := Func(2, 1, 1)];
            var q := [Make(FuncDec, 1), Make(FuncEnd, 0), Make(Exit, 0)];
            RootResolve(q, fs, [Some(0)], 0) == Ok(q)
  {
    var fs := seq(2, _ => Func(0, 0, 0))[1 := Func(2, 1, 1)];
    var q := [Make(FuncDec, 1), Make(FuncEnd, 0), Make(Exit, 0)];
    assert RootResolve(q, fs, [Some(0)], 1) == Ok(q);
  }

  /**
    A root label before a definition goes stale: `a: f^ ^^` registers `f`
    at `{2, 1, 1}`, then erasing `a:` moves the definition down one, so
    `loc - 1` no longer holds its `FuncDec`.
   */
  lemma RootLabelStalesLoc()
    ensures var r := Link(StaleExample(), 2, 1);
      && r.Ok? && r.value.funcs[1] == Func(2, 1, 1)
      && r.value.program == [Make(FuncDec, 1), Make(FuncEnd, 0), Make(Exit, 0)]
      && r.value.program[r.value.funcs[1].loc - 1].kind != FuncDec
  {
    hide Register, RegisterOne, RootCollect, RootResolve, CollectLabels, ResolveLocal, SkipDef;
    StaleExampleRegisters();
    StaleExampleCollects();
    StaleExampleResolves();
  }

  // ----- the corrected registration loop -----

  /**
    The registration loop with root labels handled as flinch.hpp:742-796
    handles them: a definition is registered and the loop resumes after
    its `FuncEnd`; a `LabelDec` outside every body records its index as
    root label `m` and is erased right there. An erasure then happens only
    after every body registered so far, so no entry goes stale.
   */
  function RegisterFixed(p: seq<Token>, funcs: seq<Func>, roots: seq<Option<nat>>, labelCount: nat, i: nat)
    : (r: Result<(seq<Token>, seq<Func>, seq<Option<nat>>), Fault>)
    ensures r.Ok? ==> |r.value.0| <= |p| && |r.value.1| == |funcs| && |r.value.2| == |roots|
    decreases |p| - i
  {
    if i >= |p| || p[i].kind == Exit then Ok((p, funcs, roots))
    else if p[i].kind == FuncDec then
      var (q, fs) :- RegisterOne(p, funcs, labelCount, i);
      RegisterFixed(q, fs, roots, labelCount, i + fs[p[i].n].len + 1)
    else if p[i].kind == LabelDec then
      if p[i].n >= |roots| then Err(Undefined(RootLabelsIndex))
      else RegisterFixed(Erase(p, i), funcs, roots[p[i].n := Some(i)], labelCount, i)
    else RegisterFixed(p, funcs, roots, labelCount, i + 1)
  }

  /** The corrected link: the corrected registration loop, then the root resolving pass. */
  function LinkFixed(p: seq<Token>, funcCount: nat, labelCount: nat): (r: Result<Linked, Fault>)
    ensures r.Ok? ==> |r.value.funcs| == funcCount && |r.value.program| <= |p|
  {
    var (q, fs, ls) :- RegisterFixed(p, seq(funcCount, _ => Func(0, 0, 0)), NoLabels(labelCount), labelCount, 0);
    var q2 :- RootResolve(q, fs, ls, 0);
    Ok(Linked(q2, fs))
  }

  /**
    Every registered function, the entries with a nonzero `len`, lies
    before `bound` where its entry says: `FuncDec n` at `loc - 1`, a
    `FuncEnd` at `loc - 1 + len`, and no `LabelDec` between them.
   */
  predicate Placed(p: seq<Token>, funcs: seq<Func>, bound: nat) {
    && bound <= |p|
    && forall m :: 0 <= m < |funcs| && funcs[m].len != 0 ==> PlacedAt(p, m, funcs[m], bound)
  }

  /** The entry `f` of function `m` describes a body that lies before `bound`. */
  predicate PlacedAt(p: seq<Token>, m: nat, f: Func, bound: nat) {
    && 1 <= f.loc && f.loc - 1 + f.len < bound <= |p|
    && p[f.loc - 1].kind == FuncDec && p[f.loc - 1].n == m
    && p[f.loc - 1 + f.len].kind == FuncEnd
    && (forall k :: f.loc <= k < f.loc - 1 + f.len ==> p[k].kind != LabelDec)
  }

  /** `Placed` only looks below `bound`. */
  lemma PlacedPrefix(p: seq<Token>, funcs: seq<Func>, bound: nat, q: seq<Token>)
    requires Placed(p, funcs, bound) && bound <= |q| && q[..bound] == p[..bound]
    ensures Placed(q, funcs, bound)
  {
    forall k | 0 <= k < bound
      ensures q[k] == p[k]
    {
      assert q[k] == q[..bound][k];
    }
  }

  /** Registering the definition at `i` keeps every earlier body placed and places the new one. */
  lemma PlacedRegisterOne(p: seq<Token>, funcs: seq<Func>, labelCount: nat, i: nat)
    requires i < |p| && p[i].kind == FuncDec && RegisterOne(p, funcs, labelCount, i).Ok?
    requires Placed(p, funcs, i)
    ensures var r := RegisterOne(p, funcs, labelCount, i).value;
            Placed(r.0, r.1, i + r.1[p[i].n].len + 1)
  {
    RegisterOneShape(p, funcs, labelCount, i);
    var r := RegisterOne(p, funcs, labelCount, i).value;
    var q, fs := r.0, r.1;
    assert q[..i] == p[..i] by {
      assert q[..i] == q[..i + 1][..i];
    }
    PlacedPrefix(p, funcs, i, q);
    PlacedAdd(p, q, funcs, i, fs);
  }

  lemma PlacedAdd(p: seq<Token>, q: seq<Token>, funcs: seq<Func>, i: nat, fs: seq<Func>)
    requires i < |p| && p[i].kind == FuncDec && p[i].n < |funcs| && Placed(q, funcs, i)
    requires RegisterPost(p, funcs, i, q, fs)
    ensures Placed(q, fs, i + fs[p[i].n].len + 1)
  {
    var n := p[i].n;
    var b := i + fs[n].len + 1;
    forall m | 0 <= m < |fs| && fs[m].len != 0
      ensures PlacedAt(q, m, fs[m], b)
    {
      if m != n {
        assert fs[m] == funcs[m] && PlacedAt(q, m, funcs[m], i);
      }
    }
  }

  /**
    The corrected registration loop places every function where its entry
    says: a later definition or a root `LabelDec` erasure only touches
    tokens after every body registered before it.
   */
  lemma {:induction false} RegisterFixedPlaced(p: seq<Token>, funcs: seq<Func>, roots: seq<Option<nat>>, labelCount: nat, i: nat)
    requires i <= |p| && Placed(p, funcs, i)
    requires RegisterFixed(p, funcs, roots, labelCount, i).Ok?
    ensures var r := RegisterFixed(p, funcs, roots, labelCount, i).value;
            Placed(r.0, r.1, |r.0|)
    decreases |p| - i
  {
    hide RegisterFixed, RegisterOne, Placed;
    if i == |p| || p[i].kind == Exit {
      FixedStop(p, funcs, roots, labelCount, i);
    } else if p[i].kind == FuncDec {
      FixedDefStep(p, funcs, roots, labelCount, i);
      PlacedRegisterOne(p, funcs, labelCount, i);
      var r := RegisterOne(p, funcs, labelCount, i).value;
      RegisterFixedPlaced(r.0, r.1, roots, labelCount, i + r.1[p[i].n].len + 1);
    } else if p[i].kind == LabelDec {
      var q := Erase(p, i);
      PlacedPrefix(p, funcs, i, q);
      FixedLabelStep(p, funcs, roots, labelCount, i);
      RegisterFixedPlaced(q, funcs, roots[p[i].n := Some(i)], labelCount, i);
    } else {
      FixedOtherStep(p, funcs, roots, labelCount, i);
      PlacedWiden(p, funcs, i, i + 1);
      RegisterFixedPlaced(p, funcs, roots, labelCount, i + 1);
    }
  }

  lemma PlacedWiden(p: seq<Token>, funcs: seq<Func>, bound: nat, bound2: nat)
    requires Placed(p, funcs, bound) && bound <= bound2 <= |p|
    ensures Placed(p, funcs, bound2)
  {
  }

  lemma FixedStop(p: seq<Token>, funcs: seq<Func>, roots: seq<Option<nat>>, labelCount: nat, i: nat)
    requires i <= |p| && (i == |p| || p[i].kind == Exit) && Placed(p, funcs, i)
    ensures RegisterFixed(p, funcs, roots, labelCount, i) == Ok((p, funcs, roots))
    ensures Placed(p, funcs, |p|)
  {
  }

  lemma FixedDefStep(p: seq<Token>, funcs: seq<Func>, roots: seq<Option<nat>>, labelCount: nat, i: nat)
    requires i < |p| && p[i].kind == FuncDec && RegisterFixed(p, funcs, roots, labelCount, i).Ok?
    ensures RegisterOne(p, funcs, labelCount, i).Ok?
    ensures var r := RegisterOne(p, funcs, labelCount, i).value;
            RegisterFixed(p, funcs, roots, labelCount, i) == RegisterFixed(r.0, r.1, roots, labelCount, i + r.1[p[i].n].len + 1)
  {
    hide RegisterOne;
  }

  lemma FixedLabelStep(p: seq<Token>, funcs: seq<Func>, roots: seq<Option<nat>>, labelCount: nat, i: nat)
    requires i < |p| && p[i].kind == LabelDec && RegisterFixed(p, funcs, roots, labelCount, i).Ok?
    ensures p[i].n < |roots|
    ensures RegisterFixed(p, funcs, roots, labelCount, i) == RegisterFixed(Erase(p, i), funcs, roots[p[i].n := Some(i)], labelCount, i)
  {
  }

  lemma FixedOtherStep(p: seq<Token>, funcs: seq<Func>, roots: seq<Option<nat>>, labelCount: nat, i: nat)
    requires i < |p| && p[i].kind != Exit && p[i].kind != FuncDec && p[i].kind != LabelDec
    ensures RegisterFixed(p, funcs, roots, labelCount, i) == RegisterFixed(p, funcs, roots, labelCount, i + 1)
  {
  }

  /** Rewriting label fields only keeps `Placed`. */
  lemma PlacedKinds(q: seq<Token>, fs: seq<Func>, q2: seq<Token>)
    requires Placed(q, fs, |q|) && |q2| == |q|
    requires forall k :: 0 <= k < |q| ==> q2[k].kind == q[k].kind && (!UsesLabel(q[k].kind) ==> q2[k] == q[k])
    ensures Placed(q2, fs, |q2|)
  {
  }

  /**
    After the corrected link every function is where its entry says: its
    `FuncDec` at `loc - 1`, its `FuncEnd` at `loc - 1 + len`, and no
    `LabelDec` in its body. `RootLabelStalesLoc` shows the link as written
    breaking this.
   */
  lemma LinkFixedPlaced(p: seq<Token>, funcCount: nat, labelCount: nat)
    requires LinkFixed(p, funcCount, labelCount).Ok?
    ensures var r := LinkFixed(p, funcCount, labelCount).value;
            Placed(r.program, r.funcs, |r.program|)
  {
    var f0 := seq(funcCount, _ => Func(0, 0, 0));
    var reg := RegisterFixed(p, f0, NoLabels(labelCount), labelCount, 0);
    RegisterFixedPlaced(p, f0, NoLabels(labelCount), labelCount, 0);
    var q, fs, roots := reg.value.0, reg.value.1, reg.value.2;
    RootResolveKinds(q, fs, roots, 0);
    var q2 := RootResolve(q, fs, roots, 0).value;
    assert LinkFixed(p, funcCount, labelCount).value == Linked(q2, fs);
    PlacedKinds(q, fs, q2);
  }

  /** The corrected link on `a: f^ ^^` registers `f` at `{1, 1, 1}`, where its `FuncDec` now is. */
  lemma StaleExampleFixed()
    ensures var r := LinkFixed(StaleExample(), 2, 1);
      && r.Ok? && r.value.funcs[1] == Func(1, 1, 1)
      && r.value.program == [Make(FuncDec, 1), Make(FuncEnd, 0), Make(Exit, 0)]
      && r.value.program[r.value.funcs[1].loc - 1].kind == FuncDec
  {
    var p := StaleExample();
    var q := [Make(FuncDec, 1), Make(FuncEnd, 0), Make(Exit, 0)];
    var f0 := seq(2, _ => Func(0, 0, 0));
    var fs := f0[1 := Func(1, 1, 1)];
    assert Erase(p, 0) == q;
    assert NoLabels(1)[0 := Some(0)] == [Some(0)];
    assert f0[1].name == 0;
    assert CollectLabels(q, 1, NoLabels(1)) == Ok((q, NoLabels(1), 1));
    assert ResolveLocal(q, 1, NoLabels(1)) == Ok((q, 1));
    assert RegisterOne(q, f0, 1, 0) == Ok((q, fs));
    assert RegisterFixed(q, fs, [Some(0)], 1, 2) == Ok((q, fs, [Some(0)]));
    assert RegisterFixed(p, f0, NoLabels(1), 1, 0) == Ok((q, fs, [Some(0)]));
    assert RootResolve(q, fs, [Some(0)], 2) == Ok(q);
    assert RootResolve(q, fs, [Some(0)], 0) == Ok(q);
  }
}
