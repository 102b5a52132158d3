/**
  Properties of flinch.hpp's peephole fuser and linker: the fuser never
  fails on a program that ends in its only `Exit` (its loop test lets a
  negative index through, where flinch.cpp's reads out of range), the two
  jump fusions agree on programs without jumps, the `$x goto` fusion
  keeps a variable id where a label id belongs, and registration places
  every function where its table entry says, with jumps inside a body
  staying inside it and local variables numbered densely.
 */
module HppLinkProps {
  import opened Wrappers
  import opened Tokens
  import L = CppLink
  import opened HppLink

  // ----- the fuser keeps the closing `Exit` -----

  lemma ExitLastTriple(p: seq<Token>, i: int, t: Token)
    requires L.ExitLast(p) && L.StillValid(p, i) && i + 2 < |p| && p[i + 2].kind != Exit && t.kind != Exit
    ensures L.ExitLast(Triple(p, i, t))
  {
    var q := Triple(p, i, t);
    assert q[|q| - 1] == p[|p| - 1];
  }

  lemma FuseArithExitLast(p: seq<Token>, i: int)
    requires L.ExitLast(p)
    ensures L.ExitLast(FuseArith(p, i).0)
  {
    hide FuseIntInline, FuseDubInline, FuseOpAssign;
    var (p1, i1) := FuseIntInline(p, i);
    FuseIntExitLast(p, i);
    var (p2, i2) := FuseDubInline(p1, i1);
    FuseDubExitLast(p1, i1);
    FuseOpAssignExitLast(p2, i2);
  }

  lemma FuseIntExitLast(p: seq<Token>, i: int)
    requires L.ExitLast(p)
    ensures L.ExitLast(FuseIntInline(p, i).0)
  {
    if FuseIntInline(p, i).1 != i {
      L.ExitLastStep(p, i, p[i].(kind := OpIntInline(p[i + 1].kind.op.a)));
    }
  }

  lemma FuseDubExitLast(p: seq<Token>, i: int)
    requires L.ExitLast(p)
    ensures L.ExitLast(FuseDubInline(p, i).0)
  {
    if FuseDubInline(p, i).1 != i {
      L.ExitLastStep(p, i, p[i].(kind := OpDubInline(p[i + 1].kind.op.a)));
    }
  }

  lemma FuseOpAssignExitLast(p: seq<Token>, i: int)
    requires L.ExitLast(p)
    ensures L.ExitLast(FuseOpAssign(p, i).0)
  {
    if FuseOpAssign(p, i).1 != i {
      L.ExitLastStep(p, i, p[i].(kind := OpAsLocal(p[i + 1].kind.a)));
    }
  }

  lemma FuseFlowExitLast(fixJumps: bool, p: seq<Token>, i: int)
    requires L.ExitLast(p)
    ensures L.ExitLast(FuseFlow(fixJumps, p, i).0)
  {
    var (p4, i4) := FuseJump(fixJumps, p, i);
    if i4 != i {
      L.ExitLastStep(p, i, p[i].(kind := VarFusion(p[i + 1].kind)));
    }
    L.FuseForExitLast(p4, i4);
    var (p5, i5) := L.FuseFor(p4, i4);
    var (p6, i6) := FuseForLocal(p5, i5);
    if i6 != i5 {
      ExitLastTriple(p5, i5, Token(ForLoopLocal, p5[i5 + 2].n, p5[i5].n, p5[i5 + 1].n));
    }
    L.FuseCmpExitLast(p6, i6);
  }

  /**
    On a program that ends in its only `Exit`, the fuser, as written or
    corrected, never fails, keeps that shape and never lengthens the
    program.
   */
  lemma {:induction false} PeepholeSafe(fixJumps: bool, p: seq<Token>, i: int)
    requires i <= |p| && L.ExitLast(p)
    ensures PeepholeFrom(fixJumps, p, i).Ok?
    ensures L.ExitLast(PeepholeFrom(fixJumps, p, i).value) && |PeepholeFrom(fixJumps, p, i).value| <= |p|
    decreases 3 * |p| - i + 3
  {
    hide PeepholeFrom, FuseAll;
    if Stops(p, i) {
      PeepholeStopsSafe(fixJumps, p, i);
    } else {
      FuseAllExitLast(fixJumps, p, i);
      PeepholeRound(fixJumps, p, i);
      var (q, j) := FuseAll(fixJumps, p, i);
      PeepholeSafe(fixJumps, q, j + 1);
    }
  }

  /** On such a program the loop only stops at the `Exit`, with the program unchanged. */
  lemma PeepholeStopsSafe(fixJumps: bool, p: seq<Token>, i: int)
    requires i <= |p| && L.ExitLast(p) && Stops(p, i)
    ensures PeepholeFrom(fixJumps, p, i) == Ok(p)
  {
  }

  lemma FuseAllExitLast(fixJumps: bool, p: seq<Token>, i: int)
    requires L.ExitLast(p)
    ensures L.ExitLast(FuseAll(fixJumps, p, i).0)
  {
    hide FuseArith, FuseFlow;
    FuseArithExitLast(p, i);
    FuseFlowExitLast(fixJumps, FuseArith(p, i).0, FuseArith(p, i).1);
  }

  // ----- the two jump fusions agree without jumps -----

  lemma NoJumpsTriple(p: seq<Token>, i: int, t: Token)
    requires L.NoJumps(p) && L.StillValid(p, i) && i + 2 < |p| && t.kind != Goto && t.kind != IfGoto
    ensures L.NoJumps(Triple(p, i, t))
  {
    var q := Triple(p, i, t);
    forall k | 0 <= k < |q|
      ensures q[k].kind != Goto && q[k].kind != IfGoto
    {
      if k > i {
        assert q[k] == p[k + 2];
      }
    }
  }

  lemma FuseArithNoJumps(p: seq<Token>, i: int)
    requires L.NoJumps(p)
    ensures L.NoJumps(FuseArith(p, i).0)
  {
    hide FuseIntInline, FuseDubInline, FuseOpAssign;
    var (p1, i1) := FuseIntInline(p, i);
    FuseIntNoJumps(p, i);
    var (p2, i2) := FuseDubInline(p1, i1);
    FuseDubNoJumps(p1, i1);
    FuseOpAssignNoJumps(p2, i2);
  }

  lemma FuseIntNoJumps(p: seq<Token>, i: int)
    requires L.NoJumps(p)
    ensures L.NoJumps(FuseIntInline(p, i).0)
  {
    if FuseIntInline(p, i).1 != i {
      L.NoJumpsStep(p, i, p[i].(kind := OpIntInline(p[i + 1].kind.op.a)));
    }
  }

  lemma FuseDubNoJumps(p: seq<Token>, i: int)
    requires L.NoJumps(p)
    ensures L.NoJumps(FuseDubInline(p, i).0)
  {
    if FuseDubInline(p, i).1 != i {
      L.NoJumpsStep(p, i, p[i].(kind := OpDubInline(p[i + 1].kind.op.a)));
    }
  }

  lemma FuseOpAssignNoJumps(p: seq<Token>, i: int)
    requires L.NoJumps(p)
    ensures L.NoJumps(FuseOpAssign(p, i).0)
  {
    if FuseOpAssign(p, i).1 != i {
      L.NoJumpsStep(p, i, p[i].(kind := OpAsLocal(p[i + 1].kind.a)));
    }
  }

  /** Without jumps, the corrected jump fusion is the one as written, and leaves no jump behind. */
  lemma FuseVarAgrees(p: seq<Token>, i: int)
    requires L.NoJumps(p)
    ensures FuseVarFixed(p, i) == FuseVar(p, i) && L.NoJumps(FuseVar(p, i).0)
  {
    if L.StillValid(p, i) {
      assert p[i + 1].kind != Goto && p[i + 1].kind != IfGoto;
      if FuseVar(p, i).1 != i {
        L.NoJumpsStep(p, i, p[i].(kind := AsLocal));
      }
    }
  }

  lemma FuseFlowAgrees(p: seq<Token>, i: int)
    requires L.NoJumps(p)
    ensures FuseFlow(true, p, i) == FuseFlow(false, p, i) && L.NoJumps(FuseFlow(false, p, i).0)
  {
    FuseVarAgrees(p, i);
    var (p4, i4) := FuseVar(p, i);
    L.FuseForNoJumps(p4, i4);
    var (p5, i5) := L.FuseFor(p4, i4);
    var (p6, i6) := FuseForLocal(p5, i5);
    if i6 != i5 {
      NoJumpsTriple(p5, i5, Token(ForLoopLocal, p5[i5 + 2].n, p5[i5].n, p5[i5 + 1].n));
    }
    L.FuseCmpNoJumps(p6, i6);
  }

  /** On a program without `Goto` or `IfGoto`, the corrected fuser gives what the fuser as written gives. */
  lemma {:induction false} PeepholeAgrees(p: seq<Token>, i: int)
    requires i <= |p| && L.NoJumps(p)
    ensures PeepholeFrom(true, p, i) == PeepholeFrom(false, p, i)
    decreases 3 * |p| - i + 3
  {
    hide PeepholeFrom, FuseAll;
    if Stops(p, i) {
      PeepholeStops(p, i);
    } else {
      FuseAllAgrees(p, i);
      PeepholeRound(true, p, i);
      PeepholeRound(false, p, i);
      var (q, j) := FuseAll(false, p, i);
      PeepholeAgrees(q, j + 1);
    }
  }

  /** Where the fuser's loop ends, or reads past the program, without a rewrite. */
  predicate Stops(p: seq<Token>, i: int)
    requires i <= |p|
  {
    0 <= i && (i + 1 >= |p| || p[i].kind == Exit || p[i + 1].kind == Exit)
  }

  /** Where the loop stops, both fusers return the same. */
  lemma PeepholeStops(p: seq<Token>, i: int)
    requires i <= |p| && Stops(p, i)
    ensures PeepholeFrom(true, p, i) == PeepholeFrom(false, p, i)
  {
  }

  /** Elsewhere, one round of rewrites, then the loop goes on one index later. */
  lemma PeepholeRound(fixJumps: bool, p: seq<Token>, i: int)
    requires i <= |p| && !Stops(p, i)
    ensures FuseAll(fixJumps, p, i).1 + 1 <= |FuseAll(fixJumps, p, i).0|
    ensures PeepholeFrom(fixJumps, p, i) == PeepholeFrom(fixJumps, FuseAll(fixJumps, p, i).0, FuseAll(fixJumps, p, i).1 + 1)
  {
    hide FuseAll;
  }

  /** Without jumps, one round of the corrected rewrites is one round of those as written. */
  lemma FuseAllAgrees(p: seq<Token>, i: int)
    requires L.NoJumps(p)
    ensures FuseAll(true, p, i) == FuseAll(false, p, i) && L.NoJumps(FuseAll(false, p, i).0)
  {
    var (p3, i3) := FuseArith(p, i);
    FuseArithNoJumps(p, i);
    FuseFlowAgrees(p3, i3);
  }

  // ----- examples -----

  /**
    `$x goto` fuses to `GotoLabel` carrying the variable's id in the field
    that label resolution reads as a label id.
   */
  lemma GotoFusionKeepsVarId(x: nat)
    ensures Peephole([Make(LocalVarLookup, x), Make(Goto, 0), Make(Exit, 0)]) == Ok([Make(GotoLabel, x), Make(Exit, 0)])
  {
    var p := [Make(LocalVarLookup, x), Make(Goto, 0), Make(Exit, 0)];
    var q := [Make(GotoLabel, x), Make(Exit, 0)];
    VarGotoFuses(x);
    JumpFusionRound(false, p, q);
  }

  /** At index 0 of `$x goto`, no arithmetic fusion applies and the jump fusion does. */
  lemma VarGotoFuses(x: nat)
    ensures FuseArith([Make(LocalVarLookup, x), Make(Goto, 0), Make(Exit, 0)], 0)
         == ([Make(LocalVarLookup, x), Make(Goto, 0), Make(Exit, 0)], 0)
    ensures FuseJump(false, [Make(LocalVarLookup, x), Make(Goto, 0), Make(Exit, 0)], 0)
         == ([Make(GotoLabel, x), Make(Exit, 0)], -1)
  {
    var p := [Make(LocalVarLookup, x), Make(Goto, 0), Make(Exit, 0)];
    var q := [Make(GotoLabel, x), Make(Exit, 0)];
    var e := L.Erase(p, 1);
    assert e[..1] == [Make(LocalVarLookup, x)] && e[1..] == [Make(Exit, 0)];
    assert e[0 := Make(GotoLabel, x)] == q;
  }

  /**
    A program of two tokens before its `Exit` whose jump fusion at index 0
    leaves one token and the `Exit` is done after that round.
   */
  lemma JumpFusionRound(fixJumps: bool, p: seq<Token>, q: seq<Token>)
    requires |p| == 3 && p[0].kind != Exit && p[1].kind != Exit
    requires |q| == 2 && q[0].kind != Exit && q[1].kind == Exit
    requires FuseArith(p, 0) == (p, 0) && FuseJump(fixJumps, p, 0) == (q, -1)
    ensures PeepholeFrom(fixJumps, p, 0) == Ok(q)
  {
    hide FuseArith, FuseJump;
    assert FuseFlow(fixJumps, p, 0) == (q, -1);
    assert PeepholeFrom(fixJumps, q, 0) == Ok(q);
  }

  /**
    The corrected fuser leaves `$x goto` alone, so it still jumps to the
    label the variable holds, and fuses `:t goto` into `GotoLabel t`.
   */
  lemma GotoFusionFixed(x: nat, t: nat)
    ensures PeepholeFixed([Make(LocalVarLookup, x), Make(Goto, 0), Make(Exit, 0)])
         == Ok([Make(LocalVarLookup, x), Make(Goto, 0), Make(Exit, 0)])
    ensures PeepholeFixed([Make(LabelLookup, t), Make(Goto, 0), Make(Exit, 0)]) == Ok([Make(GotoLabel, t), Make(Exit, 0)])
  {
    FixedKeepsVarGoto(x);
    FixedFusesLabelGoto(t);
  }

  lemma FixedKeepsVarGoto(x: nat)
    ensures PeepholeFixed([Make(LocalVarLookup, x), Make(Goto, 0), Make(Exit, 0)])
         == Ok([Make(LocalVarLookup, x), Make(Goto, 0), Make(Exit, 0)])
  {
    var p := [Make(LocalVarLookup, x), Make(Goto, 0), Make(Exit, 0)];
    VarGotoKept(x);
    hide FuseArith, FuseFlow;
    assert PeepholeFrom(true, p, 1) == Ok(p);
  }

  /** The corrected rewrites leave `$x goto` alone at index 0. */
  lemma VarGotoKept(x: nat)
    ensures FuseAll(true, [Make(LocalVarLookup, x), Make(Goto, 0), Make(Exit, 0)], 0)
         == ([Make(LocalVarLookup, x), Make(Goto, 0), Make(Exit, 0)], 0)
  {
    var p := [Make(LocalVarLookup, x), Make(Goto, 0), Make(Exit, 0)];
    assert FuseArith(p, 0) == (p, 0);
    hide FuseArith;
    assert FuseFlow(true, p, 0) == (p, 0);
  }

  lemma FixedFusesLabelGoto(t: nat)
    ensures PeepholeFixed([Make(LabelLookup, t), Make(Goto, 0), Make(Exit, 0)]) == Ok([Make(GotoLabel, t), Make(Exit, 0)])
  {
    var l := [Make(LabelLookup, t), Make(Goto, 0), Make(Exit, 0)];
    var q := [Make(GotoLabel, t), Make(Exit, 0)];
    LabelGotoFuses(t);
    JumpFusionRound(true, l, q);
  }

  /** At index 0 of `:t goto`, no arithmetic fusion applies and the corrected jump fusion does. */
  lemma LabelGotoFuses(t: nat)
    ensures FuseArith([Make(LabelLookup, t), Make(Goto, 0), Make(Exit, 0)], 0)
         == ([Make(LabelLookup, t), Make(Goto, 0), Make(Exit, 0)], 0)
    ensures FuseJump(true, [Make(LabelLookup, t), Make(Goto, 0), Make(Exit, 0)], 0)
         == ([Make(GotoLabel, t), Make(Exit, 0)], -1)
  {
    var l := [Make(LabelLookup, t), Make(Goto, 0), Make(Exit, 0)];
    var q := [Make(GotoLabel, t), Make(Exit, 0)];
    var e := L.Erase(l, 1);
    assert e[..1] == [Make(LabelLookup, t)] && e[1..] == [Make(Exit, 0)];
    assert e[0 := Make(GotoLabel, t)] == q;
  }

  /**
    `$i 10 :top inc_goto_until` at the very start of a program: the loop
    fusion at index 2 steps the index back twice, so the triple fusion
    sees its output at index 0, and the negative index that follows is
    let through by the loop test.
   */
  lemma LoopFusionAtStart(v: nat, k: nat, t: nat)
    ensures Peephole(LoopExample(v, k, t)) == Ok([Token(ForLoopLocal, t, v, k), Make(Exit, 0)])
  {
    hide FuseAll;
    var p := LoopExample(v, k, t);
    var r := [Token(ForLoopLocal, t, v, k), Make(Exit, 0)];
    LoopExampleSkips(v, k, t);
    LoopExampleFuses(v, k, t);
    assert PeepholeFrom(false, p, 2) == PeepholeFrom(false, r, 0);
    assert PeepholeFrom(false, r, 0) == Ok(r);
  }

  /** The tokens of `$i 10 :top inc_goto_until` before the closing `Exit`. */
  function LoopExample(v: nat, k: nat, t: nat): (p: seq<Token>)
    ensures |p| == 5 && p[4].kind == Exit
  {
    [Make(LocalVarLookup, v), Make(IntegerInline, k), Make(LabelLookup, t), Make(ForLoop, 0), Make(Exit, 0)]
  }

  /** Indices 0 and 1 match no rewrite. */
  lemma LoopExampleSkips(v: nat, k: nat, t: nat)
    ensures PeepholeFrom(false, LoopExample(v, k, t), 0) == PeepholeFrom(false, LoopExample(v, k, t), 2)
  {
    hide FuseAll;
    var p := LoopExample(v, k, t);
    LoopExampleNoRewrite(v, k, t, 0);
    assert PeepholeFrom(false, p, 0) == PeepholeFrom(false, p, 1);
    LoopExampleNoRewrite(v, k, t, 1);
    assert PeepholeFrom(false, p, 1) == PeepholeFrom(false, p, 2);
  }

  lemma LoopExampleNoRewrite(v: nat, k: nat, t: nat, i: nat)
    requires i < 2
    ensures FuseAll(false, LoopExample(v, k, t), i) == (LoopExample(v, k, t), i)
  {
    var p := LoopExample(v, k, t);
    assert FuseIntInline(p, i) == (p, i);
    assert FuseDubInline(p, i) == (p, i);
    assert FuseOpAssign(p, i) == (p, i);
    assert FuseVar(p, i) == (p, i);
    assert L.FuseFor(p, i) == (p, i);
    assert FuseForLocal(p, i) == (p, i);
    assert L.FuseCmp(p, i) == (p, i);
  }

  /** At index 2 the loop fusion, then the triple fusion two tokens back. */
  lemma LoopExampleFuses(v: nat, k: nat, t: nat)
    ensures FuseAll(false, LoopExample(v, k, t), 2) == ([Token(ForLoopLocal, t, v, k), Make(Exit, 0)], -1)
  {
    var p := LoopExample(v, k, t);
    var q := [Make(LocalVarLookup, v), Make(IntegerInline, k), Make(ForLoopLabel, t), Make(Exit, 0)];
    var r := [Token(ForLoopLocal, t, v, k), Make(Exit, 0)];
    LoopExampleLoop(v, k, t);
    LoopExampleTriple(v, k, t);
    hide FuseArith, FuseJump, L.FuseFor, FuseForLocal;
    assert L.FuseCmp(r, -1) == (r, -1);
  }

  /** Index 2 starts the loop fusion, which steps back two. */
  lemma LoopExampleLoop(v: nat, k: nat, t: nat)
    ensures FuseArith(LoopExample(v, k, t), 2) == (LoopExample(v, k, t), 2)
    ensures FuseJump(false, LoopExample(v, k, t), 2) == (LoopExample(v, k, t), 2)
    ensures L.FuseFor(LoopExample(v, k, t), 2)
         == ([Make(LocalVarLookup, v), Make(IntegerInline, k), Make(ForLoopLabel, t), Make(Exit, 0)], 0)
  {
    var p := LoopExample(v, k, t);
    assert FuseArith(p, 2) == (p, 2) && FuseJump(false, p, 2) == (p, 2);
    var q := [Make(LocalVarLookup, v), Make(IntegerInline, k), Make(ForLoopLabel, t), Make(Exit, 0)];
    var e := L.Erase(p[2 := Make(ForLoopLabel, t)], 3);
    assert e[..3] == q[..3] && e[3..] == [Make(Exit, 0)];
    assert e == q;
  }

  /** The loop fusion's output at index 0 is a triple. */
  lemma LoopExampleTriple(v: nat, k: nat, t: nat)
    ensures FuseForLocal([Make(LocalVarLookup, v), Make(IntegerInline, k), Make(ForLoopLabel, t), Make(Exit, 0)], 0)
         == ([Token(ForLoopLocal, t, v, k), Make(Exit, 0)], -1)
  {
    var q := [Make(LocalVarLookup, v), Make(IntegerInline, k), Make(ForLoopLabel, t), Make(Exit, 0)];
    assert Triple(q, 0, Token(ForLoopLocal, t, v, k)) == [Token(ForLoopLocal, t, v, k), Make(Exit, 0)];
  }

  // ----- the first body loop: labels as in flinch.cpp, plus slots -----

  /** The slots the declaration test hands out along `s`, in order: the reference numbering. */
  function Number(s: seq<Token>, slots: map<nat, nat>, vn: nat): (r: (map<nat, nat>, nat))
    decreases |s|
  {
    if |s| == 0 then (slots, vn)
    else
      var (s2, vn2) := Declare(s[0], slots, vn);
      Number(s[1..], s2, vn2)
  }

  /**
    The first body loop of flinch.hpp is flinch.cpp's label loop with the
    slot numbering run alongside: it fails exactly when that loop does,
    and otherwise leaves the same program, labels and end, with the slots
    `Number` hands out over the body that remains. The test on the token
    before an erased `LabelDec` never fires, since that token was already
    numbered or is the `FuncDec`.
   */
  predicate SplitsAs(p: seq<Token>, j: nat, labels: seq<Option<nat>>, slots: map<nat, nat>, vn: nat)
    requires 1 <= j
  {
    var r := CollectBody(p, j, labels, slots, vn);
    var c := L.CollectLabels(p, j, labels);
    && r.Ok? == c.Ok?
    && (r.Err? ==> r.error == c.error)
    && (r.Ok? ==> (r.value.0, r.value.1, r.value.2) == c.value
                  && (r.value.3, r.value.4) == Number(c.value.0[j..c.value.2], slots, vn))
  }

  lemma {:induction false} CollectBodySplit(p: seq<Token>, start: nat, j: nat, labels: seq<Option<nat>>, slots: map<nat, nat>, vn: nat)
    requires 1 <= start <= j <= |p| && !IsLocalDec(p[start - 1].kind)
    requires forall k :: start <= k < j && IsLocalDec(p[k].kind) ==> p[k].n in slots
    ensures SplitsAs(p, j, labels, slots, vn)
    decreases |p| - j
  {
    hide SplitsAs, CollectBody, L.CollectLabels;
    if j == |p| || p[j].kind == FuncEnd || (p[j].kind == LabelDec && p[j].n >= |labels|) {
      SplitStop(p, j, labels, slots, vn);
    } else if p[j].kind == LabelDec {
      var q := L.Erase(p, j);
      assert q[j - 1] == p[j - 1];
      assert Declare(q[j - 1], slots, vn) == (slots, vn);
      assert forall k :: start <= k < j ==> q[k] == p[k];
      CollectBodySplit(q, start, j, labels[p[j].n := Some(j)], slots, vn);
      SplitLabel(p, j, labels, slots, vn);
    } else {
      var (s2, vn2) := Declare(p[j], slots, vn);
      CollectBodySplit(p, start, j + 1, labels, s2, vn2);
      SplitKeep(p, j, labels, slots, vn);
    }
  }

  /** At a `FuncEnd`, past the end, or at an out-of-range label, both loops stop alike. */
  lemma SplitStop(p: seq<Token>, j: nat, labels: seq<Option<nat>>, slots: map<nat, nat>, vn: nat)
    requires 1 <= j <= |p| && (j == |p| || p[j].kind == FuncEnd || (p[j].kind == LabelDec && p[j].n >= |labels|))
    ensures SplitsAs(p, j, labels, slots, vn)
  {
    if j < |p| && p[j].kind == FuncEnd {
      assert p[j..j] == [];
    }
  }

  lemma SplitLabel(p: seq<Token>, j: nat, labels: seq<Option<nat>>, slots: map<nat, nat>, vn: nat)
    requires 1 <= j < |p| && p[j].kind == LabelDec && p[j].n < |labels|
    requires Declare(L.Erase(p, j)[j - 1], slots, vn) == (slots, vn)
    requires SplitsAs(L.Erase(p, j), j, labels[p[j].n := Some(j)], slots, vn)
    ensures SplitsAs(p, j, labels, slots, vn)
  {
  }

  lemma SplitKeep(p: seq<Token>, j: nat, labels: seq<Option<nat>>, slots: map<nat, nat>, vn: nat)
    requires 1 <= j < |p| && p[j].kind != LabelDec && p[j].kind != FuncEnd
    requires SplitsAs(p, j + 1, labels, Declare(p[j], slots, vn).0, Declare(p[j], slots, vn).1)
    ensures SplitsAs(p, j, labels, slots, vn)
  {
    var c := L.CollectLabels(p, j + 1, labels);
    if c.Ok? {
      var (q, _, e) := c.value;
      assert q[..j + 1] == p[..j + 1];
      assert q[j..e][0] == p[j] && q[j..e][1..] == q[j + 1..e];
    }
  }

  /** The names `s` declares. */
  function DeclNames(s: seq<Token>): (r: set<nat>)
    ensures forall k :: 0 <= k < |s| && IsLocalDec(s[k].kind) ==> s[k].n in r
  {
    set k | 0 <= k < |s| && IsLocalDec(s[k].kind) :: s[k].n
  }

  lemma DeclNamesCons(s: seq<Token>)
    requires |s| > 0
    ensures DeclNames(s) == (if IsLocalDec(s[0].kind) then {s[0].n} else {}) + DeclNames(s[1..])
  {
    var a, b := DeclNames(s), (if IsLocalDec(s[0].kind) then {s[0].n} else {}) + DeclNames(s[1..]);
    forall v | v in a
      ensures v in b
    {
      var k :| 0 <= k < |s| && IsLocalDec(s[k].kind) && s[k].n == v;
      if k > 0 {
        assert s[1..][k - 1] == s[k];
      }
    }
    forall v | v in b
      ensures v in a
    {
      if v !in (if IsLocalDec(s[0].kind) then {s[0].n} else {}) {
        var k :| 0 <= k < |s| - 1 && IsLocalDec(s[1..][k].kind) && s[1..][k].n == v;
        assert s[k + 1] == s[1..][k];
      }
    }
  }

  /** `slots` numbers its names `0 .. vn - 1`, each with its own slot. */
  predicate Dense(slots: map<nat, nat>, vn: nat) {
    && |slots| == vn
    && (forall v :: v in slots ==> slots[v] < vn)
    && (forall v, w :: v in slots && w in slots && v != w ==> slots[v] != slots[w])
  }

  lemma DeclareDense(t: Token, slots: map<nat, nat>, vn: nat)
    requires Dense(slots, vn)
    ensures Dense(Declare(t, slots, vn).0, Declare(t, slots, vn).1)
  {
  }

  /**
    The numbering keeps the slots already handed out and stays dense:
    distinct names get distinct slots below the count.
   */
  lemma {:induction false} NumberDense(s: seq<Token>, slots: map<nat, nat>, vn: nat)
    requires Dense(slots, vn)
    ensures var (s2, vn2) := Number(s, slots, vn);
            && Dense(s2, vn2) && vn <= vn2
            && (forall v :: v in slots ==> v in s2 && s2[v] == slots[v])
    decreases |s|
  {
    if |s| > 0 {
      var (s1, vn1) := Declare(s[0], slots, vn);
      DeclareDense(s[0], slots, vn);
      NumberDense(s[1..], s1, vn1);
    }
  }

  /** The numbering gives a slot to every name the body declares and to no other name. */
  lemma {:induction false} NumberKeys(s: seq<Token>, slots: map<nat, nat>, vn: nat)
    ensures Number(s, slots, vn).0.Keys == slots.Keys + DeclNames(s)
    decreases |s|
  {
    if |s| == 0 {
      assert DeclNames(s) == {};
    } else {
      var (s1, vn1) := Declare(s[0], slots, vn);
      NumberKeys(s[1..], s1, vn1);
      DeclNamesCons(s);
    }
  }

  // ----- the second body loop -----

  /** `e` is the first `FuncEnd` at or after `j`, so two such are one. */
  lemma FirstEndUnique(p: seq<Token>, j: nat, e: nat, e2: nat)
    requires L.FirstEnd(p, j, e) && L.FirstEnd(p, j, e2)
    ensures e == e2
  {
  }

  /** The second body loop stops at the first `FuncEnd` and relocates every token before it. */
  lemma {:induction false} ResolveBodyFaithful(p: seq<Token>, j: nat, labels: seq<Option<nat>>, slots: map<nat, nat>)
    requires ResolveBody(p, j, labels, slots).Ok?
    ensures var (q, e) := ResolveBody(p, j, labels, slots).value;
            && L.FirstEnd(p, j, e)
            && (forall k :: j <= k < e ==> Relocate(p[k], labels, slots) == Ok(q[k]))
    decreases |p| - j
  {
    hide ResolveBody, Relocate;
    if j >= |p| || p[j].kind == FuncEnd {
      ResolveBodyEnd(p, j, labels, slots);
    } else {
      ResolveBodyOkStep(p, j, labels, slots);
      var t := Relocate(p[j], labels, slots).value;
      var p1 := p[j := t];
      ResolveBodyFaithful(p1, j + 1, labels, slots);
      var (q, e) := ResolveBody(p1, j + 1, labels, slots).value;
      assert q[..j + 1] == p1[..j + 1];
      assert q[j] == t;
      assert forall k :: j < k <= e ==> p1[k] == p[k];
    }
  }

  /** A label use before the first `FuncEnd` whose label the body never declared throws. */
  lemma {:induction false} ResolveBodyUnknown(p: seq<Token>, j: nat, labels: seq<Option<nat>>, slots: map<nat, nat>, k: nat)
    requires j <= k < |p| && Relocate(p[k], labels, slots).Err?
    requires forall m :: j <= m <= k ==> p[m].kind != FuncEnd
    ensures ResolveBody(p, j, labels, slots).Err?
    decreases |p| - j
  {
    hide ResolveBody;
    if j < k && Relocate(p[j], labels, slots).Ok? {
      var p1 := p[j := Relocate(p[j], labels, slots).value];
      assert forall m :: j + 1 <= m <= k ==> p1[m] == p[m];
      ResolveBodyUnknown(p1, j + 1, labels, slots, k);
      ResolveBodyStep(p, j, labels, slots);
    } else {
      ResolveBodyStops(p, j, labels, slots);
    }
  }

  /** The loop succeeds only on a `FuncEnd`, which ends it. */
  lemma ResolveBodyEnd(p: seq<Token>, j: nat, labels: seq<Option<nat>>, slots: map<nat, nat>)
    requires ResolveBody(p, j, labels, slots).Ok? && (j >= |p| || p[j].kind == FuncEnd)
    ensures j < |p| && ResolveBody(p, j, labels, slots) == Ok((p, j))
  {
  }

  /** A successful loop relocated its first token and went on. */
  lemma ResolveBodyOkStep(p: seq<Token>, j: nat, labels: seq<Option<nat>>, slots: map<nat, nat>)
    requires ResolveBody(p, j, labels, slots).Ok? && j < |p| && p[j].kind != FuncEnd
    ensures Relocate(p[j], labels, slots).Ok?
    ensures ResolveBody(p, j, labels, slots) == ResolveBody(p[j := Relocate(p[j], labels, slots).value], j + 1, labels, slots)
  {
  }

  /** One relocated token, then the loop goes on. */
  lemma ResolveBodyStep(p: seq<Token>, j: nat, labels: seq<Option<nat>>, slots: map<nat, nat>)
    requires j < |p| && p[j].kind != FuncEnd && Relocate(p[j], labels, slots).Ok?
    ensures ResolveBody(p, j, labels, slots) == ResolveBody(p[j := Relocate(p[j], labels, slots).value], j + 1, labels, slots)
  {
  }

  /** A token that does not relocate stops the loop with its exception. */
  lemma ResolveBodyStops(p: seq<Token>, j: nat, labels: seq<Option<nat>>, slots: map<nat, nat>)
    requires j < |p| && p[j].kind != FuncEnd && Relocate(p[j], labels, slots).Err?
    ensures ResolveBody(p, j, labels, slots) == Err(Relocate(p[j], labels, slots).error)
  {
  }

  // ----- registering one definition -----

  /**
    After registering the definition `n` at `i`, with its `FuncEnd` at
    `e`: the entry was free; `funcs[n]` is `{i + 1, e - i, vars}` and no
    other entry changed; both sizes are below the limit; the body holds
    no `LabelDec`; every jump in the body lands inside the body or on its
    `FuncEnd`; and every local declaration got a slot below `vars`.
   */
  predicate Registered(p: seq<Token>, funcs: seq<CompFunc>, i: nat, q: seq<Token>, fs: seq<CompFunc>, e: nat)
    requires i < |p| && i < |q|
  {
    var n := p[i].n;
    && n < |funcs| && funcs[n].len == 0 && |fs| == |funcs|
    && q[i] == p[i] && L.FirstEnd(q, i + 1, e)
    && fs == funcs[n := CompFunc(i + 1, e - i, fs[n].vars)]
    && e - i < IWORD_LIMIT && fs[n].vars < IWORD_LIMIT
    && (forall k :: i < k < e ==> q[k].kind != LabelDec)
    && (forall k :: i < k < e && UsesLabel(q[k].kind) ==> i < q[k].n <= e)
    && (forall k :: i < k < e && IsLocalDec(q[k].kind) ==> q[k].n < fs[n].vars)
  }

  lemma RegisterOneShape(p: seq<Token>, funcs: seq<CompFunc>, labelCount: nat, i: nat)
    requires i < |p| && p[i].kind == FuncDec && RegisterOne(p, funcs, labelCount, i).Ok?
    ensures var r := RegisterOne(p, funcs, labelCount, i).value;
            Registered(p, funcs, i, r.0, r.1, r.2)
  {
    hide *;
    var none := L.NoLabels(labelCount);
    RegisterOneValue(p, funcs, labelCount, i);
    var c := CollectBody(p, i + 1, none, map[], 0).value;
    CollectFacts(p, i, none);
    ResolveFacts(c.0, c.1, c.3, c.4, none, i, c.2);
    var r := ResolveBody(c.0, i + 1, c.1, c.3).value;
    ResolveKeepsHead(c.0, i, c.1, c.3);
    RegisteredIntro(p, funcs, i, r.0, c.4, r.1);
  }

  /** The entry `{i + 1, e - i, vn}` and the body facts make a registration. */
  lemma RegisteredIntro(p: seq<Token>, funcs: seq<CompFunc>, i: nat, q: seq<Token>, vn: nat, e: nat)
    requires i < |p| && p[i].n < |funcs| && funcs[p[i].n].len == 0
    requires L.FirstEnd(q, i + 1, e) && q[i] == p[i]
    requires e - i < IWORD_LIMIT && vn < IWORD_LIMIT
    requires forall k :: i < k < e ==> q[k].kind != LabelDec
    requires forall k :: i < k < e && UsesLabel(q[k].kind) ==> i < q[k].n <= e
    requires forall k :: i < k < e && IsLocalDec(q[k].kind) ==> q[k].n < vn
    ensures Registered(p, funcs, i, q, funcs[p[i].n := CompFunc(i + 1, e - i, vn)], e)
  {
  }

  /** What the first body loop hands the second: the facts `RegisterBody` needs. */
  lemma CollectFacts(p: seq<Token>, i: nat, none: seq<Option<nat>>)
    requires i < |p| && p[i].kind == FuncDec && forall m :: 0 <= m < |none| ==> none[m] == None
    requires CollectBody(p, i + 1, none, map[], 0).Ok?
    ensures var c := CollectBody(p, i + 1, none, map[], 0).value;
            && L.FirstEnd(c.0, i + 1, c.2) && c.0[i] == p[i]
            && Dense(c.3, c.4) && c.3.Keys == DeclNames(c.0[i + 1..c.2])
            && (forall m :: 0 <= m < |none| && c.1[m] != none[m] ==> c.1[m].Some? && i + 1 <= c.1[m].value <= c.2)
            && (forall k :: i + 1 <= k <= c.2 ==> c.0[k].kind != LabelDec)
  {
    CollectBodySplit(p, i + 1, i + 1, none, map[], 0);
    assert SplitsAs(p, i + 1, none, map[], 0);
    L.CollectLabelsFaithful(p, i + 1, none);
    var c := CollectBody(p, i + 1, none, map[], 0).value;
    NumberDense(c.0[i + 1..c.2], map[], 0);
    NumberKeys(c.0[i + 1..c.2], map[], 0);
    assert c.0[i] == c.0[..i + 1][i];
  }

  /** The second body loop leaves the `FuncDec` alone. */
  lemma ResolveKeepsHead(q1: seq<Token>, i: nat, ls: seq<Option<nat>>, slots: map<nat, nat>)
    requires ResolveBody(q1, i + 1, ls, slots).Ok?
    ensures i < |q1| && ResolveBody(q1, i + 1, ls, slots).value.0[i] == q1[i]
  {
    var q2 := ResolveBody(q1, i + 1, ls, slots).value.0;
    assert q2[i] == q2[..i + 1][i];
  }

  /** What the second body loop makes of the first loop's result. */
  lemma ResolveFacts(q1: seq<Token>, ls: seq<Option<nat>>, slots: map<nat, nat>, vn: nat, none: seq<Option<nat>>, i: nat, e1: nat)
    requires |none| == |ls| && forall m :: 0 <= m < |none| ==> none[m] == None
    requires L.FirstEnd(q1, i + 1, e1) && Dense(slots, vn) && slots.Keys == DeclNames(q1[i + 1..e1])
    requires forall m :: 0 <= m < |none| && ls[m] != none[m] ==> ls[m].Some? && i + 1 <= ls[m].value <= e1
    requires forall k :: i + 1 <= k <= e1 ==> q1[k].kind != LabelDec
    requires ResolveBody(q1, i + 1, ls, slots).Ok?
    ensures var (q2, e) := ResolveBody(q1, i + 1, ls, slots).value;
            && e == e1 && L.FirstEnd(q2, i + 1, e)
            && (forall k :: i < k < e ==> q2[k].kind != LabelDec)
            && (forall k :: i < k < e && UsesLabel(q2[k].kind) ==> i < q2[k].n <= e)
            && (forall k :: i < k < e && IsLocalDec(q2[k].kind) ==> q2[k].n < vn)
  {
    ResolveBodyFaithful(q1, i + 1, ls, slots);
    var (q2, e) := ResolveBody(q1, i + 1, ls, slots).value;
    FirstEndUnique(q1, i + 1, e, e1);
    RegisterBody(q1, ls, slots, vn, none, i, q2, e);
    assert L.FirstEnd(q2, i + 1, e) by {
      assert forall k :: i + 1 <= k < e ==> q2[k].kind == q1[k].kind;
    }
  }

  /** A successful registration is the two body loops' results with the new entry. */
  lemma RegisterOneValue(p: seq<Token>, funcs: seq<CompFunc>, labelCount: nat, i: nat)
    requires i < |p| && p[i].kind == FuncDec && RegisterOne(p, funcs, labelCount, i).Ok?
    ensures p[i].n < |funcs| && funcs[p[i].n].len == 0
    ensures CollectBody(p, i + 1, L.NoLabels(labelCount), map[], 0).Ok?
    ensures var c := CollectBody(p, i + 1, L.NoLabels(labelCount), map[], 0).value;
            && ResolveBody(c.0, i + 1, c.1, c.3).Ok?
            && var r := ResolveBody(c.0, i + 1, c.1, c.3).value;
               && r.1 - i < IWORD_LIMIT && c.4 < IWORD_LIMIT
               && RegisterOne(p, funcs, labelCount, i) == Ok((r.0, funcs[p[i].n := CompFunc(i + 1, r.1 - i, c.4)], r.1))
  {
    hide CollectBody, ResolveBody;
    RegisterOneGuards(p, funcs, labelCount, i);
  }

  /** A successful registration passed both entry tests and both body loops. */
  lemma RegisterOneGuards(p: seq<Token>, funcs: seq<CompFunc>, labelCount: nat, i: nat)
    requires i < |p| && p[i].kind == FuncDec && RegisterOne(p, funcs, labelCount, i).Ok?
    ensures p[i].n < |funcs| && funcs[p[i].n].len == 0
    ensures CollectBody(p, i + 1, L.NoLabels(labelCount), map[], 0).Ok?
    ensures var c := CollectBody(p, i + 1, L.NoLabels(labelCount), map[], 0).value;
            ResolveBody(c.0, i + 1, c.1, c.3).Ok?
  {
    hide CollectBody, ResolveBody;
  }

  /** The facts about the body that `RegisterOneShape` puts together. */
  lemma RegisterBody(q1: seq<Token>, ls: seq<Option<nat>>, slots: map<nat, nat>, vn: nat, none: seq<Option<nat>>,
                     i: nat, q2: seq<Token>, e: nat)
    requires |none| == |ls| && forall m :: 0 <= m < |none| ==> none[m] == None
    requires i < e < |q1| == |q2| && Dense(slots, vn) && slots.Keys == DeclNames(q1[i + 1..e])
    requires forall m :: 0 <= m < |none| && ls[m] != none[m] ==> ls[m].Some? && i + 1 <= ls[m].value <= e
    requires forall k :: i + 1 <= k <= e ==> q1[k].kind != LabelDec
    requires forall k :: i + 1 <= k < e ==> Relocate(q1[k], ls, slots) == Ok(q2[k])
    ensures forall k :: i < k < e ==> q2[k].kind != LabelDec
    ensures forall k :: i < k < e && UsesLabel(q2[k].kind) ==> i < q2[k].n <= e
    ensures forall k :: i < k < e && IsLocalDec(q2[k].kind) ==> q2[k].n < vn
  {
    forall k | i < k < e && IsLocalDec(q2[k].kind)
      ensures q2[k].n < vn
    {
      assert q1[i + 1..e][k - (i + 1)] == q1[k];
      assert q1[k].n in DeclNames(q1[i + 1..e]);
    }
  }

  /** Registering a definition whose entry is already taken throws. */
  lemma RegisterRedefined(p: seq<Token>, funcs: seq<CompFunc>, labelCount: nat, i: nat)
    requires i < |p| && p[i].kind == FuncDec && p[i].n < |funcs| && funcs[p[i].n].len != 0
    ensures RegisterOne(p, funcs, labelCount, i) == Err(Thrown(RedefinedFunction))
  {
  }

  // ----- the registration loop and the root pass -----

  /**
    Every registered function, the entries with a nonzero `len`, lies
    before `bound` where its entry says: `FuncDec n` at `loc - 1`, a
    `FuncEnd` at `loc - 1 + len`, no `LabelDec` between them, and every
    local declaration between them in a slot below `vars`.
   */
  predicate Placed(p: seq<Token>, funcs: seq<CompFunc>, bound: nat) {
    && bound <= |p|
    && forall m :: 0 <= m < |funcs| && funcs[m].len != 0 ==> PlacedAt(p, m, funcs[m], bound)
  }

  /** The entry `f` of function `m` describes a body that lies before `bound`. */
  predicate PlacedAt(p: seq<Token>, m: nat, f: CompFunc, bound: nat) {
    && 1 <= f.loc && f.loc - 1 + f.len < bound <= |p|
    && p[f.loc - 1].kind == FuncDec && p[f.loc - 1].n == m
    && p[f.loc - 1 + f.len].kind == FuncEnd
    && (forall k :: f.loc <= k < f.loc - 1 + f.len ==> p[k].kind != LabelDec)
    && (forall k :: f.loc <= k < f.loc - 1 + f.len && IsLocalDec(p[k].kind) ==> p[k].n < f.vars)
  }

  /** Every jump in a registered function's body lands inside the body or on its `FuncEnd`. */
  predicate JumpsInside(p: seq<Token>, funcs: seq<CompFunc>) {
    forall m :: 0 <= m < |funcs| && funcs[m].len != 0 ==> JumpsAt(p, funcs[m])
  }

  /** Every jump in the body the entry `f` describes lands inside it or on its `FuncEnd`. */
  predicate JumpsAt(p: seq<Token>, f: CompFunc) {
    forall k :: f.loc <= k < f.loc - 1 + f.len && k < |p| && UsesLabel(p[k].kind) ==> f.loc <= p[k].n <= f.loc - 1 + f.len
  }

  /** Both predicates only look below `bound`. */
  lemma PlacedPrefix(p: seq<Token>, funcs: seq<CompFunc>, bound: nat, q: seq<Token>)
    requires Placed(p, funcs, bound) && JumpsInside(p, funcs) && bound <= |q| && q[..bound] == p[..bound]
    ensures Placed(q, funcs, bound) && JumpsInside(q, funcs)
  {
    forall k | 0 <= k < bound
      ensures q[k] == p[k]
    {
      assert q[k] == q[..bound][k];
    }
  }

  /**
    The `FuncDec` branch of flinch.hpp:744-790: after registering the
    definition at `i`, every earlier function is still placed, the new one
    is placed at `{i + 1, e - i}` with its `FuncEnd` at `e`, and every jump
    in a registered body stays inside it, all before `e + 1`.
   */
  lemma PlacedRegisterOne(p: seq<Token>, funcs: seq<CompFunc>, labelCount: nat, i: nat)
    requires i < |p| && p[i].kind == FuncDec && RegisterOne(p, funcs, labelCount, i).Ok?
    requires Placed(p, funcs, i) && JumpsInside(p, funcs)
    ensures var r := RegisterOne(p, funcs, labelCount, i).value;
            Placed(r.0, r.1, r.2 + 1) && JumpsInside(r.0, r.1)
  {
    RegisterOneShape(p, funcs, labelCount, i);
    var r := RegisterOne(p, funcs, labelCount, i).value;
    var q, fs, e := r.0, r.1, r.2;
    assert q[..i] == p[..i] by {
      assert q[..i + 1] == p[..i + 1];
      assert q[..i] == q[..i + 1][..i];
    }
    PlacedPrefix(p, funcs, i, q);
    PlacedAdd(p, q, funcs, i, fs, e);
  }

  lemma PlacedAdd(p: seq<Token>, q: seq<Token>, funcs: seq<CompFunc>, i: nat, fs: seq<CompFunc>, e: nat)
    requires i < |p| && i < |q| && p[i].kind == FuncDec && Placed(q, funcs, i) && JumpsInside(q, funcs)
    requires Registered(p, funcs, i, q, fs, e)
    ensures Placed(q, fs, e + 1) && JumpsInside(q, fs)
  {
    var n := p[i].n;
    forall m | 0 <= m < |fs| && fs[m].len != 0
      ensures PlacedAt(q, m, fs[m], e + 1) && JumpsAt(q, fs[m])
    {
      if m != n {
        assert fs[m] == funcs[m] && PlacedAt(q, m, funcs[m], i);
      } else {
        PlacedNew(p, funcs, i, q, fs, e);
      }
    }
  }

  /** The entry just registered describes its body. */
  lemma PlacedNew(p: seq<Token>, funcs: seq<CompFunc>, i: nat, q: seq<Token>, fs: seq<CompFunc>, e: nat)
    requires i < |p| && i < |q| && p[i].kind == FuncDec && Registered(p, funcs, i, q, fs, e)
    ensures PlacedAt(q, p[i].n, fs[p[i].n], e + 1) && JumpsAt(q, fs[p[i].n])
  {
    assert fs[p[i].n].loc == i + 1 && fs[p[i].n].len == e - i;
  }

  /**
    The registration loop places every function where its entry says, and
    keeps jumps inside bodies: registering a later definition or erasing a
    root `LabelDec` only touches tokens after every earlier body.
   */
  lemma {:induction false} RegisterPlaced(p: seq<Token>, funcs: seq<CompFunc>, roots: seq<Option<nat>>, labelCount: nat, i: nat)
    requires i <= |p| && Placed(p, funcs, i) && JumpsInside(p, funcs)
    requires Register(p, funcs, roots, labelCount, i).Ok?
    ensures var r := Register(p, funcs, roots, labelCount, i).value;
            Placed(r.0, r.1, |r.0|) && JumpsInside(r.0, r.1)
    decreases |p| - i
  {
    hide Register, RegisterOne, Placed, JumpsInside;
    if i == |p| || p[i].kind == Exit {
      RegisterStop(p, funcs, roots, labelCount, i);
    } else if p[i].kind == FuncDec {
      RegisterDefStep(p, funcs, roots, labelCount, i);
      PlacedRegisterOne(p, funcs, labelCount, i);
      var r := RegisterOne(p, funcs, labelCount, i).value;
      RegisterPlaced(r.0, r.1, roots, labelCount, r.2 + 1);
    } else if p[i].kind == LabelDec {
      var q := L.Erase(p, i);
      assert q[..i] == p[..i];
      PlacedPrefix(p, funcs, i, q);
      RegisterLabelStep(p, funcs, roots, labelCount, i);
      RegisterPlaced(q, funcs, roots[p[i].n := Some(i)], labelCount, i);
    } else {
      RegisterOtherStep(p, funcs, roots, labelCount, i);
      PlacedWiden(p, funcs, i, i + 1);
      RegisterPlaced(p, funcs, roots, labelCount, i + 1);
    }
  }

  lemma PlacedWiden(p: seq<Token>, funcs: seq<CompFunc>, bound: nat, bound2: nat)
    requires Placed(p, funcs, bound) && bound <= bound2 <= |p|
    ensures Placed(p, funcs, bound2)
  {
  }

  lemma RegisterStop(p: seq<Token>, funcs: seq<CompFunc>, roots: seq<Option<nat>>, labelCount: nat, i: nat)
    requires i <= |p| && (i == |p| || p[i].kind == Exit) && Placed(p, funcs, i)
    ensures Register(p, funcs, roots, labelCount, i) == Ok((p, funcs, roots))
    ensures Placed(p, funcs, |p|)
  {
  }

  lemma RegisterDefStep(p: seq<Token>, funcs: seq<CompFunc>, roots: seq<Option<nat>>, labelCount: nat, i: nat)
    requires i < |p| && p[i].kind == FuncDec && Register(p, funcs, roots, labelCount, i).Ok?
    ensures RegisterOne(p, funcs, labelCount, i).Ok?
    ensures var r := RegisterOne(p, funcs, labelCount, i).value;
            Register(p, funcs, roots, labelCount, i) == Register(r.0, r.1, roots, labelCount, r.2 + 1)
  {
    hide RegisterOne;
  }

  lemma RegisterLabelStep(p: seq<Token>, funcs: seq<CompFunc>, roots: seq<Option<nat>>, labelCount: nat, i: nat)
    requires i < |p| && p[i].kind == LabelDec && Register(p, funcs, roots, labelCount, i).Ok?
    ensures p[i].n < |roots|
    ensures Register(p, funcs, roots, labelCount, i) == Register(L.Erase(p, i), funcs, roots[p[i].n := Some(i)], labelCount, i)
  {
  }

  lemma RegisterOtherStep(p: seq<Token>, funcs: seq<CompFunc>, roots: seq<Option<nat>>, labelCount: nat, i: nat)
    requires i < |p| && p[i].kind != Exit && p[i].kind != FuncDec && p[i].kind != LabelDec
    ensures Register(p, funcs, roots, labelCount, i) == Register(p, funcs, roots, labelCount, i + 1)
  {
  }

  /** The root pass changes the label field of label uses only. */
  lemma {:induction false} RootResolveKeeps(p: seq<Token>, funcs: seq<CompFunc>, roots: seq<Option<nat>>, i: nat)
    requires RootResolve(p, funcs, roots, i).Ok?
    ensures var q := RootResolve(p, funcs, roots, i).value;
            forall k :: 0 <= k < |p| ==>
              q[k].kind == p[k].kind && (!UsesLabel(p[k].kind) ==> q[k] == p[k])
    decreases |p| - i
  {
    hide RootResolve;
    if i >= |p| || p[i].kind == Exit {
      RootResolveStop(p, funcs, roots, i);
    } else {
      RootResolveStep(p, funcs, roots, i);
      var j := SkipDef(p, funcs, i).value;
      if UsesLabel(p[j].kind) {
        var p1 := p[j := p[j].(n := roots[p[j].n].value)];
        RootResolveKeeps(p1, funcs, roots, j + 1);
      } else {
        RootResolveKeeps(p, funcs, roots, j + 1);
      }
    }
  }

  lemma RootResolveStop(p: seq<Token>, funcs: seq<CompFunc>, roots: seq<Option<nat>>, i: nat)
    requires i >= |p| || p[i].kind == Exit
    ensures RootResolve(p, funcs, roots, i) == Ok(p)
  {
  }

  /** A successful root pass skips the definition at `i`, if any, and rewrites the label use after it. */
  lemma RootResolveStep(p: seq<Token>, funcs: seq<CompFunc>, roots: seq<Option<nat>>, i: nat)
    requires i < |p| && p[i].kind != Exit && RootResolve(p, funcs, roots, i).Ok?
    ensures SkipDef(p, funcs, i).Ok?
    ensures var j := SkipDef(p, funcs, i).value;
            if UsesLabel(p[j].kind) then
              && p[j].n < |roots| && roots[p[j].n].Some?
              && RootResolve(p, funcs, roots, i) == RootResolve(p[j := p[j].(n := roots[p[j].n].value)], funcs, roots, j + 1)
            else RootResolve(p, funcs, roots, i) == RootResolve(p, funcs, roots, j + 1)
  {
  }

  /**
    After linking, every function is where its entry says: its `FuncDec`
    at `loc - 1`, its `FuncEnd` at `loc - 1 + len`, no `LabelDec` in its
    body, and each local declaration in a slot below `vars`.
   */
  lemma LinkPlaced(p: seq<Token>, funcCount: nat, labelCount: nat)
    requires Link(p, funcCount, labelCount).Ok?
    ensures var r := Link(p, funcCount, labelCount).value;
            Placed(r.program, r.funcs, |r.program|)
  {
    var f0 := seq(funcCount, _ => CompFunc(0, 0, 0));
    var reg := Register(p, f0, L.NoLabels(labelCount), labelCount, 0);
    RegisterPlaced(p, f0, L.NoLabels(labelCount), labelCount, 0);
    var q, fs, roots := reg.value.0, reg.value.1, reg.value.2;
    RootResolveKeeps(q, fs, roots, 0);
    var q2 := RootResolve(q, fs, roots, 0).value;
    assert Link(p, funcCount, labelCount).value == Linked(q2, fs);
    PlacedKinds(q, fs, q2);
  }

  /** Rewriting label fields only keeps `Placed`. */
  lemma PlacedKinds(q: seq<Token>, fs: seq<CompFunc>, q2: seq<Token>)
    requires Placed(q, fs, |q|) && |q2| == |q|
    requires forall k :: 0 <= k < |q| ==> q2[k].kind == q[k].kind && (!UsesLabel(q[k].kind) ==> q2[k] == q[k])
    ensures Placed(q2, fs, |q2|)
  {
  }
}
