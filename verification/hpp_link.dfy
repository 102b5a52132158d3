/**
  The back half of flinch.hpp's `load_program` (flinch.hpp:675-811): the
  peephole fuser, function registration with in-function label resolution
  and local-variable compaction, and root-level labels.

  The pair rewrites flinch.cpp also performs (`LabelLookup; ForLoop` and
  `Cmp; IfGotoLabel`) are the ones of `CppLink`. The fuser's index is
  `size_t`; here it is an `int`, so the index stepped back below zero is a
  negative number, which the loop test of flinch.hpp lets through. Label
  locations are `iword_t` with `-1` as "unset", written `None` here.
  `prog_erase` also erases the matching entry of `lines`, which only
  feeds error messages and is not modelled here.
 */
module HppLink {
  import opened Wrappers
  import opened Tokens
  import opened MachineInt
  import L = CppLink

  // ----- the peephole fuser -----

  /** `IntegerInline k; <arith>` becomes `<arith>IntInline k`, and `i` steps back. */
  function FuseIntInline(p: seq<Token>, i: int): (r: (seq<Token>, int))
    ensures r.1 == i || r.1 == i - 1
    ensures r.1 == i ==> r.0 == p
    ensures r.1 == i - 1 ==> L.StillValid(p, i) && p[i].kind == IntegerInline && p[i + 1].kind.Bin? && p[i + 1].kind.op.ArithOp?
                             && r.0 == L.Erase(p, i + 1)[i := p[i].(kind := OpIntInline(p[i + 1].kind.op.a))]
  {
    if L.StillValid(p, i) && p[i].kind == IntegerInline && p[i + 1].kind.Bin? && p[i + 1].kind.op.ArithOp? then
      (L.Erase(p, i + 1)[i := p[i].(kind := OpIntInline(p[i + 1].kind.op.a))], i - 1)
    else (p, i)
  }

  /** `DoubleInline k; <arith>` becomes `<arith>DubInline k`, and `i` steps back. */
  function FuseDubInline(p: seq<Token>, i: int): (r: (seq<Token>, int))
    ensures r.1 == i || r.1 == i - 1
    ensures r.1 == i ==> r.0 == p
    ensures r.1 == i - 1 ==> L.StillValid(p, i) && p[i].kind == DoubleInline && p[i + 1].kind.Bin? && p[i + 1].kind.op.ArithOp?
                             && r.0 == L.Erase(p, i + 1)[i := p[i].(kind := OpDubInline(p[i + 1].kind.op.a))]
  {
    if L.StillValid(p, i) && p[i].kind == DoubleInline && p[i + 1].kind.Bin? && p[i + 1].kind.op.ArithOp? then
      (L.Erase(p, i + 1)[i := p[i].(kind := OpDubInline(p[i + 1].kind.op.a))], i - 1)
    else (p, i)
  }

  /** `LocalVarLookup v; <arith>=` becomes `<arith>AsLocal v`, and `i` steps back. */
  function FuseOpAssign(p: seq<Token>, i: int): (r: (seq<Token>, int))
    ensures r.1 == i || r.1 == i - 1
    ensures r.1 == i ==> r.0 == p
    ensures r.1 == i - 1 ==> L.StillValid(p, i) && p[i].kind == LocalVarLookup && p[i + 1].kind.OpAssign?
                             && r.0 == L.Erase(p, i + 1)[i := p[i].(kind := OpAsLocal(p[i + 1].kind.a))]
  {
    if L.StillValid(p, i) && p[i].kind == LocalVarLookup && p[i + 1].kind.OpAssign? then
      (L.Erase(p, i + 1)[i := p[i].(kind := OpAsLocal(p[i + 1].kind.a))], i - 1)
    else (p, i)
  }

  /** The fused kind for `Assign`, `Goto` or `IfGoto` after a push. */
  function VarFusion(k: Kind): Kind {
    if k == Assign then AsLocal else if k == Goto then GotoLabel else IfGotoLabel
  }

  /** `LocalVarLookup v; Assign|Goto|IfGoto` becomes `AsLocal|GotoLabel|IfGotoLabel v`, and `i` steps back. */
  function FuseVar(p: seq<Token>, i: int): (r: (seq<Token>, int))
    ensures r.1 == i || r.1 == i - 1
    ensures r.1 == i ==> r.0 == p
    ensures r.1 == i - 1 ==> L.StillValid(p, i) && p[i].kind == LocalVarLookup
                             && (p[i + 1].kind == Assign || p[i + 1].kind == Goto || p[i + 1].kind == IfGoto)
                             && r.0 == L.Erase(p, i + 1)[i := p[i].(kind := VarFusion(p[i + 1].kind))]
  {
    if L.StillValid(p, i) && p[i].kind == LocalVarLookup && (p[i + 1].kind == Assign || p[i + 1].kind == Goto || p[i + 1].kind == IfGoto) then
      (L.Erase(p, i + 1)[i := p[i].(kind := VarFusion(p[i + 1].kind))], i - 1)
    else (p, i)
  }

  /**
    The pair rewrite the jump fusions evidently intend: `LocalVarLookup v;
    Assign` becomes `AsLocal v` as written, but `Goto` and `IfGoto` fuse
    with a preceding `LabelLookup`, the token `:label` produces.
   */
  function FuseVarFixed(p: seq<Token>, i: int): (r: (seq<Token>, int))
    ensures r.1 == i || r.1 == i - 1
    ensures r.1 == i ==> r.0 == p
    ensures r.1 == i - 1 ==> L.StillValid(p, i)
                             && (if p[i + 1].kind == Assign then p[i].kind == LocalVarLookup
                                 else p[i].kind == LabelLookup && (p[i + 1].kind == Goto || p[i + 1].kind == IfGoto))
                             && r.0 == L.Erase(p, i + 1)[i := p[i].(kind := VarFusion(p[i + 1].kind))]
  {
    if L.StillValid(p, i)
       && ((p[i].kind == LocalVarLookup && p[i + 1].kind == Assign)
           || (p[i].kind == LabelLookup && (p[i + 1].kind == Goto || p[i + 1].kind == IfGoto))) then
      (L.Erase(p, i + 1)[i := p[i].(kind := VarFusion(p[i + 1].kind))], i - 1)
    else (p, i)
  }

  /** `p` with the three tokens from `i` replaced by `t`. */
  function Triple(p: seq<Token>, i: nat, t: Token): (r: seq<Token>)
    requires i + 2 < |p|
    ensures |r| == |p| - 2 && r[i] == t
    ensures forall k :: 0 <= k < i ==> r[k] == p[k]
    ensures forall k :: i < k < |r| ==> r[k] == p[k + 2]
  {
    p[..i] + [t] + p[i + 3..]
  }

  /**
    `LocalVarLookup v; IntegerInline k; ForLoopLabel t` becomes
    `ForLoopLocal t` carrying `v` and `k` in its extra fields.
   */
  function FuseForLocal(p: seq<Token>, i: int): (r: (seq<Token>, int))
    ensures r.1 == i || r.1 == i - 1
    ensures r.1 == i ==> r.0 == p
    ensures r.1 == i - 1 ==> L.StillValid(p, i) && i + 2 < |p|
                             && p[i].kind == LocalVarLookup && p[i + 1].kind == IntegerInline && p[i + 2].kind == ForLoopLabel
                             && r.0 == Triple(p, i, Token(ForLoopLocal, p[i + 2].n, p[i].n, p[i + 1].n))
  {
    if L.StillValid(p, i) && i + 2 < |p| && p[i].kind == LocalVarLookup && p[i + 1].kind == IntegerInline && p[i + 2].kind == ForLoopLabel then
      var t := Token(ForLoopLocal, p[i + 2].n, p[i].n, p[i + 1].n);
      var q := L.Erase(L.Erase(p[i := t], i + 2), i + 1);
      assert q == Triple(p, i, t);
      (q, i - 1)
    else (p, i)
  }

  /**
    One or more rewrites took the program `p` at index `i` to `q` at
    index `j`: the index never moves forward, the program never grows,
    together they shrink the loop's measure, and a negative index
    rewrites nothing.
   */
  predicate Step(p: seq<Token>, i: int, q: seq<Token>, j: int) {
    && 3 * |q| - j <= 3 * |p| - i && j <= i && |q| <= |p|
    && (i + 1 <= |p| ==> j + 1 <= |q|)
    && (i < 0 ==> q == p && j == i)
  }

  lemma StepTrans(p: seq<Token>, i: int, q: seq<Token>, j: int, s: seq<Token>, k: int)
    requires Step(p, i, q, j) && Step(q, j, s, k)
    ensures Step(p, i, s, k)
  {
  }

  lemma PairStep(p: seq<Token>, i: int, q: seq<Token>, j: int)
    requires (q, j) == (p, i) || (L.StillValid(p, i) && |q| == |p| - 1 && j == i - 1)
    ensures Step(p, i, q, j)
  {
  }

  lemma ForStep(p: seq<Token>, i: int)
    ensures Step(p, i, L.FuseFor(p, i).0, L.FuseFor(p, i).1)
  {
  }

  lemma CmpStep(p: seq<Token>, i: int)
    ensures Step(p, i, L.FuseCmp(p, i).0, L.FuseCmp(p, i).1)
  {
  }

  lemma ForLocalStep(p: seq<Token>, i: int)
    ensures Step(p, i, FuseForLocal(p, i).0, FuseForLocal(p, i).1)
  {
  }

  /** The jump fusion `fixJumps` selects. */
  function FuseJump(fixJumps: bool, p: seq<Token>, i: int): (r: (seq<Token>, int))
    ensures Step(p, i, r.0, r.1)
  {
    if fixJumps then
      var r := FuseVarFixed(p, i); PairStep(p, i, r.0, r.1); r
    else
      var r := FuseVar(p, i); PairStep(p, i, r.0, r.1); r
  }

  /** The three rewrites tried first: the arithmetic fusions. */
  function FuseArith(p: seq<Token>, i: int): (r: (seq<Token>, int))
    ensures Step(p, i, r.0, r.1)
  {
    var (p1, i1) := FuseIntInline(p, i);
    PairStep(p, i, p1, i1);
    var (p2, i2) := FuseDubInline(p1, i1);
    PairStep(p1, i1, p2, i2);
    StepTrans(p, i, p1, i1, p2, i2);
    var (p3, i3) := FuseOpAssign(p2, i2);
    PairStep(p2, i2, p3, i3);
    StepTrans(p, i, p2, i2, p3, i3);
    (p3, i3)
  }

  /** The four rewrites tried last: jumps and loops. */
  function FuseFlow(fixJumps: bool, p: seq<Token>, i: int): (r: (seq<Token>, int))
    ensures Step(p, i, r.0, r.1)
  {
    var (p4, i4) := FuseJump(fixJumps, p, i);
    var (p5, i5) := L.FuseFor(p4, i4);
    ForStep(p4, i4);
    StepTrans(p, i, p4, i4, p5, i5);
    var (p6, i6) := FuseForLocal(p5, i5);
    ForLocalStep(p5, i5);
    StepTrans(p, i, p5, i5, p6, i6);
    var (p7, i7) := L.FuseCmp(p6, i6);
    CmpStep(p6, i6);
    StepTrans(p, i, p6, i6, p7, i7);
    (p7, i7)
  }

  /**
    The body of the fuser's loop: the seven rewrites, tried in order at the
    moving index. `fixJumps` selects the corrected jump fusion.
   */
  function FuseAll(fixJumps: bool, p: seq<Token>, i: int): (r: (seq<Token>, int))
    ensures Step(p, i, r.0, r.1)
  {
    var (p3, i3) := FuseArith(p, i);
    var r := FuseFlow(fixJumps, p3, i3);
    StepTrans(p, i, p3, i3, r.0, r.1);
    r
  }

  /**
    The fuser from index `i`. The loop runs while the index, read as a
    signed number, is negative, or while it and the next index hold tokens
    other than `Exit`; a negative index matches no rewrite.
   */
  function PeepholeFrom(fixJumps: bool, p: seq<Token>, i: int): (r: Result<seq<Token>, Fault>)
    requires i <= |p|
    ensures r.Ok? ==> |r.value| <= |p|
    decreases 3 * |p| - i + 3
  {
    if 0 <= i && (i >= |p| || p[i].kind == Exit) then Ok(p)
    else if 0 <= i && i + 1 >= |p| then Err(Undefined(NextTokenPastEnd))
    else if 0 <= i && p[i + 1].kind == Exit then Ok(p)
    else
      var (q, j) := FuseAll(fixJumps, p, i);
      PeepholeFrom(fixJumps, q, j + 1)
  }

  /** flinch.hpp:682-731, as written. */
  function Peephole(p: seq<Token>): (r: Result<seq<Token>, Fault>)
    ensures r.Ok? ==> |r.value| <= |p|
  {
    PeepholeFrom(false, p, 0)
  }

  /** The fuser with jumps fused after label pushes rather than variable references. */
  function PeepholeFixed(p: seq<Token>): (r: Result<seq<Token>, Fault>)
    ensures r.Ok? ==> |r.value| <= |p|
  {
    PeepholeFrom(true, p, 0)
  }

  // ----- function registration -----

  /** `CompFunc { loc, len, varcount }`: the body starts at `loc`, `loc - 1 + len` is its `FuncEnd`. */
  datatype CompFunc = CompFunc(loc: nat, len: nat, vars: nat)

  /** `(size_t)iword_t(-1)`: a body of this many tokens, or this many variables, is refused. */
  const IWORD_LIMIT: nat := TWO_32 - 1

  /** The declarations that claim a slot in a function's frame. */
  predicate IsLocalDec(k: Kind) {
    k == LocalVarDec || k == LocalVarDecLookup
  }

  /** The tokens whose `n` names a local variable. */
  predicate IsSlotKind(k: Kind) {
    k == LocalVarDec || k == LocalVarDecLookup || k == LocalVarLookup || k == LocalVar || k == AsLocal || k.OpAsLocal?
  }

  /**
    The declaration test of the first body loop on token `t`: a local
    declaration whose name has no slot yet gets the next one.
   */
  function Declare(t: Token, slots: map<nat, nat>, vn: nat): (r: (map<nat, nat>, nat))
    ensures IsLocalDec(t.kind) ==> t.n in r.0
    ensures forall v :: v in slots ==> v in r.0 && r.0[v] == slots[v]
    ensures r.1 == vn || (r.1 == vn + 1 && t.n !in slots && r.0 == slots[t.n := vn])
    ensures r.1 == vn ==> r.0 == slots
  {
    if IsLocalDec(t.kind) && t.n !in slots then (slots[t.n := vn], vn + 1) else (slots, vn)
  }

  /**
    The first loop over a body, from `j` up to the next `FuncEnd`: each
    `LabelDec m` records its own index as label `m` and is erased, so the
    label names the token that then follows it; each local declaration
    whose name is new gets the next slot. After an erasure the index steps
    back, so the declaration test looks at the token before the erased one.
    Running off the end of the program is undefined behaviour. Also
    returns where the loop stopped.
   */
  function CollectBody(p: seq<Token>, j: nat, labels: seq<Option<nat>>, slots: map<nat, nat>, vn: nat)
    : (r: Result<(seq<Token>, seq<Option<nat>>, nat, map<nat, nat>, nat), Fault>)
    requires 1 <= j
    ensures r.Ok? ==> |r.value.0| <= |p| && |r.value.1| == |labels| && vn <= r.value.4
    ensures r.Ok? ==> j <= r.value.2 < |r.value.0| && r.value.0[r.value.2].kind == FuncEnd && r.value.0[..j] == p[..j]
    decreases |p| - j
  {
    if j >= |p| then Err(Undefined(SecondTokenPastEnd))
    else if p[j].kind == FuncEnd then Ok((p, labels, j, slots, vn))
    else if p[j].kind == LabelDec then
      if p[j].n >= |labels| then Err(Undefined(LabelsIndex))
      else
        var q := L.Erase(p, j);
        var (s2, vn2) := Declare(q[j - 1], slots, vn);
        CollectBody(q, j, labels[p[j].n := Some(j)], s2, vn2)
    else
      var (s2, vn2) := Declare(p[j], slots, vn);
      CollectBody(p, j + 1, labels, s2, vn2)
  }

  /** `varnames_set[v]`: the slot of `v`, or 0 for a name the body never declared. */
  function Slot(slots: map<nat, nat>, v: nat): (r: nat)
    ensures v in slots ==> r == slots[v]
    ensures v !in slots ==> r == 0
  {
    if v in slots then slots[v] else 0
  }

  /**
    What the second body loop does to one token: variable fields become
    slots, and label fields become the recorded location, or the "Unknown
    label usage" exception.
   */
  function Relocate(t: Token, labels: seq<Option<nat>>, slots: map<nat, nat>): (r: Result<Token, Fault>)
    ensures r.Ok? ==> r.value.kind == t.kind && r.value.x2 == t.x2
    ensures r.Ok? ==> r.value.x1 == (if t.kind == ForLoopLocal then Slot(slots, t.x1) else t.x1)
    ensures r.Ok? && UsesLabel(t.kind) ==> t.n < |labels| && labels[t.n] == Some(r.value.n)
    ensures r.Ok? && IsSlotKind(t.kind) ==> r.value.n == Slot(slots, t.n)
    ensures r.Ok? && !UsesLabel(t.kind) && !IsSlotKind(t.kind) ==> r.value.n == t.n
    ensures r.Err? <==> UsesLabel(t.kind) && (t.n >= |labels| || labels[t.n].None?)
    ensures r.Err? ==> r.error == (if t.n >= |labels| then Undefined(LabelsIndex) else Thrown(UnknownLabelUsage))
  {
    var t1 := if IsSlotKind(t.kind) then t.(n := Slot(slots, t.n)) else t;
    var t2 := if t1.kind == ForLoopLocal then t1.(x1 := Slot(slots, t1.x1)) else t1;
    if !UsesLabel(t2.kind) then Ok(t2)
    else if t2.n >= |labels| then Err(Undefined(LabelsIndex))
    else match labels[t2.n]
      case None => Err(Thrown(UnknownLabelUsage))
      case Some(loc) => Ok(t2.(n := loc))
  }

  /**
    The second loop over a body: every token up to the next `FuncEnd` is
    relocated. Returns the program and the index of that `FuncEnd`.
   */
  function ResolveBody(p: seq<Token>, j: nat, labels: seq<Option<nat>>, slots: map<nat, nat>): (r: Result<(seq<Token>, nat), Fault>)
    ensures r.Ok? ==> |r.value.0| == |p| && j <= r.value.1 < |p| && r.value.0[r.value.1].kind == FuncEnd
    ensures r.Ok? ==> r.value.0[..j] == p[..j] && r.value.0[r.value.1..] == p[r.value.1..]
    decreases |p| - j
  {
    if j >= |p| then Err(Undefined(SecondTokenPastEnd))
    else if p[j].kind == FuncEnd then Ok((p, j))
    else
      var t :- Relocate(p[j], labels, slots);
      var q := p[j := t];
      var r := ResolveBody(q, j + 1, labels, slots);
      assert r.Ok? ==> q[r.value.1..] == p[r.value.1..] && q[..j] == p[..j];
      r
  }

  /**
    Registering the definition at `i`: the two body loops, the size
    limits, then `funcs[n] = {i + 1, e - i, vn}` for the `FuncEnd` at `e`,
    which is also returned.
   */
  function RegisterOne(p: seq<Token>, funcs: seq<CompFunc>, labelCount: nat, i: nat): (r: Result<(seq<Token>, seq<CompFunc>, nat), Fault>)
    requires i < |p| && p[i].kind == FuncDec
    ensures r.Ok? ==> i < r.value.2 < |r.value.0| <= |p| && |r.value.1| == |funcs|
    ensures r.Ok? ==> r.value.0[..i + 1] == p[..i + 1]
  {
    var n := p[i].n;
    if n >= |funcs| then Err(Undefined(FuncsIndex))
    else if funcs[n].len != 0 then Err(Thrown(RedefinedFunction))
    else
      var (q, labels, _, slots, vn) :- CollectBody(p, i + 1, L.NoLabels(labelCount), map[], 0);
      var (q2, e) :- ResolveBody(q, i + 1, labels, slots);
      if e - i >= IWORD_LIMIT then Err(Thrown(TooManyOperations))
      else if vn >= IWORD_LIMIT then Err(Thrown(TooManyVariables))
      else Ok((q2, funcs[n := CompFunc(i + 1, e - i, vn)], e))
  }

  /**
    The registration loop from `i` to `Exit`: a definition is registered
    and the loop goes on after its `FuncEnd`; a root `LabelDec m` records
    its own index as root label `m` and is erased.
   */
  function Register(p: seq<Token>, funcs: seq<CompFunc>, roots: seq<Option<nat>>, labelCount: nat, i: nat)
    : (r: Result<(seq<Token>, seq<CompFunc>, seq<Option<nat>>), Fault>)
    ensures r.Ok? ==> |r.value.0| <= |p| && |r.value.1| == |funcs| && |r.value.2| == |roots|
    decreases |p| - i
  {
    if i >= |p| || p[i].kind == Exit then Ok((p, funcs, roots))
    else if p[i].kind == FuncDec then
      var (q, fs, e) :- RegisterOne(p, funcs, labelCount, i);
      Register(q, fs, roots, labelCount, e + 1)
    else if p[i].kind == LabelDec then
      if p[i].n >= |roots| then Err(Undefined(RootLabelsIndex))
      else Register(L.Erase(p, i), funcs, roots[p[i].n := Some(i)], labelCount, i)
    else Register(p, funcs, roots, labelCount, i + 1)
  }

  // ----- root-level labels -----

  /**
    Where the root pass looks after index `i`: a `FuncDec` jumps ahead by
    its function's `len`. Reading past the end is undefined behaviour.
   */
  function SkipDef(p: seq<Token>, funcs: seq<CompFunc>, i: nat): (r: Result<nat, Fault>)
    requires i < |p|
    ensures r.Ok? ==> i <= r.value < |p|
    ensures r.Ok? && p[i].kind != FuncDec ==> r.value == i
    ensures r.Ok? && p[i].kind == FuncDec ==> p[i].n < |funcs| && r.value == i + funcs[p[i].n].len
  {
    if p[i].kind != FuncDec then Ok(i)
    else if p[i].n >= |funcs| then Err(Undefined(FuncsIndex))
    else if i + funcs[p[i].n].len >= |p| then Err(Undefined(TokenPastEnd))
    else Ok(i + funcs[p[i].n].len)
  }

  /** The root pass: every label use outside function bodies gets its root label, or throws. */
  function RootResolve(p: seq<Token>, funcs: seq<CompFunc>, roots: seq<Option<nat>>, i: nat): (r: Result<seq<Token>, Fault>)
    ensures r.Ok? ==> |r.value| == |p|
    decreases |p| - i
  {
    if i >= |p| || p[i].kind == Exit then Ok(p)
    else
      var j :- SkipDef(p, funcs, i);
      if UsesLabel(p[j].kind) then
        if p[j].n >= |roots| then Err(Undefined(RootLabelsIndex))
        else match roots[p[j].n]
          case None => Err(Thrown(UnknownLabelUsage))
          case Some(loc) => RootResolve(p[j := p[j].(n := loc)], funcs, roots, j + 1)
      else RootResolve(p, funcs, roots, j + 1)
  }

  /** A compiled program with its function table. */
  datatype Linked = Linked(program: seq<Token>, funcs: seq<CompFunc>)

  /**
    flinch.hpp:733-811: register every definition and collect root labels
    in one pass, then resolve root label uses. `funcCount` and `labelCount`
    are the sizes of the function name and label tables.
   */
  function Link(p: seq<Token>, funcCount: nat, labelCount: nat): (r: Result<Linked, Fault>)
    ensures r.Ok? ==> |r.value.funcs| == funcCount && |r.value.program| <= |p|
  {
    var (q, fs, roots) :- Register(p, seq(funcCount, _ => CompFunc(0, 0, 0)), L.NoLabels(labelCount), labelCount, 0);
    var q2 :- RootResolve(q, fs, roots, 0);
    Ok(Linked(q2, fs))
  }
}
