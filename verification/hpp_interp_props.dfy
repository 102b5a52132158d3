/**
  Properties of flinch.hpp's interpreter: each rewrite of the peephole
  fuser runs like the tokens it replaces, the call protocol restores the
  caller and leaves the callee's frame dangling, a function declaration
  skips its body, a literal executes as the number it spells, `punt_n` is
  that many `punt`s, the array handlers undo each other, and running is
  compositional.

  `Handle` dispatches over every token kind, so a proof that lets the
  solver unfold it pays for all of them. The lemmas below hide it and use
  one small lemma per kind, `Handle<Kind>`, that says which handler runs.
 */
module HppInterpProps {
  import opened Wrappers
  import opened MachineInt
  import opened Tokens
  import opened DynValue
  import IntLiteral
  import C = CppClassify
  import HppClassify
  import HppLink
  import HppLinkProps
  import opened HppInterp

  type Builtin = (nat, seq<V>) -> Result<seq<V>, Fault>

  // ----- which handler runs for each kind -----

  lemma HandleExit(img: Image, b: Builtin, t: Token, m1: Machine)
    requires t.kind == Exit
    ensures Handle(img, b, t, m1) == Ok(m1.(pc := m1.pc - 1))
  {
    hide StepCalls, StepVars, StepJumps, StepOperators, StepValues, StepFrames, StepArrays;
  }

  lemma HandleFuncDec(img: Image, b: Builtin, t: Token, m1: Machine)
    requires t.kind == FuncDec
    ensures Handle(img, b, t, m1) == OnFuncDec(img, t.n, m1)
  {
    hide StepVars, StepJumps, StepOperators, StepValues, StepFrames, StepArrays;
    hide OnFuncDec, OnFuncEnd, OnCall, OnVar, OnVarDec, OnVarLookup, OnVarDecLookup, OnAssign, OnAsLocal, OnGoto, OnIfGoto, OnIfGotoLabel, OnIfGotoCmp, OnForLoop, OnForLoopLabel, OnForLoopLocal, OnBin, OnTop, OnUnary, OnOpAssign, OnOpAsLocal, OnScopeClose, OnArrayBuild, OnPunt, OnPuntN, OnArrayIndex, OnClone, OnArrayLen, OnArrayPushIn, OnArrayPopOut, OnArrayPushBack, OnArrayPopBack, OnArrayConcat, OnArrayDelete, OnStringLiteral;
    hide Nth, Under, Load, Store, Slot, SetSlot, ForStep, ForBump, Truthy, CompareOp, Binary, ArrayOf, Pop, Back, Need, SetBack, SetArray, Enter, HppInterp.Clone, CloneAll, Reversed, AsRef, AsLabel, AsFunc, AsIntoInt, Valid;
  }

  lemma HandleFuncCall(img: Image, b: Builtin, t: Token, m1: Machine)
    requires t.kind == FuncCall
    ensures Handle(img, b, t, m1) == (var f :- CalleeOf(img, t.n); Ok(Enter(m1, f)))
  {
    hide StepVars, StepJumps, StepOperators, StepValues, StepFrames, StepArrays;
    hide OnFuncDec, OnFuncEnd, OnCall, OnVar, OnVarDec, OnVarLookup, OnVarDecLookup, OnAssign, OnAsLocal, OnGoto, OnIfGoto, OnIfGotoLabel, OnIfGotoCmp, OnForLoop, OnForLoopLabel, OnForLoopLocal, OnBin, OnTop, OnUnary, OnOpAssign, OnOpAsLocal, OnScopeClose, OnArrayBuild, OnPunt, OnPuntN, OnArrayIndex, OnClone, OnArrayLen, OnArrayPushIn, OnArrayPopOut, OnArrayPushBack, OnArrayPopBack, OnArrayConcat, OnArrayDelete, OnStringLiteral;
    hide Nth, Under, Load, Store, Slot, SetSlot, ForStep, ForBump, Truthy, CompareOp, Binary, ArrayOf, Pop, Back, Need, SetBack, SetArray, Enter, HppInterp.Clone, CloneAll, Reversed, AsRef, AsLabel, AsFunc, AsIntoInt, Valid;
  }

  lemma HandleLocalVarLookup(img: Image, b: Builtin, t: Token, m1: Machine)
    requires t.kind == LocalVarLookup
    ensures Handle(img, b, t, m1) == OnVarLookup(m1, Local(m1.cur, t.n), SlotIndex)
  {
    hide StepCalls, StepJumps, StepOperators, StepValues, StepFrames, StepArrays;
    hide OnFuncDec, OnFuncEnd, OnCall, OnVar, OnVarDec, OnVarLookup, OnVarDecLookup, OnAssign, OnAsLocal, OnGoto, OnIfGoto, OnIfGotoLabel, OnIfGotoCmp, OnForLoop, OnForLoopLabel, OnForLoopLocal, OnBin, OnTop, OnUnary, OnOpAssign, OnOpAsLocal, OnScopeClose, OnArrayBuild, OnPunt, OnPuntN, OnArrayIndex, OnClone, OnArrayLen, OnArrayPushIn, OnArrayPopOut, OnArrayPushBack, OnArrayPopBack, OnArrayConcat, OnArrayDelete, OnStringLiteral;
    hide Nth, Under, Load, Store, Slot, SetSlot, ForStep, ForBump, Truthy, CompareOp, Binary, ArrayOf, Pop, Back, Need, SetBack, SetArray, Enter, HppInterp.Clone, CloneAll, Reversed, AsRef, AsLabel, AsFunc, AsIntoInt, Valid;
  }

  lemma HandleAssign(img: Image, b: Builtin, t: Token, m1: Machine)
    requires t.kind == Assign
    ensures Handle(img, b, t, m1) == OnAssign(m1)
  {
    hide StepCalls, StepJumps, StepOperators, StepValues, StepFrames, StepArrays;
    hide OnFuncDec, OnFuncEnd, OnCall, OnVar, OnVarDec, OnVarLookup, OnVarDecLookup, OnAssign, OnAsLocal, OnGoto, OnIfGoto, OnIfGotoLabel, OnIfGotoCmp, OnForLoop, OnForLoopLabel, OnForLoopLocal, OnBin, OnTop, OnUnary, OnOpAssign, OnOpAsLocal, OnScopeClose, OnArrayBuild, OnPunt, OnPuntN, OnArrayIndex, OnClone, OnArrayLen, OnArrayPushIn, OnArrayPopOut, OnArrayPushBack, OnArrayPopBack, OnArrayConcat, OnArrayDelete, OnStringLiteral;
    hide Nth, Under, Load, Store, Slot, SetSlot, ForStep, ForBump, Truthy, CompareOp, Binary, ArrayOf, Pop, Back, Need, SetBack, SetArray, Enter, HppInterp.Clone, CloneAll, Reversed, AsRef, AsLabel, AsFunc, AsIntoInt, Valid;
  }

  lemma HandleAsLocal(img: Image, b: Builtin, t: Token, m1: Machine)
    requires t.kind == AsLocal
    ensures Handle(img, b, t, m1) == OnAsLocal(m1, t.n)
  {
    hide StepCalls, StepJumps, StepOperators, StepValues, StepFrames, StepArrays;
    hide OnFuncDec, OnFuncEnd, OnCall, OnVar, OnVarDec, OnVarLookup, OnVarDecLookup, OnAssign, OnAsLocal, OnGoto, OnIfGoto, OnIfGotoLabel, OnIfGotoCmp, OnForLoop, OnForLoopLabel, OnForLoopLocal, OnBin, OnTop, OnUnary, OnOpAssign, OnOpAsLocal, OnScopeClose, OnArrayBuild, OnPunt, OnPuntN, OnArrayIndex, OnClone, OnArrayLen, OnArrayPushIn, OnArrayPopOut, OnArrayPushBack, OnArrayPopBack, OnArrayConcat, OnArrayDelete, OnStringLiteral;
    hide Nth, Under, Load, Store, Slot, SetSlot, ForStep, ForBump, Truthy, CompareOp, Binary, ArrayOf, Pop, Back, Need, SetBack, SetArray, Enter, HppInterp.Clone, CloneAll, Reversed, AsRef, AsLabel, AsFunc, AsIntoInt, Valid;
  }

  lemma HandleLabelLookup(img: Image, b: Builtin, t: Token, m1: Machine)
    requires t.kind == LabelLookup
    ensures Handle(img, b, t, m1) == Ok(Push(m1, Label(t.n)))
  {
    hide StepCalls, StepVars, StepOperators, StepValues, StepFrames, StepArrays;
    hide OnFuncDec, OnFuncEnd, OnCall, OnVar, OnVarDec, OnVarLookup, OnVarDecLookup, OnAssign, OnAsLocal, OnGoto, OnIfGoto, OnIfGotoLabel, OnIfGotoCmp, OnForLoop, OnForLoopLabel, OnForLoopLocal, OnBin, OnTop, OnUnary, OnOpAssign, OnOpAsLocal, OnScopeClose, OnArrayBuild, OnPunt, OnPuntN, OnArrayIndex, OnClone, OnArrayLen, OnArrayPushIn, OnArrayPopOut, OnArrayPushBack, OnArrayPopBack, OnArrayConcat, OnArrayDelete, OnStringLiteral;
    hide Nth, Under, Load, Store, Slot, SetSlot, ForStep, ForBump, Truthy, CompareOp, Binary, ArrayOf, Pop, Back, Need, SetBack, SetArray, Enter, HppInterp.Clone, CloneAll, Reversed, AsRef, AsLabel, AsFunc, AsIntoInt, Valid;
  }

  lemma HandleGoto(img: Image, b: Builtin, t: Token, m1: Machine)
    requires t.kind == Goto
    ensures Handle(img, b, t, m1) == OnGoto(m1)
  {
    hide StepCalls, StepVars, StepOperators, StepValues, StepFrames, StepArrays;
    hide OnFuncDec, OnFuncEnd, OnCall, OnVar, OnVarDec, OnVarLookup, OnVarDecLookup, OnAssign, OnAsLocal, OnGoto, OnIfGoto, OnIfGotoLabel, OnIfGotoCmp, OnForLoop, OnForLoopLabel, OnForLoopLocal, OnBin, OnTop, OnUnary, OnOpAssign, OnOpAsLocal, OnScopeClose, OnArrayBuild, OnPunt, OnPuntN, OnArrayIndex, OnClone, OnArrayLen, OnArrayPushIn, OnArrayPopOut, OnArrayPushBack, OnArrayPopBack, OnArrayConcat, OnArrayDelete, OnStringLiteral;
    hide Nth, Under, Load, Store, Slot, SetSlot, ForStep, ForBump, Truthy, CompareOp, Binary, ArrayOf, Pop, Back, Need, SetBack, SetArray, Enter, HppInterp.Clone, CloneAll, Reversed, AsRef, AsLabel, AsFunc, AsIntoInt, Valid;
  }

  lemma HandleGotoLabel(img: Image, b: Builtin, t: Token, m1: Machine)
    requires t.kind == GotoLabel
    ensures Handle(img, b, t, m1) == Ok(m1.(pc := t.n))
  {
    hide StepCalls, StepVars, StepOperators, StepValues, StepFrames, StepArrays;
    hide OnFuncDec, OnFuncEnd, OnCall, OnVar, OnVarDec, OnVarLookup, OnVarDecLookup, OnAssign, OnAsLocal, OnGoto, OnIfGoto, OnIfGotoLabel, OnIfGotoCmp, OnForLoop, OnForLoopLabel, OnForLoopLocal, OnBin, OnTop, OnUnary, OnOpAssign, OnOpAsLocal, OnScopeClose, OnArrayBuild, OnPunt, OnPuntN, OnArrayIndex, OnClone, OnArrayLen, OnArrayPushIn, OnArrayPopOut, OnArrayPushBack, OnArrayPopBack, OnArrayConcat, OnArrayDelete, OnStringLiteral;
    hide Nth, Under, Load, Store, Slot, SetSlot, ForStep, ForBump, Truthy, CompareOp, Binary, ArrayOf, Pop, Back, Need, SetBack, SetArray, Enter, HppInterp.Clone, CloneAll, Reversed, AsRef, AsLabel, AsFunc, AsIntoInt, Valid;
  }

  lemma HandleIfGoto(img: Image, b: Builtin, t: Token, m1: Machine)
    requires t.kind == IfGoto
    ensures Handle(img, b, t, m1) == OnIfGoto(m1)
  {
    hide StepCalls, StepVars, StepOperators, StepValues, StepFrames, StepArrays;
    hide OnFuncDec, OnFuncEnd, OnCall, OnVar, OnVarDec, OnVarLookup, OnVarDecLookup, OnAssign, OnAsLocal, OnGoto, OnIfGoto, OnIfGotoLabel, OnIfGotoCmp, OnForLoop, OnForLoopLabel, OnForLoopLocal, OnBin, OnTop, OnUnary, OnOpAssign, OnOpAsLocal, OnScopeClose, OnArrayBuild, OnPunt, OnPuntN, OnArrayIndex, OnClone, OnArrayLen, OnArrayPushIn, OnArrayPopOut, OnArrayPushBack, OnArrayPopBack, OnArrayConcat, OnArrayDelete, OnStringLiteral;
    hide Nth, Under, Load, Store, Slot, SetSlot, ForStep, ForBump, Truthy, CompareOp, Binary, ArrayOf, Pop, Back, Need, SetBack, SetArray, Enter, HppInterp.Clone, CloneAll, Reversed, AsRef, AsLabel, AsFunc, AsIntoInt, Valid;
  }

  lemma HandleIfGotoLabel(img: Image, b: Builtin, t: Token, m1: Machine)
    requires t.kind == IfGotoLabel
    ensures Handle(img, b, t, m1) == OnIfGotoLabel(m1, t.n)
  {
    hide StepCalls, StepVars, StepOperators, StepValues, StepFrames, StepArrays;
    hide OnFuncDec, OnFuncEnd, OnCall, OnVar, OnVarDec, OnVarLookup, OnVarDecLookup, OnAssign, OnAsLocal, OnGoto, OnIfGoto, OnIfGotoLabel, OnIfGotoCmp, OnForLoop, OnForLoopLabel, OnForLoopLocal, OnBin, OnTop, OnUnary, OnOpAssign, OnOpAsLocal, OnScopeClose, OnArrayBuild, OnPunt, OnPuntN, OnArrayIndex, OnClone, OnArrayLen, OnArrayPushIn, OnArrayPopOut, OnArrayPushBack, OnArrayPopBack, OnArrayConcat, OnArrayDelete, OnStringLiteral;
    hide Nth, Under, Load, Store, Slot, SetSlot, ForStep, ForBump, Truthy, CompareOp, Binary, ArrayOf, Pop, Back, Need, SetBack, SetArray, Enter, HppInterp.Clone, CloneAll, Reversed, AsRef, AsLabel, AsFunc, AsIntoInt, Valid;
  }

  lemma HandleIfGotoLabelCmp(img: Image, b: Builtin, t: Token, m1: Machine)
    requires t.kind.IfGotoLabelCmp?
    ensures Handle(img, b, t, m1) == OnIfGotoCmp(m1, t.kind.c, t.n)
  {
    hide StepCalls, StepVars, StepOperators, StepValues, StepFrames, StepArrays;
    hide OnFuncDec, OnFuncEnd, OnCall, OnVar, OnVarDec, OnVarLookup, OnVarDecLookup, OnAssign, OnAsLocal, OnGoto, OnIfGoto, OnIfGotoLabel, OnIfGotoCmp, OnForLoop, OnForLoopLabel, OnForLoopLocal, OnBin, OnTop, OnUnary, OnOpAssign, OnOpAsLocal, OnScopeClose, OnArrayBuild, OnPunt, OnPuntN, OnArrayIndex, OnClone, OnArrayLen, OnArrayPushIn, OnArrayPopOut, OnArrayPushBack, OnArrayPopBack, OnArrayConcat, OnArrayDelete, OnStringLiteral;
    hide Nth, Under, Load, Store, Slot, SetSlot, ForStep, ForBump, Truthy, CompareOp, Binary, ArrayOf, Pop, Back, Need, SetBack, SetArray, Enter, HppInterp.Clone, CloneAll, Reversed, AsRef, AsLabel, AsFunc, AsIntoInt, Valid;
  }

  lemma HandleForLoop(img: Image, b: Builtin, t: Token, m1: Machine)
    requires t.kind == ForLoop
    ensures Handle(img, b, t, m1) == OnForLoop(m1)
  {
    hide StepCalls, StepVars, StepOperators, StepValues, StepFrames, StepArrays;
    hide OnFuncDec, OnFuncEnd, OnCall, OnVar, OnVarDec, OnVarLookup, OnVarDecLookup, OnAssign, OnAsLocal, OnGoto, OnIfGoto, OnIfGotoLabel, OnIfGotoCmp, OnForLoop, OnForLoopLabel, OnForLoopLocal, OnBin, OnTop, OnUnary, OnOpAssign, OnOpAsLocal, OnScopeClose, OnArrayBuild, OnPunt, OnPuntN, OnArrayIndex, OnClone, OnArrayLen, OnArrayPushIn, OnArrayPopOut, OnArrayPushBack, OnArrayPopBack, OnArrayConcat, OnArrayDelete, OnStringLiteral;
    hide Nth, Under, Load, Store, Slot, SetSlot, ForStep, ForBump, Truthy, CompareOp, Binary, ArrayOf, Pop, Back, Need, SetBack, SetArray, Enter, HppInterp.Clone, CloneAll, Reversed, AsRef, AsLabel, AsFunc, AsIntoInt, Valid;
  }

  lemma HandleForLoopLabel(img: Image, b: Builtin, t: Token, m1: Machine)
    requires t.kind == ForLoopLabel
    ensures Handle(img, b, t, m1) == OnForLoopLabel(m1, t.n)
  {
    hide StepCalls, StepVars, StepOperators, StepValues, StepFrames, StepArrays;
    hide OnFuncDec, OnFuncEnd, OnCall, OnVar, OnVarDec, OnVarLookup, OnVarDecLookup, OnAssign, OnAsLocal, OnGoto, OnIfGoto, OnIfGotoLabel, OnIfGotoCmp, OnForLoop, OnForLoopLabel, OnForLoopLocal, OnBin, OnTop, OnUnary, OnOpAssign, OnOpAsLocal, OnScopeClose, OnArrayBuild, OnPunt, OnPuntN, OnArrayIndex, OnClone, OnArrayLen, OnArrayPushIn, OnArrayPopOut, OnArrayPushBack, OnArrayPopBack, OnArrayConcat, OnArrayDelete, OnStringLiteral;
    hide Nth, Under, Load, Store, Slot, SetSlot, ForStep, ForBump, Truthy, CompareOp, Binary, ArrayOf, Pop, Back, Need, SetBack, SetArray, Enter, HppInterp.Clone, CloneAll, Reversed, AsRef, AsLabel, AsFunc, AsIntoInt, Valid;
  }

  lemma HandleForLoopLocal(img: Image, b: Builtin, t: Token, m1: Machine)
    requires t.kind == ForLoopLocal
    ensures Handle(img, b, t, m1) == OnForLoopLocal(m1, t.x1, t.x2, t.n)
  {
    hide StepCalls, StepVars, StepOperators, StepValues, StepFrames, StepArrays;
    hide OnFuncDec, OnFuncEnd, OnCall, OnVar, OnVarDec, OnVarLookup, OnVarDecLookup, OnAssign, OnAsLocal, OnGoto, OnIfGoto, OnIfGotoLabel, OnIfGotoCmp, OnForLoop, OnForLoopLabel, OnForLoopLocal, OnBin, OnTop, OnUnary, OnOpAssign, OnOpAsLocal, OnScopeClose, OnArrayBuild, OnPunt, OnPuntN, OnArrayIndex, OnClone, OnArrayLen, OnArrayPushIn, OnArrayPopOut, OnArrayPushBack, OnArrayPopBack, OnArrayConcat, OnArrayDelete, OnStringLiteral;
    hide Nth, Under, Load, Store, Slot, SetSlot, ForStep, ForBump, Truthy, CompareOp, Binary, ArrayOf, Pop, Back, Need, SetBack, SetArray, Enter, HppInterp.Clone, CloneAll, Reversed, AsRef, AsLabel, AsFunc, AsIntoInt, Valid;
  }

  lemma HandleBin(img: Image, b: Builtin, t: Token, m1: Machine)
    requires t.kind.Bin?
    ensures Handle(img, b, t, m1) == OnBin(m1, t.kind.op)
  {
    hide StepCalls, StepVars, StepJumps, StepValues, StepFrames, StepArrays;
    hide OnFuncDec, OnFuncEnd, OnCall, OnVar, OnVarDec, OnVarLookup, OnVarDecLookup, OnAssign, OnAsLocal, OnGoto, OnIfGoto, OnIfGotoLabel, OnIfGotoCmp, OnForLoop, OnForLoopLabel, OnForLoopLocal, OnBin, OnTop, OnUnary, OnOpAssign, OnOpAsLocal, OnScopeClose, OnArrayBuild, OnPunt, OnPuntN, OnArrayIndex, OnClone, OnArrayLen, OnArrayPushIn, OnArrayPopOut, OnArrayPushBack, OnArrayPopBack, OnArrayConcat, OnArrayDelete, OnStringLiteral;
    hide Nth, Under, Load, Store, Slot, SetSlot, ForStep, ForBump, Truthy, CompareOp, Binary, ArrayOf, Pop, Back, Need, SetBack, SetArray, Enter, HppInterp.Clone, CloneAll, Reversed, AsRef, AsLabel, AsFunc, AsIntoInt, Valid;
  }

  lemma HandleOpIntInline(img: Image, b: Builtin, t: Token, m1: Machine)
    requires t.kind.OpIntInline?
    ensures Handle(img, b, t, m1) == OnTop(m1, ArithOp(t.kind.a), Int(SignExtend32(t.n % TWO_32)))
  {
    hide StepCalls, StepVars, StepJumps, StepValues, StepFrames, StepArrays;
    hide OnFuncDec, OnFuncEnd, OnCall, OnVar, OnVarDec, OnVarLookup, OnVarDecLookup, OnAssign, OnAsLocal, OnGoto, OnIfGoto, OnIfGotoLabel, OnIfGotoCmp, OnForLoop, OnForLoopLabel, OnForLoopLocal, OnBin, OnTop, OnUnary, OnOpAssign, OnOpAsLocal, OnScopeClose, OnArrayBuild, OnPunt, OnPuntN, OnArrayIndex, OnClone, OnArrayLen, OnArrayPushIn, OnArrayPopOut, OnArrayPushBack, OnArrayPopBack, OnArrayConcat, OnArrayDelete, OnStringLiteral;
    hide Nth, Under, Load, Store, Slot, SetSlot, ForStep, ForBump, Truthy, CompareOp, Binary, ArrayOf, Pop, Back, Need, SetBack, SetArray, Enter, HppInterp.Clone, CloneAll, Reversed, AsRef, AsLabel, AsFunc, AsIntoInt, Valid;
  }

  lemma HandleOpDubInline(img: Image, b: Builtin, t: Token, m1: Machine)
    requires t.kind.OpDubInline?
    ensures Handle(img, b, t, m1) == OnTop(m1, ArithOp(t.kind.a), Dbl)
  {
    hide StepCalls, StepVars, StepJumps, StepValues, StepFrames, StepArrays;
    hide OnFuncDec, OnFuncEnd, OnCall, OnVar, OnVarDec, OnVarLookup, OnVarDecLookup, OnAssign, OnAsLocal, OnGoto, OnIfGoto, OnIfGotoLabel, OnIfGotoCmp, OnForLoop, OnForLoopLabel, OnForLoopLocal, OnBin, OnTop, OnUnary, OnOpAssign, OnOpAsLocal, OnScopeClose, OnArrayBuild, OnPunt, OnPuntN, OnArrayIndex, OnClone, OnArrayLen, OnArrayPushIn, OnArrayPopOut, OnArrayPushBack, OnArrayPopBack, OnArrayConcat, OnArrayDelete, OnStringLiteral;
    hide Nth, Under, Load, Store, Slot, SetSlot, ForStep, ForBump, Truthy, CompareOp, Binary, ArrayOf, Pop, Back, Need, SetBack, SetArray, Enter, HppInterp.Clone, CloneAll, Reversed, AsRef, AsLabel, AsFunc, AsIntoInt, Valid;
  }

  lemma HandleOpAssign(img: Image, b: Builtin, t: Token, m1: Machine)
    requires t.kind.OpAssign?
    ensures Handle(img, b, t, m1) == OnOpAssign(m1, t.kind.a)
  {
    hide StepCalls, StepVars, StepJumps, StepValues, StepFrames, StepArrays;
    hide OnFuncDec, OnFuncEnd, OnCall, OnVar, OnVarDec, OnVarLookup, OnVarDecLookup, OnAssign, OnAsLocal, OnGoto, OnIfGoto, OnIfGotoLabel, OnIfGotoCmp, OnForLoop, OnForLoopLabel, OnForLoopLocal, OnBin, OnTop, OnUnary, OnOpAssign, OnOpAsLocal, OnScopeClose, OnArrayBuild, OnPunt, OnPuntN, OnArrayIndex, OnClone, OnArrayLen, OnArrayPushIn, OnArrayPopOut, OnArrayPushBack, OnArrayPopBack, OnArrayConcat, OnArrayDelete, OnStringLiteral;
    hide Nth, Under, Load, Store, Slot, SetSlot, ForStep, ForBump, Truthy, CompareOp, Binary, ArrayOf, Pop, Back, Need, SetBack, SetArray, Enter, HppInterp.Clone, CloneAll, Reversed, AsRef, AsLabel, AsFunc, AsIntoInt, Valid;
  }

  lemma HandleOpAsLocal(img: Image, b: Builtin, t: Token, m1: Machine)
    requires t.kind.OpAsLocal?
    ensures Handle(img, b, t, m1) == OnOpAsLocal(m1, t.kind.a, t.n)
  {
    hide StepCalls, StepVars, StepJumps, StepValues, StepFrames, StepArrays;
    hide OnFuncDec, OnFuncEnd, OnCall, OnVar, OnVarDec, OnVarLookup, OnVarDecLookup, OnAssign, OnAsLocal, OnGoto, OnIfGoto, OnIfGotoLabel, OnIfGotoCmp, OnForLoop, OnForLoopLabel, OnForLoopLocal, OnBin, OnTop, OnUnary, OnOpAssign, OnOpAsLocal, OnScopeClose, OnArrayBuild, OnPunt, OnPuntN, OnArrayIndex, OnClone, OnArrayLen, OnArrayPushIn, OnArrayPopOut, OnArrayPushBack, OnArrayPopBack, OnArrayConcat, OnArrayDelete, OnStringLiteral;
    hide Nth, Under, Load, Store, Slot, SetSlot, ForStep, ForBump, Truthy, CompareOp, Binary, ArrayOf, Pop, Back, Need, SetBack, SetArray, Enter, HppInterp.Clone, CloneAll, Reversed, AsRef, AsLabel, AsFunc, AsIntoInt, Valid;
  }

  /** The four integer literal kinds push the value their immediate or table entry decodes to. */
  lemma HandleInteger(img: Image, b: Builtin, t: Token, m1: Machine)
    requires t.kind.IntegerInline? || t.kind.IntegerInlineBigDec? || t.kind.IntegerInlineBigBin? || t.kind.Integer?
    ensures Handle(img, b, t, m1) == (var v :- LitValue(img, LitOf(t)); Ok(Push(m1, Int(v))))
  {
    hide StepCalls, StepVars, StepJumps, StepOperators, StepFrames, StepArrays;
    hide OnFuncDec, OnFuncEnd, OnCall, OnVar, OnVarDec, OnVarLookup, OnVarDecLookup, OnAssign, OnAsLocal, OnGoto, OnIfGoto, OnIfGotoLabel, OnIfGotoCmp, OnForLoop, OnForLoopLabel, OnForLoopLocal, OnBin, OnTop, OnUnary, OnOpAssign, OnOpAsLocal, OnScopeClose, OnArrayBuild, OnPunt, OnPuntN, OnArrayIndex, OnClone, OnArrayLen, OnArrayPushIn, OnArrayPopOut, OnArrayPushBack, OnArrayPopBack, OnArrayConcat, OnArrayDelete, OnStringLiteral;
    hide Nth, Under, Load, Store, Slot, SetSlot, ForStep, ForBump, Truthy, CompareOp, Binary, ArrayOf, Pop, Back, Need, SetBack, SetArray, Enter, HppInterp.Clone, CloneAll, Reversed, AsRef, AsLabel, AsFunc, AsIntoInt, Valid;
  }

  lemma HandleDoubleInline(img: Image, b: Builtin, t: Token, m1: Machine)
    requires t.kind == DoubleInline
    ensures Handle(img, b, t, m1) == Ok(Push(m1, Dbl))
  {
    hide StepCalls, StepVars, StepJumps, StepOperators, StepFrames, StepArrays;
    hide OnFuncDec, OnFuncEnd, OnCall, OnVar, OnVarDec, OnVarLookup, OnVarDecLookup, OnAssign, OnAsLocal, OnGoto, OnIfGoto, OnIfGotoLabel, OnIfGotoCmp, OnForLoop, OnForLoopLabel, OnForLoopLocal, OnBin, OnTop, OnUnary, OnOpAssign, OnOpAsLocal, OnScopeClose, OnArrayBuild, OnPunt, OnPuntN, OnArrayIndex, OnClone, OnArrayLen, OnArrayPushIn, OnArrayPopOut, OnArrayPushBack, OnArrayPopBack, OnArrayConcat, OnArrayDelete, OnStringLiteral;
    hide Nth, Under, Load, Store, Slot, SetSlot, ForStep, ForBump, Truthy, CompareOp, Binary, ArrayOf, Pop, Back, Need, SetBack, SetArray, Enter, HppInterp.Clone, CloneAll, Reversed, AsRef, AsLabel, AsFunc, AsIntoInt, Valid;
  }

  lemma HandleScopeOpen(img: Image, b: Builtin, t: Token, m1: Machine)
    requires t.kind == ScopeOpen
    ensures Handle(img, b, t, m1) == Ok(m1.(evalstacks := m1.evalstacks + [m1.evalstack], evalstack := []))
  {
    hide StepCalls, StepVars, StepJumps, StepOperators, StepValues, StepArrays;
    hide OnFuncDec, OnFuncEnd, OnCall, OnVar, OnVarDec, OnVarLookup, OnVarDecLookup, OnAssign, OnAsLocal, OnGoto, OnIfGoto, OnIfGotoLabel, OnIfGotoCmp, OnForLoop, OnForLoopLabel, OnForLoopLocal, OnBin, OnTop, OnUnary, OnOpAssign, OnOpAsLocal, OnScopeClose, OnArrayBuild, OnPunt, OnPuntN, OnArrayIndex, OnClone, OnArrayLen, OnArrayPushIn, OnArrayPopOut, OnArrayPushBack, OnArrayPopBack, OnArrayConcat, OnArrayDelete, OnStringLiteral;
    hide Nth, Under, Load, Store, Slot, SetSlot, ForStep, ForBump, Truthy, CompareOp, Binary, ArrayOf, Pop, Back, Need, SetBack, SetArray, Enter, HppInterp.Clone, CloneAll, Reversed, AsRef, AsLabel, AsFunc, AsIntoInt, Valid;
  }

  lemma HandleArrayBuild(img: Image, b: Builtin, t: Token, m1: Machine)
    requires t.kind == ArrayBuild
    ensures Handle(img, b, t, m1) == OnArrayBuild(m1)
  {
    hide StepCalls, StepVars, StepJumps, StepOperators, StepValues, StepArrays;
    hide OnFuncDec, OnFuncEnd, OnCall, OnVar, OnVarDec, OnVarLookup, OnVarDecLookup, OnAssign, OnAsLocal, OnGoto, OnIfGoto, OnIfGotoLabel, OnIfGotoCmp, OnForLoop, OnForLoopLabel, OnForLoopLocal, OnBin, OnTop, OnUnary, OnOpAssign, OnOpAsLocal, OnScopeClose, OnArrayBuild, OnPunt, OnPuntN, OnArrayIndex, OnClone, OnArrayLen, OnArrayPushIn, OnArrayPopOut, OnArrayPushBack, OnArrayPopBack, OnArrayConcat, OnArrayDelete, OnStringLiteral;
    hide Nth, Under, Load, Store, Slot, SetSlot, ForStep, ForBump, Truthy, CompareOp, Binary, ArrayOf, Pop, Back, Need, SetBack, SetArray, Enter, HppInterp.Clone, CloneAll, Reversed, AsRef, AsLabel, AsFunc, AsIntoInt, Valid;
  }

  lemma HandleArrayEmptyLit(img: Image, b: Builtin, t: Token, m1: Machine)
    requires t.kind == ArrayEmptyLit
    ensures Handle(img, b, t, m1) == Ok(Push(m1.(arrays := m1.arrays + [[]]), Array(|m1.arrays|)))
  {
    hide StepCalls, StepVars, StepJumps, StepOperators, StepValues, StepFrames;
    hide OnFuncDec, OnFuncEnd, OnCall, OnVar, OnVarDec, OnVarLookup, OnVarDecLookup, OnAssign, OnAsLocal, OnGoto, OnIfGoto, OnIfGotoLabel, OnIfGotoCmp, OnForLoop, OnForLoopLabel, OnForLoopLocal, OnBin, OnTop, OnUnary, OnOpAssign, OnOpAsLocal, OnScopeClose, OnArrayBuild, OnPunt, OnPuntN, OnArrayIndex, OnClone, OnArrayLen, OnArrayPushIn, OnArrayPopOut, OnArrayPushBack, OnArrayPopBack, OnArrayConcat, OnArrayDelete, OnStringLiteral;
    hide Nth, Under, Load, Store, Slot, SetSlot, ForStep, ForBump, Truthy, CompareOp, Binary, ArrayOf, Pop, Back, Need, SetBack, SetArray, Enter, HppInterp.Clone, CloneAll, Reversed, AsRef, AsLabel, AsFunc, AsIntoInt, Valid;
  }

  // ----- straight-line execution -----

  /** Run the handlers of `ts` one after the other, as straight-line code at `m.pc`. */
  function Exec(img: Image, b: Builtin, ts: seq<Token>, m: Machine): (r: Result<Machine, Fault>)
    decreases |ts|
  {
    if ts == [] then Ok(m)
    else
      var m1 :- Handle(img, b, ts[0], m.(pc := m.pc + 1));
      Exec(img, b, ts[1..], m1)
  }

  /** Two machines that differ at most in `pc`. */
  predicate SameBut(a: Machine, b: Machine) {
    a == b.(pc := a.pc)
  }

  /**
    `fused` does what `ts` does: both fail or both succeed, and then they
    leave the same machine, either both falling through past their own
    tokens or both at the same jump target.
   */
  predicate Simulates(img: Image, b: Builtin, ts: seq<Token>, fused: Token, m: Machine) {
    var r1, r2 := Exec(img, b, ts, m), Exec(img, b, [fused], m);
    && (r1.Ok? <==> r2.Ok?)
    && (r1.Ok? ==> SameBut(r1.value, r2.value)
                   && ((r1.value.pc == m.pc + |ts| && r2.value.pc == m.pc + 1) || r1.value.pc == r2.value.pc))
  }

  lemma ExecOne(img: Image, b: Builtin, t: Token, m: Machine)
    ensures Exec(img, b, [t], m) == Handle(img, b, t, m.(pc := m.pc + 1))
  {
    hide Handle;
    assert [t][1..] == [];
  }

  /** Two tokens run as the first, then the second. */
  lemma ExecTwo(img: Image, b: Builtin, t1: Token, t2: Token, m: Machine)
    ensures Exec(img, b, [t1, t2], m)
         == (var m1 :- Handle(img, b, t1, m.(pc := m.pc + 1)); Handle(img, b, t2, m1.(pc := m1.pc + 1)))
  {
    hide Handle;
    assert [t1, t2][1..] == [t2];
    var r := Handle(img, b, t1, m.(pc := m.pc + 1));
    if r.Ok? {
      ExecOne(img, b, t2, r.value);
    }
  }

  /** Three tokens run in order. */
  lemma ExecThree(img: Image, b: Builtin, t1: Token, t2: Token, t3: Token, m: Machine)
    ensures Exec(img, b, [t1, t2, t3], m)
         == (var m1 :- Handle(img, b, t1, m.(pc := m.pc + 1)); Exec(img, b, [t2, t3], m1))
  {
    hide Handle;
    assert [t1, t2, t3][1..] == [t2, t3];
  }

  // ----- the peephole rewrites run like the tokens they replace -----

  /** `IntegerInline k; <arith>` and the fused `<arith>IntInline k` (flinch.hpp:685-690). */
  lemma IntInlineFusion(img: Image, b: Builtin, t1: Token, t2: Token, m: Machine)
    requires t1.kind == IntegerInline && t2.kind.Bin? && t2.kind.op.ArithOp?
    ensures Simulates(img, b, [t1, t2], t1.(kind := OpIntInline(t2.kind.op.a)), m)
  {
    hide Handle, Exec;
    var f := t1.(kind := OpIntInline(t2.kind.op.a));
    var m1 := m.(pc := m.pc + 1);
    ExecTwo(img, b, t1, t2, m);
    ExecOne(img, b, f, m);
    HandleInteger(img, b, t1, m1);
    HandleOpIntInline(img, b, f, m1);
    var m2 := Push(m1, Int(SignExtend32(t1.n % TWO_32)));
    HandleBin(img, b, t2, m2.(pc := m2.pc + 1));
  }

  /** `DoubleInline k; <arith>` and the fused `<arith>DubInline k` (flinch.hpp:691-696). */
  lemma DubInlineFusion(img: Image, b: Builtin, t1: Token, t2: Token, m: Machine)
    requires t1.kind == DoubleInline && t2.kind.Bin? && t2.kind.op.ArithOp?
    ensures Simulates(img, b, [t1, t2], t1.(kind := OpDubInline(t2.kind.op.a)), m)
  {
    hide Handle, Exec;
    var f := t1.(kind := OpDubInline(t2.kind.op.a));
    var m1 := m.(pc := m.pc + 1);
    ExecTwo(img, b, t1, t2, m);
    ExecOne(img, b, f, m);
    HandleDoubleInline(img, b, t1, m1);
    HandleOpDubInline(img, b, f, m1);
    var m2 := Push(m1, Dbl);
    HandleBin(img, b, t2, m2.(pc := m2.pc + 1));
  }

  /** `LocalVarLookup v; <arith>=` and the fused `<arith>AsLocal v` (flinch.hpp:697-702). */
  lemma OpAsLocalFusion(img: Image, b: Builtin, t1: Token, t2: Token, m: Machine)
    requires t1.kind == LocalVarLookup && t2.kind.OpAssign?
    ensures Simulates(img, b, [t1, t2], t1.(kind := OpAsLocal(t2.kind.a)), m)
  {
    hide Handle, Exec;
    hide ForStep, ForBump, Truthy, CompareOp, Binary, ArrayOf, Nth, Under, Load, Store, Slot, SetSlot, OnVarLookup, OnOpAssign, OnOpAsLocal;
    var f := t1.(kind := OpAsLocal(t2.kind.a));
    var m1 := m.(pc := m.pc + 1);
    ExecTwo(img, b, t1, t2, m);
    ExecOne(img, b, f, m);
    HandleLocalVarLookup(img, b, t1, m1);
    HandleOpAsLocal(img, b, f, m1);
    OpAsLocalHandlers(m1, t2.kind.a, t1.n, m1.pc + 1);
    var m2 := Push(m1, Ref(Local(m1.cur, t1.n)));
    HandleOpAssign(img, b, t2, m2.(pc := m2.pc + 1));
  }

  /** The handlers behind `OpAsLocalFusion`: a local reference pushed and updated through
      leaves what `<op>AsLocal` leaves, whatever the program counter in between. */
  lemma OpAsLocalHandlers(m1: Machine, a: Arith, n: nat, pc2: int)
    ensures var l := OnVarLookup(m1, Local(m1.cur, n), SlotIndex);
            (l.Ok? && OnOpAssign(l.value.(pc := pc2), a).Ok?) <==> OnOpAsLocal(m1, a, n).Ok?
    ensures OnOpAsLocal(m1, a, n).Ok? ==>
              OnOpAssign(OnVarLookup(m1, Local(m1.cur, n), SlotIndex).value.(pc := pc2), a).value
                == OnOpAsLocal(m1, a, n).value.(pc := pc2)
              && OnOpAsLocal(m1, a, n).value.pc == m1.pc
  {
    hide ForStep, ForBump, Truthy, CompareOp, ArrayOf, Back, SetBack, SetArray, Enter, HppInterp.Clone, CloneAll, Reversed, AsLabel, AsFunc, AsIntoInt, Nth, Under;
    var p := Local(m1.cur, n);
    if Valid(m1, p) && |m1.evalstack| > 0 {
      var k := |m1.evalstack| - 1;
      var x := m1.evalstack[k];
      var m3 := m1.(evalstack := m1.evalstack[..k]);
      var m2 := m1.(evalstack := m1.evalstack + [Ref(p)], pc := pc2);
      assert OnVarLookup(m1, p, SlotIndex) == Ok(m2.(pc := m1.pc));
      assert m1.evalstack == m3.evalstack + [x];
      assert Pop(m2) == Ok((Ref(p), m1.(pc := pc2)));
      assert Pop(m1.(pc := pc2)) == Ok((x, m3.(pc := pc2)));
      assert Pop(m1) == Ok((x, m3));
      var v := Slot(m3, n).value;
      assert Load(m3.(pc := pc2), p) == Ok(v);
      hide Pop;
      assert OnOpAssign(m2, a) == (var w :- Binary(ArithOp(a), v, x); Store(m3.(pc := pc2), p, w));
      assert OnOpAsLocal(m1, a, n) == (var w :- Binary(ArithOp(a), v, x); SetSlot(m3, n, w));
    }
  }

  /** `LocalVarLookup v; Assign` and the fused `AsLocal v` (flinch.hpp:703-708). */
  lemma AsLocalFusion(img: Image, b: Builtin, t1: Token, t2: Token, m: Machine)
    requires t1.kind == LocalVarLookup && t2.kind == Assign
    ensures Simulates(img, b, [t1, t2], t1.(kind := AsLocal), m)
  {
    hide Handle, Exec;
    hide ForStep, ForBump, Truthy, CompareOp, Binary, ArrayOf, Nth, Under, Load, Store, Slot, SetSlot, OnVarLookup, OnAssign, OnAsLocal;
    var m1 := m.(pc := m.pc + 1);
    AsLocalRuns(img, b, t1, t2, m);
    AsLocalHandlers(m1, t1.n, m1.pc + 1);
  }

  /** The unfused pair and the fused `AsLocal` as handler calls. */
  lemma AsLocalRuns(img: Image, b: Builtin, t1: Token, t2: Token, m: Machine)
    requires t1.kind == LocalVarLookup && t2.kind == Assign
    ensures var m1 := m.(pc := m.pc + 1);
            Exec(img, b, [t1, t2], m)
              == (var a :- OnVarLookup(m1, Local(m1.cur, t1.n), SlotIndex); OnAssign(a.(pc := m1.pc + 1)))
    ensures Exec(img, b, [t1.(kind := AsLocal)], m) == OnAsLocal(m.(pc := m.pc + 1), t1.n)
  {
    hide Handle, Exec;
    hide ForStep, ForBump, Truthy, CompareOp, Binary, ArrayOf, Nth, Under, Load, Store, Slot, SetSlot, OnVarLookup, OnAssign, OnAsLocal;
    var f := t1.(kind := AsLocal);
    var m1 := m.(pc := m.pc + 1);
    ExecTwo(img, b, t1, t2, m);
    ExecOne(img, b, f, m);
    HandleLocalVarLookup(img, b, t1, m1);
    HandleAsLocal(img, b, f, m1);
    var a := OnVarLookup(m1, Local(m1.cur, t1.n), SlotIndex);
    if a.Ok? {
      HandleAssign(img, b, t2, a.value.(pc := a.value.pc + 1));
    }
  }


  /** The handlers behind `AsLocalFusion`: a local reference pushed and assigned through
      stores what `AsLocal` stores, whatever the program counter in between. */
  lemma AsLocalHandlers(m1: Machine, n: nat, pc2: int)
    ensures var a := OnVarLookup(m1, Local(m1.cur, n), SlotIndex);
            (a.Ok? && OnAssign(a.value.(pc := pc2)).Ok?) <==> OnAsLocal(m1, n).Ok?
    ensures OnAsLocal(m1, n).Ok? ==>
              OnAssign(OnVarLookup(m1, Local(m1.cur, n), SlotIndex).value.(pc := pc2)).value
                == OnAsLocal(m1, n).value.(pc := pc2)
              && OnAsLocal(m1, n).value.pc == m1.pc
  {
    hide ForStep, ForBump, Truthy, CompareOp, Binary, ArrayOf, Back, SetBack, SetArray, Enter, HppInterp.Clone, CloneAll, Reversed, AsLabel, AsFunc, AsIntoInt;
  }

  /** `LabelLookup d; Goto` and `GotoLabel d`: the jump fusion as the corrected fuser makes it. */
  lemma LabelGotoFusion(img: Image, b: Builtin, t1: Token, t2: Token, m: Machine)
    requires t1.kind == LabelLookup && t2.kind == Goto
    ensures Simulates(img, b, [t1, t2], t1.(kind := GotoLabel), m)
  {
    hide Handle, Exec;
    var f := t1.(kind := GotoLabel);
    var m1 := m.(pc := m.pc + 1);
    ExecTwo(img, b, t1, t2, m);
    ExecOne(img, b, f, m);
    HandleLabelLookup(img, b, t1, m1);
    HandleGotoLabel(img, b, f, m1);
    var m2 := Push(m1, Label(t1.n));
    HandleGoto(img, b, t2, m2.(pc := m2.pc + 1));
  }

  /** `LabelLookup d; IfGoto` and `IfGotoLabel d`: the conditional jump fusion of the corrected fuser. */
  lemma LabelIfGotoFusion(img: Image, b: Builtin, t1: Token, t2: Token, m: Machine)
    requires t1.kind == LabelLookup && t2.kind == IfGoto
    ensures Simulates(img, b, [t1, t2], t1.(kind := IfGotoLabel), m)
  {
    hide Handle, Exec, OnIfGoto, OnIfGotoLabel;
    hide ForStep, ForBump, CompareOp, Binary, ArrayOf, Load, Store, Slot, SetSlot;
    var f := t1.(kind := IfGotoLabel);
    var m1 := m.(pc := m.pc + 1);
    ExecTwo(img, b, t1, t2, m);
    ExecOne(img, b, f, m);
    HandleLabelLookup(img, b, t1, m1);
    HandleIfGotoLabel(img, b, f, m1);
    var m2 := Push(m1, Label(t1.n));
    HandleIfGoto(img, b, t2, m2.(pc := m2.pc + 1));
    IfGotoAfterLabel(m1, t1.n, m2.pc + 1);
    assert Exec(img, b, [t1, t2], m) == OnIfGoto(m2.(pc := m2.pc + 1));
    assert Exec(img, b, [f], m) == OnIfGotoLabel(m1, t1.n);
    assert m2.pc + 1 == m.pc + |[t1, t2]|;
  }

  /** Popping a just-pushed label and jumping on the value under it is `OnIfGotoLabel` with that label. */
  lemma IfGotoAfterLabel(m1: Machine, n: nat, q: int)
    ensures var r1, r2 := OnIfGoto(Push(m1, Label(n)).(pc := q)), OnIfGotoLabel(m1, n);
            && (r1.Ok? <==> r2.Ok?)
            && (r1.Ok? ==> SameBut(r1.value, r2.value) && ((r1.value.pc == q && r2.value.pc == m1.pc) || r1.value.pc == r2.value.pc))
  {
    var m2 := Push(m1, Label(n)).(pc := q);
    if |m1.evalstack| > 0 {
      assert Under(m2, 2) == Under(m1, 1) by {
        assert m2.evalstack == m1.evalstack + [Label(n)];
      }
    }
  }

  /**
    The goto fusion as written: `$x goto` pushes a reference, which `Goto`
    refuses as a label, while the fused `GotoLabel x` jumps to the index
    `x`, a variable id.
   */
  lemma VarGotoFusion(img: Image, b: Builtin, t1: Token, t2: Token, m: Machine)
    requires t1.kind == LocalVarLookup && t2.kind == Goto
    requires Valid(m, Local(m.cur, t1.n))
    ensures Exec(img, b, [t1, t2], m) == Err(Thrown(NotALabel))
    ensures Exec(img, b, [t1.(kind := GotoLabel)], m) == Ok(m.(pc := t1.n))
    ensures !Simulates(img, b, [t1, t2], t1.(kind := GotoLabel), m)
  {
    hide Handle, Exec;
    VarGotoPair(img, b, t1, t2, m);
    ExecOne(img, b, t1.(kind := GotoLabel), m);
    HandleGotoLabel(img, b, t1.(kind := GotoLabel), m.(pc := m.pc + 1));
  }

  /** `$x goto` fails: `Goto` finds a reference where it needs a label. */
  lemma VarGotoPair(img: Image, b: Builtin, t1: Token, t2: Token, m: Machine)
    requires t1.kind == LocalVarLookup && t2.kind == Goto
    requires Valid(m, Local(m.cur, t1.n))
    ensures Exec(img, b, [t1, t2], m) == Err(Thrown(NotALabel))
  {
    hide Handle, Exec, OnGoto, OnVarLookup;
    hide ForStep, ForBump, Truthy, CompareOp, Binary, ArrayOf, Load, Store, Slot, SetSlot;
    var m1 := m.(pc := m.pc + 1);
    var p := Local(m1.cur, t1.n);
    ExecTwo(img, b, t1, t2, m);
    HandleLocalVarLookup(img, b, t1, m1);
    var m2 := Push(m1, Ref(p));
    HandleGoto(img, b, t2, m2.(pc := m2.pc + 1));
    GotoOnRef(m2.(pc := m2.pc + 1), p);
  }

  /** `Goto` with a reference on top throws: a reference is not a label. */
  lemma GotoOnRef(m: Machine, p: Place)
    requires |m.evalstack| > 0 && Nth(m, 0) == Ref(p)
    ensures OnGoto(m) == Err(Thrown(NotALabel))
  {
  }



  /** The for-loop tail reads and writes nothing that depends on `pc`, except where it falls through to. */
  lemma ForStepPc(m: Machine, q: int, dest: int)
    ensures var r1, r2 := ForStep(m, dest), ForStep(m.(pc := q), dest);
            && (r1.Ok? <==> r2.Ok?)
            && (r1.Ok? ==> SameBut(r1.value, r2.value)
                           && ((r1.value.pc == m.pc && r2.value.pc == q) || r1.value.pc == r2.value.pc == dest))
  {
    var mq := m.(pc := q);
    if |m.evalstack| >= 2 {
      var (num, m1) := Pop(m).value;
      var (rv, m2) := Pop(m1).value;
      assert Pop(mq) == Ok((num, m1.(pc := q)));
      assert Pop(m1.(pc := q)) == Ok((rv, m2.(pc := q)));
      if rv.Ref? {
        ForBumpPc(m2, q, rv.p, num, dest);
      }
    }
  }

  lemma ForBumpPc(m: Machine, q: int, p: Place, num: V, dest: int)
    ensures var r1, r2 := ForBump(m, p, num, dest), ForBump(m.(pc := q), p, num, dest);
            && (r1.Ok? <==> r2.Ok?)
            && (r1.Ok? ==> SameBut(r1.value, r2.value)
                           && ((r1.value.pc == m.pc && r2.value.pc == q) || r1.value.pc == r2.value.pc == dest))
  {
    var mq := m.(pc := q);
    assert Valid(mq, p) == Valid(m, p);
    assert Load(mq, p) == Load(m, p);
    if Valid(m, p) {
      forall v | true
        ensures Store(mq, p, v) == Ok(Store(m, p, v).value.(pc := q))
      {
      }
    }
  }

  /** `LabelLookup d; ForLoop` and `ForLoopLabel d` (the rewrite shared with flinch.cpp). */
  lemma ForLabelFusion(img: Image, b: Builtin, t1: Token, t2: Token, m: Machine)
    requires t1.kind == LabelLookup && t2.kind == ForLoop
    ensures Simulates(img, b, [t1, t2], t1.(kind := ForLoopLabel), m)
  {
    hide Handle, Exec, OnForLoop, OnForLoopLabel, ForStep, ForBump, Truthy, CompareOp, Binary, ArrayOf, Store, SetSlot;
    var f := t1.(kind := ForLoopLabel);
    var m1 := m.(pc := m.pc + 1);
    ExecTwo(img, b, t1, t2, m);
    ExecOne(img, b, f, m);
    HandleLabelLookup(img, b, t1, m1);
    HandleForLoopLabel(img, b, f, m1);
    var m2 := Push(m1, Label(t1.n));
    HandleForLoop(img, b, t2, m2.(pc := m2.pc + 1));
    assert m2.(pc := m2.pc + 1) == Push(m1.(pc := m1.pc + 1), Label(t1.n));
    ForLoopOnLabel(m1.(pc := m1.pc + 1), t1.n);
    ForLoopLabelPc(m1, m1.pc + 1, t1.n);
  }

  /** `ForLoop` with a label on top is `ForLoopLabel` to that label. */
  lemma ForLoopOnLabel(x: Machine, n: nat)
    ensures OnForLoop(Push(x, Label(n))) == OnForLoopLabel(x, n)
  {
    hide ForStep;
    assert Pop(Push(x, Label(n))) == Ok((Label(n), x));
  }

  /** `ForLoopLabel` run at another `pc` ends in the same machine, or falls through at its own `pc`. */
  lemma ForLoopLabelPc(x: Machine, q: int, n: nat)
    ensures var r1, r2 := OnForLoopLabel(x.(pc := q), n), OnForLoopLabel(x, n);
            && (r1.Ok? <==> r2.Ok?)
            && (r1.Ok? ==> SameBut(r1.value, r2.value)
                           && ((r1.value.pc == q && r2.value.pc == x.pc) || r1.value.pc == r2.value.pc))
  {
    hide ForStep;
    ForStepPc(x, q, n);
  }

  /** `Cmp<op>; IfGotoLabel d` and `IfGotoLabel<op> d` (the rewrite shared with flinch.cpp). */
  lemma CmpFusion(img: Image, b: Builtin, t1: Token, t2: Token, m: Machine)
    requires t1.kind.Bin? && t1.kind.op.CmpOp? && t2.kind == IfGotoLabel
    ensures Simulates(img, b, [t1, t2], t2.(kind := IfGotoLabelCmp(t1.kind.op.c)), m)
  {
    hide Handle, Exec;
    var f := t2.(kind := IfGotoLabelCmp(t1.kind.op.c));
    var m1 := m.(pc := m.pc + 1);
    ExecTwo(img, b, t1, t2, m);
    ExecOne(img, b, f, m);
    HandleBin(img, b, t1, m1);
    HandleIfGotoLabelCmp(img, b, f, m1);
    var r := OnBin(m1, t1.kind.op);
    if r.Ok? {
      HandleIfGotoLabel(img, b, t2, r.value.(pc := r.value.pc + 1));
    }
    if |m1.evalstack| >= 2 {
      var (y, m2) := Pop(m1).value;
      var x := Back(m2).value;
      CompareThroughBinary(t1.kind.op.c, x, y);
    }
  }

  /** The local for-loop step is the general one on the slot's reference with the inline limit. */
  lemma ForBumpLocal(m: Machine, x: nat, k: nat, dest: nat)
    requires Valid(m, Local(m.cur, x))
    ensures ForBump(m, Local(m.cur, x), Int(SignExtend32(k % TWO_32)), dest) == OnForLoopLocal(m, x, k, dest)
  {
    var p := Local(m.cur, x);
    assert Slot(m, x) == Load(m, p);
    var v := Load(m, p).value;
    if v.Int? && IsInt64(v.i + 1) {
      assert Store(m, p, Int(v.i + 1)) == SetSlot(m, x, Int(v.i + 1));
    }
  }

  /** `ForLoopLabel` with a reference and a limit on top is the step on them. */
  lemma ForLabelOnPushed(m: Machine, p: Place, num: V, dest: nat)
    ensures OnForLoopLabel(Push(Push(m, Ref(p)), num), dest) == ForBump(m, p, num, dest)
  {
    hide ForBump;
    assert Pop(Push(Push(m, Ref(p)), num)) == Ok((num, Push(m, Ref(p))));
    assert Pop(Push(m, Ref(p))) == Ok((Ref(p), m));
  }

  /**
    `LocalVarLookup v; IntegerInline k; ForLoopLabel d` and the fused
    `ForLoopLocal d` carrying `v` and `k` (flinch.hpp:716-724).
   */
  lemma ForLocalFusion(img: Image, b: Builtin, t1: Token, t2: Token, t3: Token, m: Machine)
    requires t1.kind == LocalVarLookup && t2.kind == IntegerInline && t3.kind == ForLoopLabel
    ensures Simulates(img, b, [t1, t2, t3], Token(ForLoopLocal, t3.n, t1.n, t2.n), m)
  {
    hide Handle, ForBump, OnForLoopLabel, OnForLoopLocal, Exec, OnVarLookup;
    hide ForStep, Truthy, CompareOp, Binary, ArrayOf, Store, SetSlot;
    var m1 := m.(pc := m.pc + 1);
    ForLocalRuns(img, b, t1, t2, t3, m);
    if Valid(m1, Local(m1.cur, t1.n)) {
      ForLocalTail(img, b, t1, t2, t3, m1);
    }
  }

  /** The unfused triple runs the literal and `ForLoopLabel` on the pushed reference; the fused token is `OnForLoopLocal`. */
  lemma ForLocalRuns(img: Image, b: Builtin, t1: Token, t2: Token, t3: Token, m: Machine)
    requires t1.kind == LocalVarLookup
    ensures var m1 := m.(pc := m.pc + 1);
            Exec(img, b, [t1, t2, t3], m)
              == (var a :- OnVarLookup(m1, Local(m1.cur, t1.n), SlotIndex); Exec(img, b, [t2, t3], a))
    ensures var m1 := m.(pc := m.pc + 1);
            Valid(m1, Local(m1.cur, t1.n)) ==>
              OnVarLookup(m1, Local(m1.cur, t1.n), SlotIndex) == Ok(Push(m1, Ref(Local(m1.cur, t1.n))))
    ensures Exec(img, b, [Token(ForLoopLocal, t3.n, t1.n, t2.n)], m)
         == OnForLoopLocal(m.(pc := m.pc + 1), t1.n, t2.n, t3.n)
  {
    hide Handle, ForBump, OnForLoopLabel, OnForLoopLocal, Exec;
    hide ForStep, Truthy, CompareOp, Binary, ArrayOf, Store, SetSlot;
    var f := Token(ForLoopLocal, t3.n, t1.n, t2.n);
    var m1 := m.(pc := m.pc + 1);
    ExecThree(img, b, t1, t2, t3, m);
    ExecOne(img, b, f, m);
    HandleLocalVarLookup(img, b, t1, m1);
    HandleForLoopLocal(img, b, f, m1);
  }


  /** Once the reference is pushed, the literal and `ForLoopLabel` do what `ForLoopLocal` does. */
  lemma ForLocalTail(img: Image, b: Builtin, t1: Token, t2: Token, t3: Token, m1: Machine)
    requires t2.kind == IntegerInline && t3.kind == ForLoopLabel && Valid(m1, Local(m1.cur, t1.n))
    ensures var r1, r2 := Exec(img, b, [t2, t3], Push(m1, Ref(Local(m1.cur, t1.n)))), OnForLoopLocal(m1, t1.n, t2.n, t3.n);
            && (r1.Ok? <==> r2.Ok?)
            && (r1.Ok? ==> SameBut(r1.value, r2.value)
                           && ((r1.value.pc == m1.pc + 2 && r2.value.pc == m1.pc) || r1.value.pc == r2.value.pc))
  {
    hide Handle, Exec, ForBump, OnForLoopLabel, OnForLoopLocal;
    var p := Local(m1.cur, t1.n);
    var k := SignExtend32(t2.n % TWO_32);
    var mq := m1.(pc := m1.pc + 2);
    ForTailRuns(img, b, t2, t3, Push(m1, Ref(p)));
    assert Push(m1, Ref(p)).(pc := m1.pc + 2) == Push(mq, Ref(p));
    ForLabelOnPushed(mq, p, Int(k), t3.n);
    ForBumpPc(m1, m1.pc + 2, p, Int(k), t3.n);
    ForBumpLocal(m1, t1.n, t2.n, t3.n);
  }

  /** An inline literal then `ForLoopLabel` is `OnForLoopLabel` on the machine with the literal pushed. */
  lemma ForTailRuns(img: Image, b: Builtin, t2: Token, t3: Token, m2: Machine)
    requires t2.kind == IntegerInline && t3.kind == ForLoopLabel
    ensures Exec(img, b, [t2, t3], m2)
         == OnForLoopLabel(Push(m2.(pc := m2.pc + 2), Int(SignExtend32(t2.n % TWO_32))), t3.n)
  {
    hide Handle, ForBump, OnForLoopLabel, OnForLoopLocal;
    ExecTwo(img, b, t2, t3, m2);
    var k := SignExtend32(t2.n % TWO_32);
    HandleInteger(img, b, t2, m2.(pc := m2.pc + 1));
    assert LitValue(img, LitOf(t2)) == Ok(k);
    var m3 := Push(m2.(pc := m2.pc + 1), Int(k));
    HandleForLoopLabel(img, b, t3, m3.(pc := m3.pc + 1));
  }


  // ----- calls -----

  /** The frame bookkeeping every reachable machine keeps: `cur` and every saved frame exist, one saved frame per call. */
  predicate FramesOk(m: Machine) {
    && m.cur < |m.frames|
    && |m.saved| == |m.callstack|
    && forall k :: 0 <= k < |m.saved| ==> m.saved[k] < |m.frames|
  }

  /** `FuncLookup k; Call` and `FuncCall k`: entering a function keeps the frame bookkeeping. */
  lemma EnterKeepsFrames(m: Machine, f: Callee)
    requires FramesOk(m)
    ensures FramesOk(Enter(m, f))
  {
  }

  /**
    Whatever the body did to the stacks, the frames and the arrays, as long
    as it left the call and frame stacks as the call made them, `FuncEnd`
    resumes the caller at the token after the call with the caller's frame
    current again (flinch.hpp:950-961).
   */
  lemma ReturnResumes(m0: Machine, f: Callee, m2: Machine)
    requires m2.callstack == Enter(m0, f).callstack && m2.saved == Enter(m0, f).saved
    ensures OnFuncEnd(m2) == Ok(m2.(pc := m0.pc, cur := m0.cur, callstack := m0.callstack, saved := m0.saved))
  {
    assert m2.saved[..|m2.saved| - 1] == m0.saved;
    assert m2.callstack[..|m2.callstack| - 1] == m0.callstack;
  }

  /** A call whose body does nothing returns the caller's machine, with the dead frame left behind. */
  lemma CallThenReturn(m0: Machine, f: Callee)
    ensures OnFuncEnd(Enter(m0, f)) == Ok(m0.(frames := m0.frames + [Zeros(f.varcount)]))
  {
    ReturnResumes(m0, f, Enter(m0, f));
  }

  /**
    After the return the callee's frame is freed: it is neither current nor
    saved, so a reference into it that outlived the call is a dangling
    pointer, while the caller's own frame is readable again.
   */
  lemma ReturnedFrameDangles(m0: Machine, f: Callee, m2: Machine, k: nat)
    requires FramesOk(m0)
    requires m2.callstack == Enter(m0, f).callstack && m2.saved == Enter(m0, f).saved
    requires |m0.frames| <= |m2.frames|
    ensures OnFuncEnd(m2).Ok?
    ensures Load(OnFuncEnd(m2).value, Local(|m0.frames|, k)) == Err(Undefined(BadReference))
    ensures Live(OnFuncEnd(m2).value, m0.cur) && FramesOk(OnFuncEnd(m2).value)
  {
    ReturnResumes(m0, f, m2);
    var m3 := OnFuncEnd(m2).value;
    assert |m0.frames| !in m3.saved;
  }

  /**
    A function declaration met in straight-line code jumps over the body
    and its `FuncEnd` (flinch.hpp:942-944), given where the linker put the
    function.
   */
  lemma FuncDecSkips(img: Image, b: Builtin, m: Machine, k: nat)
    requires HppLinkProps.Placed(img.program, img.funcs, |img.program|)
    requires k < |img.funcs| && img.funcs[k].len != 0 && m.pc == img.funcs[k].loc - 1
    ensures img.program[img.funcs[k].loc + img.funcs[k].len - 1].kind == FuncEnd
    ensures Step(img, b, m) == Ok(m.(pc := img.funcs[k].loc + img.funcs[k].len))
  {
    hide Handle, OnFuncDec, Step;
    var f := img.funcs[k];
    assert HppLinkProps.PlacedAt(img.program, k, f, |img.program|);
    hide HppLinkProps.Placed, HppLinkProps.PlacedAt;
    HandleFuncDec(img, b, img.program[m.pc], m.(pc := m.pc + 1));
    StepAt(img, b, m);
  }

  /** Inside the program a step runs the token under `pc`. */
  lemma StepAt(img: Image, b: Builtin, m: Machine)
    requires 0 <= m.pc < |img.program|
    ensures Step(img, b, m) == Handle(img, b, img.program[m.pc], m.(pc := m.pc + 1))
  {
    hide Handle;
  }

  /**
    `FuncCall k` enters function `k` at its body with a frame of `varcount`
    zeros (flinch.hpp:983-996), and every local the body declares names a
    slot of that frame.
   */
  lemma FuncCallEnters(img: Image, b: Builtin, m: Machine)
    requires 0 <= m.pc < |img.program| && img.program[m.pc].kind == FuncCall
    requires img.program[m.pc].n < |img.funcs|
    requires HppLinkProps.Placed(img.program, img.funcs, |img.program|)
    ensures var f := img.funcs[img.program[m.pc].n];
            Step(img, b, m) == Ok(Enter(m.(pc := m.pc + 1), Callee(f.loc, f.vars)))
    ensures var f := img.funcs[img.program[m.pc].n];
            var r := Step(img, b, m).value;
            f.len != 0 ==>
              forall j :: f.loc <= j < f.loc - 1 + f.len && HppLink.IsLocalDec(img.program[j].kind) ==>
                img.program[j].n < |r.frames[r.cur]|
  {
    hide Handle;
    HandleFuncCall(img, b, img.program[m.pc], m.(pc := m.pc + 1));
  }

  // ----- literals -----

  /**
    With the decoder scaled as the encoder scales, the token the encoder
    makes of any `int64_t` pushes that number.
   */
  lemma LiteralRuns(img: Image, b: Builtin, table: seq<Int64>, num: Int64, m1: Machine)
    requires img.fixedDecoder && img.ints == IntLiteral.HppEncode(table, num).1
    ensures Handle(img, b, C.IntToken(IntLiteral.HppEncode(table, num).0), m1) == Ok(Push(m1, Int(num)))
  {
    hide Handle;
    var l := IntLiteral.HppEncode(table, num).0;
    var t := C.IntToken(l);
    HandleInteger(img, b, t, m1);
    LitOfToken(img.ints, l);
    IntLiteral.HppFixedRoundTrip(table, num);
  }

  /** A decodable literal survives the trip through its token. */
  lemma LitOfToken(ints: seq<Int64>, l: IntLiteral.Lit)
    requires IntLiteral.Decodable(ints, l)
    ensures LitOf(C.IntToken(l)) == l
  {
  }

  /**
    As written, the decoder scales a large literal by 10000 where the
    encoder divided by 1000000000: `3000000000` runs as `30000`.
   */
  lemma LiteralAsWritten(img: Image, b: Builtin, table: seq<Int64>, m1: Machine)
    requires !img.fixedDecoder && img.ints == IntLiteral.HppEncode(table, 3000000000).1
    ensures C.IntToken(IntLiteral.HppEncode(table, 3000000000).0) == Make(IntegerInlineBigDec, 3)
    ensures Handle(img, b, C.IntToken(IntLiteral.HppEncode(table, 3000000000).0), m1) == Ok(Push(m1, Int(30000)))
  {
    hide Handle;
    assert ToU32(3) == 3;
    var t := C.IntToken(IntLiteral.HppEncode(table, 3000000000).0);
    HandleInteger(img, b, t, m1);
  }

  /**
    End to end: an integer literal in the source text, classified and then
    run with the decoder scaled as the encoder scales, pushes the value
    `stoll` reads from the text.
   */
  lemma TextLiteralRuns(env: HppClassify.Env, t: string, s: C.Scopes, tabs: HppClassify.Tables,
                        img: Image, b: Builtin, m1: Machine)
    requires IntLiteral.IsIntToken(t) && IntLiteral.Stoll(t).Ok?
    requires img.fixedDecoder
    requires img.ints == IntLiteral.HppEncode(tabs.ints, IntLiteral.Stoll(t).value).1
    ensures HppClassify.LiteralToken(env, t, s, tabs).Ok?
    ensures HppClassify.LiteralToken(env, t, s, tabs).value.1.ints == img.ints
    ensures Handle(img, b, HppClassify.LiteralToken(env, t, s, tabs).value.0, m1) == Ok(Push(m1, Int(IntLiteral.Stoll(t).value)))
  {
    LiteralRuns(img, b, tabs.ints, IntLiteral.Stoll(t).value, m1);
  }

  // ----- punt -----

  /** `count` single `punt`s in a row. */
  function PuntTimes(m: Machine, count: nat): (r: Result<Machine, Fault>)
    decreases count
  {
    if count == 0 then Ok(m)
    else
      var m1 :- OnPunt(m);
      PuntTimes(m1, count - 1)
  }

  /** One `punt` with values left moves the top one below. */
  lemma PuntOnce(m: Machine)
    requires |m.evalstacks| > 0
    ensures var s, k := m.evalstack, |m.evalstacks| - 1;
            OnPunt(m) == if s == [] then Err(Thrown(EmptyBuffer))
                         else Ok(m.(evalstack := s[..|s| - 1], evalstacks := m.evalstacks[k := m.evalstacks[k] + [s[|s| - 1]]]))
  {
  }

  /**
    `count` punts move the top `count` values to the stack below, the top
    one first, and run out of values when there are fewer.
   */
  lemma {:induction false} PuntTimesMoves(m: Machine, count: nat)
    requires |m.evalstacks| > 0
    ensures var s, k := m.evalstack, |m.evalstacks| - 1;
            PuntTimes(m, count)
              == if count > |s| then Err(Thrown(EmptyBuffer))
                 else Ok(m.(evalstack := s[..|s| - count],
                            evalstacks := m.evalstacks[k := m.evalstacks[k] + Reversed(s[|s| - count..])]))
    decreases count
  {
    hide OnPunt;
    PuntOnce(m);
    var s, k := m.evalstack, |m.evalstacks| - 1;
    if count == 0 {
      assert s[..|s|] == s && s[|s|..] == [];
      assert m.evalstacks[k] + Reversed([]) == m.evalstacks[k];
      assert m.evalstacks[k := m.evalstacks[k]] == m.evalstacks;
    } else if |s| == 0 {
    } else {
      var last := s[|s| - 1];
      var s1 := s[..|s| - 1];
      var e1 := m.evalstacks[k := m.evalstacks[k] + [last]];
      var m1 := m.(evalstack := s1, evalstacks := e1);
      assert PuntTimes(m, count) == PuntTimes(m1, count - 1);
      PuntTimesMoves(m1, count - 1);
      if count <= |s| {
        PuntTopMoves(s, count, m.evalstacks[k]);
        hide Reversed;
        var rest := s1[..|s1| - (count - 1)];
        var below := e1[k] + Reversed(s1[|s1| - (count - 1)..]);
        assert e1[k := below] == m.evalstacks[k := m.evalstacks[k] + Reversed(s[|s| - count..])];
        assert m1.(evalstack := rest, evalstacks := e1[k := below])
            == m.(evalstack := s[..|s| - count], evalstacks := m.evalstacks[k := m.evalstacks[k] + Reversed(s[|s| - count..])]);
      } else {
        assert PuntTimes(m1, count - 1) == Err(Thrown(EmptyBuffer));
      }
    }
  }

  /** Taking the top value off first and then `count - 1` more leaves what taking `count` at once leaves. */
  lemma PuntTopMoves(s: seq<V>, count: nat, below: seq<V>)
    requires 0 < count <= |s|
    ensures var s1 := s[..|s| - 1];
            s1[..|s1| - (count - 1)] == s[..|s| - count]
            && (below + [s[|s| - 1]]) + Reversed(s1[|s1| - (count - 1)..]) == below + Reversed(s[|s| - count..])
  {
    var last := s[|s| - 1];
    var s1 := s[..|s| - 1];
    var top := s[|s| - count..];
    var top1 := s1[|s1| - (count - 1)..];
    assert top == top1 + [last];
    assert top[..|top| - 1] == top1;
    assert Reversed(top) == [last] + Reversed(top1);
  }

  /** `punt_n` with an in-range count: the top `count` values move below, the top one first. */
  lemma PuntNMoves(m: Machine, c: Int64)
    requires |m.evalstacks| > 0 && 0 <= c
    ensures var s, k := m.evalstack, |m.evalstacks| - 1;
            OnPuntN(Push(m, Int(c)))
              == if c > |s| then Err(Thrown(NotEnoughValues))
                 else Ok(m.(evalstack := s[..|s| - c],
                            evalstacks := m.evalstacks[k := m.evalstacks[k] + Reversed(s[|s| - c..])]))
  {
    assert Pop(Push(m, Int(c))) == Ok((Int(c), m));
    ToU64OfNatural(c);
  }

  /**
    `punt_n` with the count `c` on top is `c` single punts (flinch.hpp:1199-1204):
    both succeed or both fail, and then alike; only the exception differs
    when values run out.
   */
  lemma PuntNIsPunts(m: Machine, c: Int64)
    requires |m.evalstacks| > 0 && 0 <= c
    ensures OnPuntN(Push(m, Int(c))).Ok? <==> PuntTimes(m, c).Ok?
    ensures PuntTimes(m, c).Ok? ==> OnPuntN(Push(m, Int(c))) == PuntTimes(m, c)
    ensures OnPuntN(Push(m, Int(c))).Err? ==> OnPuntN(Push(m, Int(c))).error == Thrown(NotEnoughValues)
  {
    PuntNMoves(m, c);
    PuntTimesMoves(m, c);
  }

  /** A negative count is read as a huge `size_t` and fails `valreq`. */
  lemma PuntNNegative(m: Machine, c: Int64)
    requires |m.evalstacks| > 0 && c < 0 && |m.evalstack| < TWO_63
    ensures OnPuntN(Push(m, Int(c))) == Err(Thrown(NotEnoughValues))
  {
    assert Pop(Push(m, Int(c))) == Ok((Int(c), m));
    assert ToU64(c) == c + TWO_64;
  }

  // ----- arrays -----

  /**
    An array literal `[ x y ]`: `ScopeOpen`, whatever pushes the elements
    `xs`, then `ArrayBuild` leaves the enclosing stack as it was plus one
    new array holding `xs` (flinch.hpp:1119-1122).
   */
  lemma ArrayLiteralBuilds(m: Machine, xs: seq<V>)
    ensures OnArrayBuild(m.(evalstacks := m.evalstacks + [m.evalstack], evalstack := xs))
         == Ok(Push(m.(arrays := m.arrays + [xs]), Array(|m.arrays|)))
  {
    var m1 := m.(evalstacks := m.evalstacks + [m.evalstack], evalstack := xs);
    assert m1.evalstacks[..|m1.evalstacks| - 1] == m.evalstacks;
  }

  /** `[ ]`, spelled as `ScopeOpen; ArrayBuild`, runs like `[]`, the token `ArrayEmptyLit` (flinch.hpp:477-480). */
  lemma EmptyArrayLiteral(img: Image, b: Builtin, t1: Token, t2: Token, m: Machine)
    requires t1.kind == ScopeOpen && t2.kind == ArrayBuild
    ensures Simulates(img, b, [t1, t2], t2.(kind := ArrayEmptyLit), m)
  {
    hide Handle, Exec, ForStep, ForBump, Truthy, CompareOp, Binary, ArrayOf, Load, Store, Slot, SetSlot;
    var f := t2.(kind := ArrayEmptyLit);
    var m1 := m.(pc := m.pc + 1);
    ExecTwo(img, b, t1, t2, m);
    ExecOne(img, b, f, m);
    HandleScopeOpen(img, b, t1, m1);
    HandleArrayEmptyLit(img, b, f, m1);
    var m2 := m1.(evalstacks := m1.evalstacks + [m1.evalstack], evalstack := []);
    HandleArrayBuild(img, b, t2, m2.(pc := m2.pc + 1));
    ArrayLiteralBuilds(m1.(pc := m1.pc + 1), []);
  }

  /**
    `ArrayPushBack` appends the value to the array, and `ArrayPopBack` on
    the same array then takes it off again, leaving the array as it was
    and the value in its place (flinch.hpp:1161-1170).
   */
  lemma PushBackPopBack(m: Machine, id: nat, x: V)
    requires id < |m.arrays|
    ensures var m1 := SetArray(m, id, m.arrays[id] + [x]);
            && OnArrayPushBack(Push(Push(m, Array(id)), x)) == Ok(m1)
            && OnArrayPopBack(Push(m1, Array(id))) == Ok(Push(m, x))
  {
    var items := m.arrays[id];
    var m1 := SetArray(m, id, items + [x]);
    var m2 := Push(Push(m, Array(id)), x);
    assert Pop(m2) == Ok((x, Push(m, Array(id))));
    assert Pop(Push(m, Array(id))) == Ok((Array(id), m));
    assert (items + [x])[..|items|] == items;
    assert m1.arrays[id := items] == m.arrays;
    assert (m1.evalstack + [Array(id)])[|m1.evalstack| := x] == m.evalstack + [x];
  }

  /** A non-negative `int64_t` read as a `size_t` keeps its value. */
  lemma ToU64OfNatural(n: Int64)
    requires 0 <= n
    ensures ToU64(n) == n
  {
    assert IsInt64(n);
    assert I64_MAX == TWO_63 - 1;
    assert TWO_63 < TWO_64;
  }

  /** `ArrayPushIn` at an index up to the length inserts the value there (flinch.hpp:1144-1150). */
  lemma PushInInserts(m: Machine, id: nat, n: Int64, x: V)
    requires id < |m.arrays| && 0 <= n <= |m.arrays[id]|
    ensures var items := m.arrays[id];
            OnArrayPushIn(Push(Push(Push(m, Array(id)), Int(n)), x)) == Ok(SetArray(m, id, items[..n] + [x] + items[n..]))
  {
    ToU64OfNatural(n);
    assert Pop(Push(Push(Push(m, Array(id)), Int(n)), x)) == Ok((x, Push(Push(m, Array(id)), Int(n))));
    assert Pop(Push(Push(m, Array(id)), Int(n))) == Ok((Int(n), Push(m, Array(id))));
    assert Pop(Push(m, Array(id))) == Ok((Array(id), m));
  }

  /** `ArrayPopOut` at an index inside the array takes that element out and puts it in the array's place (flinch.hpp:1152-1159). */
  lemma PopOutRemoves(m: Machine, id: nat, n: Int64)
    requires id < |m.arrays| && 0 <= n < |m.arrays[id]|
    ensures var items := m.arrays[id];
            OnArrayPopOut(Push(Push(m, Array(id)), Int(n))) == Ok(Push(SetArray(m, id, items[..n] + items[n + 1..]), items[n]))
  {
    var items := m.arrays[id];
    assert Pop(Push(Push(m, Array(id)), Int(n))) == Ok((Int(n), Push(m, Array(id))));
    var m1 := SetArray(Push(m, Array(id)), id, items[..n] + items[n + 1..]);
    assert SetBack(m1, items[n]) == Push(SetArray(m, id, items[..n] + items[n + 1..]), items[n]);
  }

  /**
    `ArrayPushIn` at an index up to the length, then `ArrayPopOut` at the
    same index, leaves the array as it was and the value in its place.
   */
  lemma PushInPopOut(m: Machine, id: nat, n: Int64, x: V)
    requires id < |m.arrays| && 0 <= n <= |m.arrays[id]|
    ensures var items := m.arrays[id];
            var m1 := SetArray(m, id, items[..n] + [x] + items[n..]);
            && OnArrayPushIn(Push(Push(Push(m, Array(id)), Int(n)), x)) == Ok(m1)
            && OnArrayPopOut(Push(Push(m1, Array(id)), Int(n))) == Ok(Push(m, x))
  {
    hide OnArrayPushIn, OnArrayPopOut;
    var items := m.arrays[id];
    var grown := items[..n] + [x] + items[n..];
    var m1 := SetArray(m, id, grown);
    PushInInserts(m, id, n, x);
    PopOutRemoves(m1, id, n);
    assert grown[n] == x;
    assert grown[..n] + grown[n + 1..] == items;
    assert m1.arrays[id := items] == m.arrays;
  }

  /** Inserting past the end, or at a negative index read as a huge `size_t`, throws. */
  lemma PushInPastEnd(m: Machine, id: nat, n: Int64, x: V)
    requires id < |m.arrays| && |m.arrays[id]| < TWO_63
    requires n < 0 || n > |m.arrays[id]|
    ensures OnArrayPushIn(Push(Push(Push(m, Array(id)), Int(n)), x)) == Err(Thrown(PastEndOfArray))
  {
    assert Pop(Push(Push(Push(m, Array(id)), Int(n)), x)) == Ok((x, Push(Push(m, Array(id)), Int(n))));
    assert Pop(Push(Push(m, Array(id)), Int(n))) == Ok((Int(n), Push(m, Array(id))));
    assert Pop(Push(m, Array(id))) == Ok((Array(id), m));
  }

  /**
    `ArrayConcat` appends the right array's elements to the left array,
    which stays on the stack; concatenating an array with itself is the
    undefined self-append (flinch.hpp:1172-1179).
   */
  lemma ConcatAppends(m: Machine, l: nat, r: nat)
    requires l < |m.arrays| && r < |m.arrays|
    ensures OnArrayConcat(Push(Push(m, Array(l)), Array(r)))
         == if l == r then Err(Undefined(SelfConcat))
            else Ok(Push(SetArray(m, l, m.arrays[l] + m.arrays[r]), Array(l)))
  {
    assert Pop(Push(Push(m, Array(l)), Array(r))) == Ok((Array(r), Push(m, Array(l))));
    var m1 := Push(m, Array(l));
    if l != r {
      assert SetArray(m1, l, m1.arrays[l] + m1.arrays[r]) == Push(SetArray(m, l, m.arrays[l] + m.arrays[r]), Array(l));
    }
  }

  /** `ArrayLen` after `ArrayPushBack` counts one more element than before. */
  lemma PushBackGrows(m: Machine, id: nat, x: V)
    requires id < |m.arrays|
    ensures var m1 := OnArrayPushBack(Push(Push(m, Array(id)), x)).value;
            && OnArrayPushBack(Push(Push(m, Array(id)), x)).Ok?
            && OnArrayLen(Push(m1, Array(id)), 0) == Ok(Push(m1, Int(Wrap64(|m.arrays[id]| + 1))))
  {
    PushBackPopBack(m, id, x);
    var m1 := OnArrayPushBack(Push(Push(m, Array(id)), x)).value;
    assert (m1.evalstack + [Array(id)])[|m1.evalstack| := Int(Wrap64(|m.arrays[id]| + 1))] == m1.evalstack + [Int(Wrap64(|m.arrays[id]| + 1))];
  }

  /**
    A shallow clone of an array is a fresh array with the same elements;
    the original array keeps its handle and every store into the clone
    leaves the original's elements unchanged (flinch.hpp:244-252).
   */
  lemma CloneIsFresh(m: Machine, id: nat, k: nat, v: V)
    requires id < |m.arrays|
    ensures var c := |m.arrays|;
            var m1 := Push(m.(arrays := m.arrays + [m.arrays[id]]), Array(c));
            && OnClone(Push(m, Array(id)), false) == Ok(m1)
            && (k < |m.arrays[id]| ==>
                  && Store(m1, Elem(c, k), v).Ok?
                  && forall j :: 0 <= j < |m.arrays[id]| ==> Load(Store(m1, Elem(c, k), v).value, Elem(id, j)) == Ok(m.arrays[id][j]))
  {
    var c := |m.arrays|;
    var m1 := Push(m.(arrays := m.arrays + [m.arrays[id]]), Array(c));
    assert Pop(Push(m, Array(id))) == Ok((Array(id), m));
    if k < |m.arrays[id]| {
      forall j | 0 <= j < |m.arrays[id]|
        ensures Load(Store(m1, Elem(c, k), v).value, Elem(id, j)) == Ok(m.arrays[id][j])
      {
        assert Valid(m1, Elem(id, j)) && Elem(id, j) != Elem(c, k);
      }
    }
  }

  /** Cloning a reference gives the value it points at, uncopied: an array through a reference stays shared. */
  lemma CloneThroughRefShares(m: Machine, p: Place, deep: bool)
    requires Valid(m, p)
    ensures OnClone(Push(m, Ref(p)), deep) == Ok(Push(m, Load(m, p).value))
  {
    assert Pop(Push(m, Ref(p))) == Ok((Ref(p), m));
  }

  /** Deep-cloning elements that are neither arrays nor references copies them unchanged. */
  lemma {:induction false} CloneAllFlat(m: Machine, items: seq<V>, depth: nat)
    requires forall j :: 0 <= j < |items| ==> !items[j].Array? && !items[j].Ref?
    ensures CloneAll(m, items, depth) == Ok((items, m))
    decreases |items|
  {
    if items != [] {
      CloneAllFlat(m, items[1..], depth);
      assert [items[0]] + items[1..] == items;
    }
  }

  /** For an array of plain values a deep clone is the shallow one. */
  lemma DeepCloneOfFlat(m: Machine, id: nat)
    requires id < |m.arrays|
    requires forall j :: 0 <= j < |m.arrays[id]| ==> !m.arrays[id][j].Array? && !m.arrays[id][j].Ref?
    ensures OnClone(Push(m, Array(id)), true) == OnClone(Push(m, Array(id)), false)
  {
    assert Pop(Push(m, Array(id))) == Ok((Array(id), m));
    var (c, m1) := NewArray(m, m.arrays[id]);
    CloneAllFlat(m1, m.arrays[id], |m.arrays| - 1);
    assert m1.arrays[c.id := m.arrays[id]] == m1.arrays;
  }

  // ----- running -----

  /** At `Exit` a step leaves the machine where it is. */
  lemma HaltedStays(img: Image, b: Builtin, m: Machine)
    requires Halted(img, m)
    ensures Step(img, b, m) == Ok(m)
  {
    hide Handle;
    HandleExit(img, b, img.program[m.pc], m.(pc := m.pc + 1));
  }

  /** Running `a + c` tokens is running `a`, then `c` more from where that stopped. */
  lemma {:induction false} RunSplit(img: Image, b: Builtin, m: Machine, a: nat, c: nat)
    ensures Run(img, b, m, a + c) == (var m1 :- Run(img, b, m, a); Run(img, b, m1, c))
    decreases a
  {
    hide Step, Run;
    if a == 0 {
    } else if Halted(img, m) {
    } else {
      RunUnfold(img, b, m, a + c);
      RunUnfold(img, b, m, a);
      if Step(img, b, m).Ok? {
        RunSplit(img, b, Step(img, b, m).value, a - 1, c);
        assert a + c - 1 == (a - 1) + c;
      }
    }
  }

  /** A run that has fuel and has not halted takes one step, then runs on. */
  lemma RunUnfold(img: Image, b: Builtin, m: Machine, fuel: nat)
    requires fuel > 0 && !Halted(img, m)
    ensures Run(img, b, m, fuel) == (var m1 :- Step(img, b, m); Run(img, b, m1, fuel - 1))
  {
    hide Step;
  }

}
