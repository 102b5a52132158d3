/**
  Properties of flinch.cpp's interpreter: what each token the compiler's
  fusions involve does, where `FuncDec` lands, the call protocol, what a
  store changes, and whether each peephole fusion means what the pair or
  triple of tokens it replaces means.

  A fusion is compared by running the original tokens in one image and the
  fused token in an image that differs only in its program. The fused run
  is shorter, so the two end states can differ in `pc` alone.
 */
module CppInterpProps {
  import opened Wrappers
  import opened MachineInt
  import opened Tokens
  import opened DynValue
  import CppLink
  import opened CppInterp

  /** With no fuel left the machine stands still. */
  lemma AfterNoFuel(img: Image, builtin: (nat, seq<V>) -> Result<seq<V>, Fault>, r: Result<Machine, Fault>)
    ensures After(img, builtin, r, 0) == r
  {
  }

  /** `Exit` is a fixed point: running from it changes nothing. */
  lemma ExitStays(img: Image, builtin: (nat, seq<V>) -> Result<seq<V>, Fault>, m: Machine, fuel: nat)
    requires Halted(img, m)
    ensures Run(img, builtin, m, fuel) == Ok(m)
  {
  }

  // ----- one family at a time -----
  // Running a token of a family runs that family's handler on the machine
  // past the token, then goes on with one token less.

  lemma RunInCalls(img: Image, builtin: (nat, seq<V>) -> Result<seq<V>, Fault>, m: Machine, fuel: nat)
    requires fuel > 0 && 0 <= m.pc < |img.program| && GroupOf(img.program[m.pc].kind) == Calls
    ensures Run(img, builtin, m, fuel) == After(img, builtin, StepCalls(img, img.program[m.pc], m.(pc := m.pc + 1)), fuel - 1)
  {
    hide StepCalls, StepVars, StepJumps, StepOperators, StepValues, StepArrays;
    assert Run(img, builtin, m, fuel) == Dispatch(img, builtin, m, fuel - 1);
    assert Dispatch(img, builtin, m, fuel - 1) == RunCalls(img, builtin, img.program[m.pc], m.(pc := m.pc + 1), fuel - 1);
  }

  lemma RunInVars(img: Image, builtin: (nat, seq<V>) -> Result<seq<V>, Fault>, m: Machine, fuel: nat)
    requires fuel > 0 && 0 <= m.pc < |img.program| && GroupOf(img.program[m.pc].kind) == Vars
    ensures Run(img, builtin, m, fuel) == After(img, builtin, StepVars(img.program[m.pc], m.(pc := m.pc + 1)), fuel - 1)
  {
    hide StepCalls, StepVars, StepJumps, StepOperators, StepValues, StepArrays;
    assert Run(img, builtin, m, fuel) == Dispatch(img, builtin, m, fuel - 1);
    assert Dispatch(img, builtin, m, fuel - 1) == RunVars(img, builtin, img.program[m.pc], m.(pc := m.pc + 1), fuel - 1);
  }

  lemma RunInJumps(img: Image, builtin: (nat, seq<V>) -> Result<seq<V>, Fault>, m: Machine, fuel: nat)
    requires fuel > 0 && 0 <= m.pc < |img.program| && GroupOf(img.program[m.pc].kind) == Jumps
    ensures Run(img, builtin, m, fuel) == After(img, builtin, StepJumps(img.program[m.pc], m.(pc := m.pc + 1)), fuel - 1)
  {
    hide StepCalls, StepVars, StepJumps, StepOperators, StepValues, StepArrays;
    assert Run(img, builtin, m, fuel) == Dispatch(img, builtin, m, fuel - 1);
    assert Dispatch(img, builtin, m, fuel - 1) == RunJumps(img, builtin, img.program[m.pc], m.(pc := m.pc + 1), fuel - 1);
  }

  lemma RunInOperators(img: Image, builtin: (nat, seq<V>) -> Result<seq<V>, Fault>, m: Machine, fuel: nat)
    requires fuel > 0 && 0 <= m.pc < |img.program| && GroupOf(img.program[m.pc].kind) == Operators
    ensures Run(img, builtin, m, fuel) == After(img, builtin, StepOperators(img.program[m.pc], m.(pc := m.pc + 1)), fuel - 1)
  {
    hide StepCalls, StepVars, StepJumps, StepOperators, StepValues, StepArrays;
    assert Run(img, builtin, m, fuel) == Dispatch(img, builtin, m, fuel - 1);
    assert Dispatch(img, builtin, m, fuel - 1) == RunOperators(img, builtin, img.program[m.pc], m.(pc := m.pc + 1), fuel - 1);
  }

  lemma RunInValues(img: Image, builtin: (nat, seq<V>) -> Result<seq<V>, Fault>, m: Machine, fuel: nat)
    requires fuel > 0 && 0 <= m.pc < |img.program| && GroupOf(img.program[m.pc].kind) == Values
    ensures Run(img, builtin, m, fuel) == After(img, builtin, StepValues(img, builtin, img.program[m.pc], m.(pc := m.pc + 1)), fuel - 1)
  {
    hide StepCalls, StepVars, StepJumps, StepOperators, StepValues, StepArrays;
    assert Run(img, builtin, m, fuel) == Dispatch(img, builtin, m, fuel - 1);
    assert Dispatch(img, builtin, m, fuel - 1) == RunValues(img, builtin, img.program[m.pc], m.(pc := m.pc + 1), fuel - 1);
  }

  // ----- one token at a time -----

  lemma RunFuncDec(img: Image, builtin: (nat, seq<V>) -> Result<seq<V>, Fault>, m: Machine, fuel: nat)
    requires fuel > 0 && 0 <= m.pc < |img.program| && img.program[m.pc].kind == FuncDec
    ensures Run(img, builtin, m, fuel) == After(img, builtin, OnFuncDec(img, img.program[m.pc].n, m.(pc := m.pc + 1)), fuel - 1)
  {
    hide Run, Dispatch, OnFuncDec, OnFuncLookup, Unwind, OnFuncEnd, OnReturn, OnCall, OnVar, OnVarDec, OnVarLookup, OnVarDecLookup, OnAssign, OnAssignVar, OnOpAssign, OnGoto, OnIfGoto, OnIfGotoLabel, OnIfGotoCmp, OnForLoop, ForStep, ForBump, OnForLoopFull, OnBin, OnScopeClose, OnArrayBuild, OnArrayIndex, OnClone, OnArrayLen, OnArrayPopOut, OnArrayPushIn, OnStringLiteral;
    RunInCalls(img, builtin, m, fuel);
  }

  lemma RunCall(img: Image, builtin: (nat, seq<V>) -> Result<seq<V>, Fault>, m: Machine, fuel: nat)
    requires fuel > 0 && 0 <= m.pc < |img.program| && (img.program[m.pc].kind == Call || img.program[m.pc].kind == CallEval)
    ensures Run(img, builtin, m, fuel) == After(img, builtin, OnCall(img, m.(pc := m.pc + 1), img.program[m.pc].kind == CallEval), fuel - 1)
  {
    hide Run, Dispatch, OnFuncDec, OnFuncLookup, Unwind, OnFuncEnd, OnReturn, OnCall, OnVar, OnVarDec, OnVarLookup, OnVarDecLookup, OnAssign, OnAssignVar, OnOpAssign, OnGoto, OnIfGoto, OnIfGotoLabel, OnIfGotoCmp, OnForLoop, ForStep, ForBump, OnForLoopFull, OnBin, OnScopeClose, OnArrayBuild, OnArrayIndex, OnClone, OnArrayLen, OnArrayPopOut, OnArrayPushIn, OnStringLiteral;
    RunInCalls(img, builtin, m, fuel);
  }

  lemma RunFuncEnd(img: Image, builtin: (nat, seq<V>) -> Result<seq<V>, Fault>, m: Machine, fuel: nat)
    requires fuel > 0 && 0 <= m.pc < |img.program| && img.program[m.pc].kind == FuncEnd
    ensures Run(img, builtin, m, fuel) == After(img, builtin, OnFuncEnd(m.(pc := m.pc + 1)), fuel - 1)
  {
    hide Run, Dispatch, OnFuncDec, OnFuncLookup, Unwind, OnFuncEnd, OnReturn, OnCall, OnVar, OnVarDec, OnVarLookup, OnVarDecLookup, OnAssign, OnAssignVar, OnOpAssign, OnGoto, OnIfGoto, OnIfGotoLabel, OnIfGotoCmp, OnForLoop, ForStep, ForBump, OnForLoopFull, OnBin, OnScopeClose, OnArrayBuild, OnArrayIndex, OnClone, OnArrayLen, OnArrayPopOut, OnArrayPushIn, OnStringLiteral;
    RunInCalls(img, builtin, m, fuel);
  }

  lemma RunReturn(img: Image, builtin: (nat, seq<V>) -> Result<seq<V>, Fault>, m: Machine, fuel: nat)
    requires fuel > 0 && 0 <= m.pc < |img.program| && img.program[m.pc].kind == Return
    ensures Run(img, builtin, m, fuel) == After(img, builtin, OnReturn(m.(pc := m.pc + 1)), fuel - 1)
  {
    hide Run, Dispatch, OnFuncDec, OnFuncLookup, Unwind, OnFuncEnd, OnReturn, OnCall, OnVar, OnVarDec, OnVarLookup, OnVarDecLookup, OnAssign, OnAssignVar, OnOpAssign, OnGoto, OnIfGoto, OnIfGotoLabel, OnIfGotoCmp, OnForLoop, ForStep, ForBump, OnForLoopFull, OnBin, OnScopeClose, OnArrayBuild, OnArrayIndex, OnClone, OnArrayLen, OnArrayPopOut, OnArrayPushIn, OnStringLiteral;
    RunInCalls(img, builtin, m, fuel);
  }

  lemma RunLocalVarLookup(img: Image, builtin: (nat, seq<V>) -> Result<seq<V>, Fault>, m: Machine, fuel: nat)
    requires fuel > 0 && 0 <= m.pc < |img.program| && img.program[m.pc].kind == LocalVarLookup
    ensures Run(img, builtin, m, fuel) == After(img, builtin, OnVarLookup(m.(pc := m.pc + 1), Local(m.cur, img.program[m.pc].n)), fuel - 1)
  {
    hide Run, Dispatch, OnFuncDec, OnFuncLookup, Unwind, OnFuncEnd, OnReturn, OnCall, OnVar, OnVarDec, OnVarLookup, OnVarDecLookup, OnAssign, OnAssignVar, OnOpAssign, OnGoto, OnIfGoto, OnIfGotoLabel, OnIfGotoCmp, OnForLoop, ForStep, ForBump, OnForLoopFull, OnBin, OnScopeClose, OnArrayBuild, OnArrayIndex, OnClone, OnArrayLen, OnArrayPopOut, OnArrayPushIn, OnStringLiteral;
    RunInVars(img, builtin, m, fuel);
  }

  lemma RunAssign(img: Image, builtin: (nat, seq<V>) -> Result<seq<V>, Fault>, m: Machine, fuel: nat)
    requires fuel > 0 && 0 <= m.pc < |img.program| && img.program[m.pc].kind == Assign
    ensures Run(img, builtin, m, fuel) == After(img, builtin, OnAssign(m.(pc := m.pc + 1)), fuel - 1)
  {
    hide Run, Dispatch, OnFuncDec, OnFuncLookup, Unwind, OnFuncEnd, OnReturn, OnCall, OnVar, OnVarDec, OnVarLookup, OnVarDecLookup, OnAssign, OnAssignVar, OnOpAssign, OnGoto, OnIfGoto, OnIfGotoLabel, OnIfGotoCmp, OnForLoop, ForStep, ForBump, OnForLoopFull, OnBin, OnScopeClose, OnArrayBuild, OnArrayIndex, OnClone, OnArrayLen, OnArrayPopOut, OnArrayPushIn, OnStringLiteral;
    RunInVars(img, builtin, m, fuel);
  }

  lemma RunAssignVar(img: Image, builtin: (nat, seq<V>) -> Result<seq<V>, Fault>, m: Machine, fuel: nat)
    requires fuel > 0 && 0 <= m.pc < |img.program| && img.program[m.pc].kind == AssignVar
    ensures Run(img, builtin, m, fuel) == After(img, builtin, OnAssignVar(m.(pc := m.pc + 1), Local(m.cur, img.program[m.pc].n)), fuel - 1)
  {
    hide Run, Dispatch, OnFuncDec, OnFuncLookup, Unwind, OnFuncEnd, OnReturn, OnCall, OnVar, OnVarDec, OnVarLookup, OnVarDecLookup, OnAssign, OnAssignVar, OnOpAssign, OnGoto, OnIfGoto, OnIfGotoLabel, OnIfGotoCmp, OnForLoop, ForStep, ForBump, OnForLoopFull, OnBin, OnScopeClose, OnArrayBuild, OnArrayIndex, OnClone, OnArrayLen, OnArrayPopOut, OnArrayPushIn, OnStringLiteral;
    RunInVars(img, builtin, m, fuel);
  }

  lemma RunGoto(img: Image, builtin: (nat, seq<V>) -> Result<seq<V>, Fault>, m: Machine, fuel: nat)
    requires fuel > 0 && 0 <= m.pc < |img.program| && img.program[m.pc].kind == Goto
    ensures Run(img, builtin, m, fuel) == After(img, builtin, OnGoto(m.(pc := m.pc + 1)), fuel - 1)
  {
    hide Run, Dispatch, OnFuncDec, OnFuncLookup, Unwind, OnFuncEnd, OnReturn, OnCall, OnVar, OnVarDec, OnVarLookup, OnVarDecLookup, OnAssign, OnAssignVar, OnOpAssign, OnGoto, OnIfGoto, OnIfGotoLabel, OnIfGotoCmp, OnForLoop, ForStep, ForBump, OnForLoopFull, OnBin, OnScopeClose, OnArrayBuild, OnArrayIndex, OnClone, OnArrayLen, OnArrayPopOut, OnArrayPushIn, OnStringLiteral;
    RunInJumps(img, builtin, m, fuel);
  }

  lemma RunGotoLabel(img: Image, builtin: (nat, seq<V>) -> Result<seq<V>, Fault>, m: Machine, fuel: nat)
    requires fuel > 0 && 0 <= m.pc < |img.program| && img.program[m.pc].kind == GotoLabel
    ensures Run(img, builtin, m, fuel) == After(img, builtin, Ok(m.(pc := img.program[m.pc].n)), fuel - 1)
  {
    hide Run, Dispatch, OnFuncDec, OnFuncLookup, Unwind, OnFuncEnd, OnReturn, OnCall, OnVar, OnVarDec, OnVarLookup, OnVarDecLookup, OnAssign, OnAssignVar, OnOpAssign, OnGoto, OnIfGoto, OnIfGotoLabel, OnIfGotoCmp, OnForLoop, ForStep, ForBump, OnForLoopFull, OnBin, OnScopeClose, OnArrayBuild, OnArrayIndex, OnClone, OnArrayLen, OnArrayPopOut, OnArrayPushIn, OnStringLiteral;
    RunInJumps(img, builtin, m, fuel);
  }

  lemma RunIfGotoLabel(img: Image, builtin: (nat, seq<V>) -> Result<seq<V>, Fault>, m: Machine, fuel: nat)
    requires fuel > 0 && 0 <= m.pc < |img.program| && img.program[m.pc].kind == IfGotoLabel
    ensures Run(img, builtin, m, fuel) == After(img, builtin, OnIfGotoLabel(m.(pc := m.pc + 1), img.program[m.pc].n), fuel - 1)
  {
    hide Run, Dispatch, OnFuncDec, OnFuncLookup, Unwind, OnFuncEnd, OnReturn, OnCall, OnVar, OnVarDec, OnVarLookup, OnVarDecLookup, OnAssign, OnAssignVar, OnOpAssign, OnGoto, OnIfGoto, OnIfGotoLabel, OnIfGotoCmp, OnForLoop, ForStep, ForBump, OnForLoopFull, OnBin, OnScopeClose, OnArrayBuild, OnArrayIndex, OnClone, OnArrayLen, OnArrayPopOut, OnArrayPushIn, OnStringLiteral;
    RunInJumps(img, builtin, m, fuel);
  }

  lemma RunIfGotoCmp(img: Image, builtin: (nat, seq<V>) -> Result<seq<V>, Fault>, m: Machine, fuel: nat)
    requires fuel > 0 && 0 <= m.pc < |img.program| && img.program[m.pc].kind.IfGotoLabelCmp?
    ensures Run(img, builtin, m, fuel) == After(img, builtin, OnIfGotoCmp(m.(pc := m.pc + 1), img.program[m.pc].kind.c, img.program[m.pc].n), fuel - 1)
  {
    hide Run, Dispatch, OnFuncDec, OnFuncLookup, Unwind, OnFuncEnd, OnReturn, OnCall, OnVar, OnVarDec, OnVarLookup, OnVarDecLookup, OnAssign, OnAssignVar, OnOpAssign, OnGoto, OnIfGoto, OnIfGotoLabel, OnIfGotoCmp, OnForLoop, ForStep, ForBump, OnForLoopFull, OnBin, OnScopeClose, OnArrayBuild, OnArrayIndex, OnClone, OnArrayLen, OnArrayPopOut, OnArrayPushIn, OnStringLiteral;
    RunInJumps(img, builtin, m, fuel);
  }

  lemma RunForLoopFull(img: Image, builtin: (nat, seq<V>) -> Result<seq<V>, Fault>, m: Machine, fuel: nat)
    requires fuel > 0 && 0 <= m.pc < |img.program| && img.program[m.pc].kind == ForLoopFull
    ensures Run(img, builtin, m, fuel) == After(img, builtin, OnForLoopFull(m.(pc := m.pc + 1), img.program[m.pc].x1, img.program[m.pc].x2, img.program[m.pc].n), fuel - 1)
  {
    hide Run, Dispatch, OnFuncDec, OnFuncLookup, Unwind, OnFuncEnd, OnReturn, OnCall, OnVar, OnVarDec, OnVarLookup, OnVarDecLookup, OnAssign, OnAssignVar, OnOpAssign, OnGoto, OnIfGoto, OnIfGotoLabel, OnIfGotoCmp, OnForLoop, ForStep, ForBump, OnForLoopFull, OnBin, OnScopeClose, OnArrayBuild, OnArrayIndex, OnClone, OnArrayLen, OnArrayPopOut, OnArrayPushIn, OnStringLiteral;
    RunInJumps(img, builtin, m, fuel);
  }

  lemma RunBin(img: Image, builtin: (nat, seq<V>) -> Result<seq<V>, Fault>, m: Machine, fuel: nat)
    requires fuel > 0 && 0 <= m.pc < |img.program| && img.program[m.pc].kind.Bin?
    ensures Run(img, builtin, m, fuel) == After(img, builtin, OnBin(m.(pc := m.pc + 1), img.program[m.pc].kind.op), fuel - 1)
  {
    hide Run, Dispatch, OnFuncDec, OnFuncLookup, Unwind, OnFuncEnd, OnReturn, OnCall, OnVar, OnVarDec, OnVarLookup, OnVarDecLookup, OnAssign, OnAssignVar, OnOpAssign, OnGoto, OnIfGoto, OnIfGotoLabel, OnIfGotoCmp, OnForLoop, ForStep, ForBump, OnForLoopFull, OnBin, OnScopeClose, OnArrayBuild, OnArrayIndex, OnClone, OnArrayLen, OnArrayPopOut, OnArrayPushIn, OnStringLiteral;
    RunInOperators(img, builtin, m, fuel);
  }

  lemma RunForLoopLabel(img: Image, builtin: (nat, seq<V>) -> Result<seq<V>, Fault>, m: Machine, fuel: nat)
    requires fuel > 0 && 0 <= m.pc < |img.program| && img.program[m.pc].kind == ForLoopLabel
    ensures Run(img, builtin, m, fuel) == After(img, builtin, ForStep(m.(pc := m.pc + 1), img.program[m.pc].n), fuel - 1)
  {
    hide Run, Dispatch, OnFuncDec, OnFuncLookup, Unwind, OnFuncEnd, OnReturn, OnCall, OnVar, OnVarDec, OnVarLookup, OnVarDecLookup, OnAssign, OnAssignVar, OnOpAssign, OnGoto, OnIfGoto, OnIfGotoLabel, OnIfGotoCmp, OnForLoop, ForStep, ForBump, OnForLoopFull, OnBin, OnScopeClose, OnArrayBuild, OnArrayIndex, OnClone, OnArrayLen, OnArrayPopOut, OnArrayPushIn, OnStringLiteral;
    RunInOperators(img, builtin, m, fuel);
  }

  lemma RunIntegerInline(img: Image, builtin: (nat, seq<V>) -> Result<seq<V>, Fault>, m: Machine, fuel: nat)
    requires fuel > 0 && 0 <= m.pc < |img.program| && img.program[m.pc].kind == IntegerInline
    ensures Run(img, builtin, m, fuel) == After(img, builtin, Ok(Push(m.(pc := m.pc + 1), Int(SignExtend32(img.program[m.pc].n % TWO_32)))), fuel - 1)
  {
    hide Run, Dispatch, OnFuncDec, OnFuncLookup, Unwind, OnFuncEnd, OnReturn, OnCall, OnVar, OnVarDec, OnVarLookup, OnVarDecLookup, OnAssign, OnAssignVar, OnOpAssign, OnGoto, OnIfGoto, OnIfGotoLabel, OnIfGotoCmp, OnForLoop, ForStep, ForBump, OnForLoopFull, OnBin, OnScopeClose, OnArrayBuild, OnArrayIndex, OnClone, OnArrayLen, OnArrayPopOut, OnArrayPushIn, OnStringLiteral;
    RunInValues(img, builtin, m, fuel);
  }

  // ----- functions and calls -----

  /**
    With the `funcs` entry registration writes for a `FuncDec` at `k`
    whose `FuncEnd` is at `e` (loc `k + 1`, len `e - k`), running the
    `FuncDec` skips the body and lands just past the `FuncEnd`.
   */
  lemma FuncDecLands(img: Image, builtin: (nat, seq<V>) -> Result<seq<V>, Fault>, m: Machine, e: nat, fuel: nat)
    requires fuel > 0
    requires 0 <= m.pc < e < |img.program|
    requires img.program[m.pc].kind == FuncDec
    requires img.program[m.pc].n < |img.funcs|
    requires img.funcs[img.program[m.pc].n] == CppLink.Func(m.pc + 1, e - m.pc, img.program[m.pc].n)
    ensures Run(img, builtin, m, fuel) == Run(img, builtin, m.(pc := e + 1), fuel - 1)
  {
    RunFuncDec(img, builtin, m, fuel);
  }

  /**
    `Call` and `CallEval`: pop a function value (anything else fails),
    remember the next token's index and whether the call wants a value,
    record the function's name, save the caller's frame, start a fresh
    zeroed frame, and continue after the function's name token.
   */
  lemma CallProtocol(img: Image, builtin: (nat, seq<V>) -> Result<seq<V>, Fault>, m: Machine, fuel: nat)
    requires fuel > 0 && 0 <= m.pc < |img.program|
    requires img.program[m.pc].kind == Call || img.program[m.pc].kind == CallEval
    ensures var s := m.evalstack;
            (!(|s| > 0 && s[|s| - 1].Func?) ==> Run(img, builtin, m, fuel).Err?)
            && (|s| > 0 && s[|s| - 1].Func? ==>
                  var f := s[|s| - 1].f;
                  Run(img, builtin, m, fuel)
                  == Run(img, builtin,
                         m.(evalstack := s[..|s| - 1],
                            callstack := m.callstack + [(m.pc + 1, img.program[m.pc].kind == CallEval)],
                            fstack := m.fstack + [f.name],
                            saved := m.saved + [m.cur],
                            frames := m.frames + [Zeros(img.varCount)],
                            cur := |m.frames|,
                            pc := f.loc),
                         fuel - 1))
  {
    RunCall(img, builtin, m, fuel);
  }

  /**
    `FuncEnd` undoes a call: the caller's frame is current again, the call
    record is popped, execution resumes at the recorded index, and a 0 is
    pushed exactly when the call wanted a value. `fstack` is not popped.
   */
  lemma FuncEndProtocol(img: Image, builtin: (nat, seq<V>) -> Result<seq<V>, Fault>, m: Machine, fuel: nat,
                        saved: seq<nat>, caller: nat, callstack: seq<(int, bool)>, ret: int, isEval: bool)
    requires fuel > 0 && 0 <= m.pc < |img.program| && img.program[m.pc].kind == FuncEnd
    requires m.saved == saved + [caller] && m.callstack == callstack + [(ret, isEval)]
    ensures Run(img, builtin, m, fuel)
            == Run(img, builtin,
                   m.(cur := caller, saved := saved, callstack := callstack, pc := ret,
                      evalstack := if isEval then m.evalstack + [Int(0)] else m.evalstack),
                   fuel - 1)
  {
    RunFuncEnd(img, builtin, m, fuel);
    assert (saved + [caller])[..|saved|] == saved;
    assert (callstack + [(ret, isEval)])[..|callstack|] == callstack;
  }

  /** `FuncEnd` with no call to return from reads `back()` of an empty vector. */
  lemma FuncEndAtTopLevel(img: Image, builtin: (nat, seq<V>) -> Result<seq<V>, Fault>, m: Machine, fuel: nat)
    requires fuel > 0 && 0 <= m.pc < |img.program| && img.program[m.pc].kind == FuncEnd
    requires m.saved == [] || m.callstack == []
    ensures Run(img, builtin, m, fuel).Err? && Run(img, builtin, m, fuel).error.Undefined?
  {
    RunFuncEnd(img, builtin, m, fuel);
  }

  /**
    `Return` pops the returned value, then undoes the call as `FuncEnd`
    does, re-pushing the value exactly when the call wanted one.
   */
  lemma ReturnProtocol(img: Image, builtin: (nat, seq<V>) -> Result<seq<V>, Fault>, m: Machine, fuel: nat,
                       stack: seq<V>, val: V,
                       saved: seq<nat>, caller: nat, callstack: seq<(int, bool)>, ret: int, isEval: bool)
    requires fuel > 0 && 0 <= m.pc < |img.program| && img.program[m.pc].kind == Return
    requires m.evalstack == stack + [val]
    requires m.saved == saved + [caller] && m.callstack == callstack + [(ret, isEval)]
    ensures Run(img, builtin, m, fuel)
            == Run(img, builtin,
                   m.(cur := caller, saved := saved, callstack := callstack, pc := ret,
                      evalstack := if isEval then stack + [val] else stack),
                   fuel - 1)
  {
    RunReturn(img, builtin, m, fuel);
    assert (stack + [val])[..|stack|] == stack;
    assert (saved + [caller])[..|saved|] == saved;
    assert (callstack + [(ret, isEval)])[..|callstack|] == callstack;
  }

  /**
    A call followed, in the callee, by its `FuncEnd` (the callee having
    left the call record and the saved frames as the call made them)
    resumes at the token after the call with the caller's frame and call
    records, and with a 0 on top exactly for `CallEval`.
   */
  lemma CallThenFuncEnd(img: Image, builtin: (nat, seq<V>) -> Result<seq<V>, Fault>, m: Machine, callee: Machine, fuel: nat)
    requires fuel > 0 && 0 <= m.pc < |img.program|
    requires img.program[m.pc].kind == Call || img.program[m.pc].kind == CallEval
    requires OnCall(img, m.(pc := m.pc + 1), img.program[m.pc].kind == CallEval).Ok?
    requires 0 <= callee.pc < |img.program| && img.program[callee.pc].kind == FuncEnd
    requires callee.callstack == OnCall(img, m.(pc := m.pc + 1), img.program[m.pc].kind == CallEval).value.callstack
    requires callee.saved == OnCall(img, m.(pc := m.pc + 1), img.program[m.pc].kind == CallEval).value.saved
    ensures var isEval := img.program[m.pc].kind == CallEval;
            Run(img, builtin, callee, fuel)
            == Run(img, builtin,
                   callee.(cur := m.cur, saved := m.saved, callstack := m.callstack, pc := m.pc + 1,
                           evalstack := if isEval then callee.evalstack + [Int(0)] else callee.evalstack),
                   fuel - 1)
  {
    FuncEndProtocol(img, builtin, callee, fuel, m.saved, m.cur, m.callstack, m.pc + 1, img.program[m.pc].kind == CallEval);
  }

  // ----- the store -----

  /** Storing to one place leaves every other valid place reading as before. */
  lemma StoreOnlyThere(m: Machine, p: Place, v: V, q: Place)
    requires Valid(m, p) && Valid(m, q) && p != q
    ensures Store(m, p, v).Ok? && Load(Store(m, p, v).value, q) == Load(m, q)
  {
  }

  /** A store keeps the stacks and the shape of every frame and array. */
  lemma StoreKeepsShape(m: Machine, p: Place, v: V)
    requires Valid(m, p)
    ensures var m1 := Store(m, p, v).value;
            m1.pc == m.pc && m1.evalstack == m.evalstack && m1.callstack == m.callstack
            && m1.cur == m.cur && m1.saved == m.saved
            && |m1.frames| == |m.frames| && |m1.arrays| == |m.arrays| && |m1.globals| == |m.globals|
            && (forall f :: 0 <= f < |m.frames| ==> |m1.frames[f]| == |m.frames[f]|)
            && (forall a :: 0 <= a < |m.arrays| ==> |m1.arrays[a]| == |m.arrays[a]|)
  {
  }

  // ----- the peephole fusions -----

  /**
    The handlers behind `AssignVarFusion`: `LocalVarLookup n` and then
    `Assign` (at whatever `pc`) against `AssignVar n`.
   */
  lemma AssignVarHandlers(x: Machine, n: nat, pc2: int)
    ensures var local := Local(x.cur, n);
            var a := OnVarLookup(x, local);
            var one := OnAssignVar(x, local);
            (a.Ok? && OnAssign(a.value.(pc := pc2)).Ok? <==> one.Ok?)
            && (one.Ok? ==> OnAssign(a.value.(pc := pc2)).value == one.value.(pc := pc2))
  {
    var local := Local(x.cur, n);
    if Valid(x, local) {
      var mid := Push(x, Ref(local)).(pc := pc2);
      assert mid.evalstack[..|mid.evalstack| - 1] == x.evalstack;
    }
  }

  /**
    `LocalVarLookup n; Assign` and `AssignVar n` fail together, and
    otherwise go on from the same machine, each past its own tokens: the
    value on top has been stored in slot `n` of the current frame.
   */
  lemma AssignVarFusion(img: Image, fused: Image, builtin: (nat, seq<V>) -> Result<seq<V>, Fault>, m: Machine, fuel: nat)
    requires fused == img.(program := fused.program)
    requires 0 <= m.pc && m.pc + 1 < |img.program| && m.pc < |fused.program|
    requires img.program[m.pc].kind == LocalVarLookup && img.program[m.pc + 1].kind == Assign
    requires fused.program[m.pc] == img.program[m.pc].(kind := AssignVar)
    requires fuel > 0
    ensures var one := OnAssignVar(m.(pc := m.pc + 1), Local(m.cur, img.program[m.pc].n));
            (one.Err? ==> Run(img, builtin, m, fuel + 1).Err? && Run(fused, builtin, m, fuel).Err?)
            && (one.Ok? ==>
                  Run(img, builtin, m, fuel + 1) == Run(img, builtin, one.value.(pc := m.pc + 2), fuel - 1)
                  && Run(fused, builtin, m, fuel) == Run(fused, builtin, one.value, fuel - 1))
  {
    hide Run, Dispatch, OnAssign, OnAssignVar;
    var a := OnVarLookup(m.(pc := m.pc + 1), Local(m.cur, img.program[m.pc].n));
    AssignVarHandlers(m.(pc := m.pc + 1), img.program[m.pc].n, m.pc + 2);
    RunLocalVarLookup(img, builtin, m, fuel + 1);
    if a.Ok? {
      RunAssign(img, builtin, a.value, fuel);
    }
    RunAssignVar(fused, builtin, m, fuel);
  }

  /**
    The handlers behind `CmpJumpFusion`: `Cmp<op>` and then `IfGotoLabel`
    (at whatever `pc`) against `IfGotoLabel<op>`.
   */
  lemma CmpJumpHandlers(x: Machine, c: Cmp, dest: nat, pc2: int)
    ensures var a := OnBin(x, CmpOp(c));
            var one := OnIfGotoCmp(x, c, dest);
            (a.Ok? && OnIfGotoLabel(a.value.(pc := pc2), dest).Ok? <==> one.Ok?)
            && (one.Ok? ==>
                  var pair := OnIfGotoLabel(a.value.(pc := pc2), dest).value;
                  pair.(pc := 0) == one.value.(pc := 0)
                  && ((one.value.pc == dest && pair.pc == dest) || (one.value.pc == x.pc && pair.pc == pc2)))
  {
    hide Binary, CompareOp;
    var s := x.evalstack;
    if |s| >= 2 {
      var base := x.(evalstack := s[..|s| - 2]);
      assert x.(evalstack := s[..|s| - 1]).(evalstack := s[..|s| - 1][..|s| - 2]) == base;
      CompareThroughBinary(c, s[|s| - 2], s[|s| - 1]);
      var v := Binary(CmpOp(c), s[|s| - 2], s[|s| - 1]);
      if v.Ok? {
        var mid := Push(base, v.value).(pc := pc2);
        assert mid.evalstack[..|mid.evalstack| - 1] == base.evalstack;
      }
    }
  }

  /**
    `Cmp<op>; IfGotoLabel t` and `IfGotoLabel<op> t` fail together, and
    otherwise pop the same two values and go on from the same machine:
    either both jump to `t`, or both fall through, each past its own
    tokens.
   */
  lemma CmpJumpFusion(img: Image, fused: Image, builtin: (nat, seq<V>) -> Result<seq<V>, Fault>, m: Machine, c: Cmp, fuel: nat)
    requires fused == img.(program := fused.program)
    requires 0 <= m.pc && m.pc + 1 < |img.program| && m.pc < |fused.program|
    requires img.program[m.pc].kind == Bin(CmpOp(c)) && img.program[m.pc + 1].kind == IfGotoLabel
    requires fused.program[m.pc].kind == IfGotoLabelCmp(c) && fused.program[m.pc].n == img.program[m.pc + 1].n
    requires fuel > 0
    ensures var t := img.program[m.pc + 1].n;
            var one := OnIfGotoCmp(m.(pc := m.pc + 1), c, t);
            (one.Err? ==> Run(img, builtin, m, fuel + 1).Err? && Run(fused, builtin, m, fuel).Err?)
            && (one.Ok? ==>
                  Run(fused, builtin, m, fuel) == Run(fused, builtin, one.value, fuel - 1)
                  && ((one.value.pc == t && Run(img, builtin, m, fuel + 1) == Run(img, builtin, one.value, fuel - 1))
                      || (one.value.pc == m.pc + 1
                          && Run(img, builtin, m, fuel + 1) == Run(img, builtin, one.value.(pc := m.pc + 2), fuel - 1))))
  {
    hide Run, Dispatch, OnBin, OnIfGotoLabel, OnIfGotoCmp, Binary, CompareOp, Truthy;
    var a := OnBin(m.(pc := m.pc + 1), CmpOp(c));
    CmpJumpHandlers(m.(pc := m.pc + 1), c, img.program[m.pc + 1].n, m.pc + 2);
    RunBin(img, builtin, m, fuel + 1);
    if a.Ok? {
      RunIfGotoLabel(img, builtin, a.value, fuel);
    }
    RunIfGotoCmp(fused, builtin, m, fuel);
  }

  /**
    The handlers behind `ForLoopFullFusion`: `LocalVarLookup x`,
    `IntegerInline k` and `ForLoopLabel t` (at whatever `pc`s) against
    `ForLoopFull t` carrying `x` and `k`.
   */
  lemma ForLoopFullHandlers(y: Machine, x: nat, k: nat, dest: nat, pc2: int, pc3: int)
    ensures var a := OnVarLookup(y, Local(y.cur, x));
            var one := OnForLoopFull(y, x, k, dest);
            a.Ok? ==>
              var b := Push(a.value.(pc := pc2), Int(SignExtend32(k % TWO_32))).(pc := pc3);
              var last := ForStep(b, dest);
              (last.Ok? <==> one.Ok?)
              && (one.Ok? ==> last.value.(pc := 0) == one.value.(pc := 0)
                              && ((one.value.pc == dest && last.value.pc == dest)
                                  || (one.value.pc == y.pc && last.value.pc == pc3)))
    ensures OnVarLookup(y, Local(y.cur, x)).Err? ==> OnForLoopFull(y, x, k, dest).Err?
  {
    var p := Local(y.cur, x);
    if Valid(y, p) {
      var lim := Int(SignExtend32(k % TWO_32));
      var b := y.(evalstack := y.evalstack + [Ref(p), lim], pc := pc3);
      assert Push(Push(y, Ref(p)).(pc := pc2), lim).(pc := pc3) == b;
      assert (y.evalstack + [Ref(p), lim])[..|y.evalstack| + 1] == y.evalstack + [Ref(p)];
      assert (y.evalstack + [Ref(p)])[..|y.evalstack|] == y.evalstack;
      assert ForStep(b, dest) == ForBump(y.(pc := pc3), p, lim, dest);
      var v := Load(y, p).value;
      if v.Int? {
        ArithExact(v.i, 1);
      }
    }
  }

  // ----- one token, then the rest of the run -----

  /** `LocalVarLookup n`: fail, or go on from the machine with the reference pushed. */
  lemma LookupStep(img: Image, builtin: (nat, seq<V>) -> Result<seq<V>, Fault>, m: Machine, fuel: nat)
    requires fuel > 0 && 0 <= m.pc < |img.program| && img.program[m.pc].kind == LocalVarLookup
    ensures var a := OnVarLookup(m.(pc := m.pc + 1), Local(m.cur, img.program[m.pc].n));
            (a.Err? ==> Run(img, builtin, m, fuel).Err?)
            && (a.Ok? ==> Run(img, builtin, m, fuel) == Run(img, builtin, a.value, fuel - 1))
  {
    RunLocalVarLookup(img, builtin, m, fuel);
  }

  /** `IntegerInline k` never fails: it pushes `k` as a 32-bit `int`. */
  lemma InlineStep(img: Image, builtin: (nat, seq<V>) -> Result<seq<V>, Fault>, m: Machine, fuel: nat)
    requires fuel > 0 && 0 <= m.pc < |img.program| && img.program[m.pc].kind == IntegerInline
    ensures Run(img, builtin, m, fuel)
            == Run(img, builtin, Push(m.(pc := m.pc + 1), Int(SignExtend32(img.program[m.pc].n % TWO_32))), fuel - 1)
  {
    RunIntegerInline(img, builtin, m, fuel);
  }

  /** `ForLoopLabel t`: fail, or go on from the machine the shared `for` tail leaves. */
  lemma ForLabelStep(img: Image, builtin: (nat, seq<V>) -> Result<seq<V>, Fault>, m: Machine, fuel: nat)
    requires fuel > 0 && 0 <= m.pc < |img.program| && img.program[m.pc].kind == ForLoopLabel
    ensures var last := ForStep(m.(pc := m.pc + 1), img.program[m.pc].n);
            (last.Err? ==> Run(img, builtin, m, fuel).Err?)
            && (last.Ok? ==> Run(img, builtin, m, fuel) == Run(img, builtin, last.value, fuel - 1))
  {
    RunForLoopLabel(img, builtin, m, fuel);
  }

  /**
    The three tokens `LocalVarLookup x; IntegerInline k; ForLoopLabel t`
    run the lookup, push `k` and then run the shared tail of the `for`
    tokens.
   */
  lemma ForTriple(img: Image, builtin: (nat, seq<V>) -> Result<seq<V>, Fault>, m: Machine, fuel: nat)
    requires 0 <= m.pc && m.pc + 2 < |img.program|
    requires img.program[m.pc].kind == LocalVarLookup && img.program[m.pc + 1].kind == IntegerInline
    requires img.program[m.pc + 2].kind == ForLoopLabel
    requires fuel > 0
    ensures var a := OnVarLookup(m.(pc := m.pc + 1), Local(m.cur, img.program[m.pc].n));
            a.Err? ==> Run(img, builtin, m, fuel + 2).Err?
    ensures var a := OnVarLookup(m.(pc := m.pc + 1), Local(m.cur, img.program[m.pc].n));
            var lim := Int(SignExtend32(img.program[m.pc + 1].n % TWO_32));
            a.Ok? ==>
              var last := ForStep(Push(a.value.(pc := m.pc + 2), lim).(pc := m.pc + 3), img.program[m.pc + 2].n);
              (last.Err? ==> Run(img, builtin, m, fuel + 2).Err?)
              && (last.Ok? ==> Run(img, builtin, m, fuel + 2) == Run(img, builtin, last.value, fuel - 1))
  {
    hide Run, Dispatch, ForStep;
    var a := OnVarLookup(m.(pc := m.pc + 1), Local(m.cur, img.program[m.pc].n));
    LookupStep(img, builtin, m, fuel + 2);
    if a.Ok? {
      var b := Push(a.value.(pc := m.pc + 2), Int(SignExtend32(img.program[m.pc + 1].n % TWO_32)));
      InlineStep(img, builtin, a.value, fuel + 1);
      ForLabelStep(img, builtin, b, fuel);
    }
  }

  /**
    `LocalVarLookup x; IntegerInline k; ForLoopLabel t` and `ForLoopFull t`
    (with `x` and `k` in its extra fields) fail together, and otherwise go
    on from the same machine, slot `x` of the current frame having gone up
    by one: either both jump to `t`, or both fall through, each past its
    own tokens.
   */
  lemma ForLoopFullFusion(img: Image, fused: Image, builtin: (nat, seq<V>) -> Result<seq<V>, Fault>, m: Machine, fuel: nat)
    requires fused == img.(program := fused.program)
    requires 0 <= m.pc && m.pc + 2 < |img.program| && m.pc < |fused.program|
    requires img.program[m.pc].kind == LocalVarLookup && img.program[m.pc + 1].kind == IntegerInline
    requires img.program[m.pc + 2].kind == ForLoopLabel
    requires fused.program[m.pc] == Token(ForLoopFull, img.program[m.pc + 2].n, img.program[m.pc].n, img.program[m.pc + 1].n)
    requires fuel > 0
    ensures var t := img.program[m.pc + 2].n;
            var one := OnForLoopFull(m.(pc := m.pc + 1), img.program[m.pc].n, img.program[m.pc + 1].n, t);
            (one.Err? ==> Run(img, builtin, m, fuel + 2).Err? && Run(fused, builtin, m, fuel).Err?)
            && (one.Ok? ==>
                  Run(fused, builtin, m, fuel) == Run(fused, builtin, one.value, fuel - 1)
                  && ((one.value.pc == t && Run(img, builtin, m, fuel + 2) == Run(img, builtin, one.value, fuel - 1))
                      || (one.value.pc == m.pc + 1
                          && Run(img, builtin, m, fuel + 2) == Run(img, builtin, one.value.(pc := m.pc + 3), fuel - 1))))
  {
    ForLoopFullHandlers(m.(pc := m.pc + 1), img.program[m.pc].n, img.program[m.pc + 1].n, img.program[m.pc + 2].n, m.pc + 2, m.pc + 3);
    ForTriple(img, builtin, m, fuel);
    RunForLoopFull(fused, builtin, m, fuel);
  }

  /** `LocalVarLookup n` on a valid slot pushes a reference to it and goes on. */
  lemma LookupPushesRef(img: Image, builtin: (nat, seq<V>) -> Result<seq<V>, Fault>, m: Machine, fuel: nat)
    requires 0 <= m.pc < |img.program| && img.program[m.pc].kind == LocalVarLookup
    requires Valid(m, Local(m.cur, img.program[m.pc].n))
    requires fuel > 0
    ensures Run(img, builtin, m, fuel)
            == Run(img, builtin, Push(m.(pc := m.pc + 1), Ref(Local(m.cur, img.program[m.pc].n))), fuel - 1)
  {
    RunLocalVarLookup(img, builtin, m, fuel);
  }

  /** `Goto` with a reference on top throws. */
  lemma GotoRefThrows(img: Image, builtin: (nat, seq<V>) -> Result<seq<V>, Fault>, m: Machine, p: Place, fuel: nat)
    requires 0 <= m.pc < |img.program| && img.program[m.pc].kind == Goto
    requires |m.evalstack| > 0 && m.evalstack[|m.evalstack| - 1] == Ref(p)
    requires fuel > 0
    ensures Run(img, builtin, m, fuel).Err? && Run(img, builtin, m, fuel).error.Thrown?
  {
    RunGoto(img, builtin, m, fuel);
  }

  /** `LocalVarLookup n; Goto` on a valid slot throws. */
  lemma LookupGotoThrows(img: Image, builtin: (nat, seq<V>) -> Result<seq<V>, Fault>, m: Machine, fuel: nat)
    requires 0 <= m.pc && m.pc + 1 < |img.program|
    requires img.program[m.pc].kind == LocalVarLookup && img.program[m.pc + 1].kind == Goto
    requires Valid(m, Local(m.cur, img.program[m.pc].n))
    requires fuel >= 2
    ensures Run(img, builtin, m, fuel).Err? && Run(img, builtin, m, fuel).error.Thrown?
  {
    hide Run, RunCalls, RunVars, RunJumps, RunOperators, RunValues, RunArrays;
    var p := Local(m.cur, img.program[m.pc].n);
    LookupPushesRef(img, builtin, m, fuel);
    GotoRefThrows(img, builtin, Push(m.(pc := m.pc + 1), Ref(p)), p, fuel - 1);
  }

  /**
    The `LocalVarLookup n; Goto` fusion does not keep its meaning: the
    pair throws, since a reference is not a label, while the fused
    `GotoLabel` jumps to index `n`, the variable's slot number.
   */
  lemma GotoFusionChangesMeaning(img: Image, fused: Image, builtin: (nat, seq<V>) -> Result<seq<V>, Fault>, m: Machine, fuel: nat)
    requires fused == img.(program := fused.program)
    requires 0 <= m.pc && m.pc + 1 < |img.program| && m.pc < |fused.program|
    requires img.program[m.pc].kind == LocalVarLookup && img.program[m.pc + 1].kind == Goto
    requires fused.program[m.pc] == img.program[m.pc].(kind := GotoLabel)
    requires Valid(m, Local(m.cur, img.program[m.pc].n))
    requires fuel >= 2
    ensures Run(img, builtin, m, fuel).Err? && Run(img, builtin, m, fuel).error.Thrown?
    ensures Run(fused, builtin, m, fuel) == Run(fused, builtin, m.(pc := img.program[m.pc].n), fuel - 1)
  {
    LookupGotoThrows(img, builtin, m, fuel);
    RunGotoLabel(fused, builtin, m, fuel);
  }

  lemma RunLabelLookup(img: Image, builtin: (nat, seq<V>) -> Result<seq<V>, Fault>, m: Machine, fuel: nat)
    requires fuel > 0 && 0 <= m.pc < |img.program| && img.program[m.pc].kind == LabelLookup
    ensures Run(img, builtin, m, fuel) == Run(img, builtin, Push(m.(pc := m.pc + 1), Label(img.program[m.pc].n)), fuel - 1)
  {
    hide Run, Dispatch, OnFuncDec, OnFuncLookup, Unwind, OnFuncEnd, OnReturn, OnCall, OnVar, OnVarDec, OnVarLookup, OnVarDecLookup, OnAssign, OnAssignVar, OnOpAssign, OnGoto, OnIfGoto, OnIfGotoLabel, OnIfGotoCmp, OnForLoop, ForStep, ForBump, OnForLoopFull, OnBin, OnScopeClose, OnArrayBuild, OnArrayIndex, OnClone, OnArrayLen, OnArrayPopOut, OnArrayPushIn, OnStringLiteral;
    RunInJumps(img, builtin, m, fuel);
  }

  lemma RunIfGoto(img: Image, builtin: (nat, seq<V>) -> Result<seq<V>, Fault>, m: Machine, fuel: nat)
    requires fuel > 0 && 0 <= m.pc < |img.program| && img.program[m.pc].kind == IfGoto
    ensures Run(img, builtin, m, fuel) == After(img, builtin, OnIfGoto(m.(pc := m.pc + 1)), fuel - 1)
  {
    hide Run, Dispatch, OnFuncDec, OnFuncLookup, Unwind, OnFuncEnd, OnReturn, OnCall, OnVar, OnVarDec, OnVarLookup, OnVarDecLookup, OnAssign, OnAssignVar, OnOpAssign, OnGoto, OnIfGoto, OnIfGotoLabel, OnIfGotoCmp, OnForLoop, ForStep, ForBump, OnForLoopFull, OnBin, OnScopeClose, OnArrayBuild, OnArrayIndex, OnClone, OnArrayLen, OnArrayPopOut, OnArrayPushIn, OnStringLiteral;
    RunInJumps(img, builtin, m, fuel);
  }

  /** `Goto` and `IfGoto` below a pushed label act as `GotoLabel` and `IfGotoLabel` to that label. */
  lemma JumpThroughLabel(x: Machine, t: nat)
    ensures OnGoto(Push(x, Label(t))) == Ok(x.(pc := t))
    ensures OnIfGoto(Push(x, Label(t))) == OnIfGotoLabel(x, t)
  {
    assert Push(x, Label(t)).evalstack[..|x.evalstack|] == x.evalstack;
  }

  /**
    The fusion the corrected fuser makes for `:t goto`: `LabelLookup t;
    Goto` and `GotoLabel t` both go on at index `t` from the machine they
    started with, each past its own tokens.
   */
  lemma LabelGotoFusion(img: Image, fused: Image, builtin: (nat, seq<V>) -> Result<seq<V>, Fault>, m: Machine, fuel: nat)
    requires 0 <= m.pc && m.pc + 1 < |img.program| && m.pc < |fused.program|
    requires img.program[m.pc].kind == LabelLookup && img.program[m.pc + 1].kind == Goto
    requires fused.program[m.pc] == img.program[m.pc].(kind := GotoLabel)
    requires fuel > 0
    ensures Run(img, builtin, m, fuel + 1) == Run(img, builtin, m.(pc := img.program[m.pc].n), fuel - 1)
    ensures Run(fused, builtin, m, fuel) == Run(fused, builtin, m.(pc := img.program[m.pc].n), fuel - 1)
  {
    var t := img.program[m.pc].n;
    var m1 := Push(m.(pc := m.pc + 1), Label(t));
    RunLabelLookup(img, builtin, m, fuel + 1);
    RunGoto(img, builtin, m1, fuel);
    JumpThroughLabel(m.(pc := m.pc + 2), t);
    assert m1.(pc := m.pc + 2) == Push(m.(pc := m.pc + 2), Label(t));
    RunGotoLabel(fused, builtin, m, fuel);
  }

  /**
    The fusion the corrected fuser makes for `:t if_goto`: `LabelLookup t;
    IfGoto` and `IfGotoLabel t` fail together, and otherwise pop the same
    condition and go on from the same machine: either both jump to `t`, or
    both fall through, each past its own tokens.
   */
  lemma LabelIfGotoFusion(img: Image, fused: Image, builtin: (nat, seq<V>) -> Result<seq<V>, Fault>, m: Machine, fuel: nat)
    requires 0 <= m.pc && m.pc + 1 < |img.program| && m.pc < |fused.program|
    requires img.program[m.pc].kind == LabelLookup && img.program[m.pc + 1].kind == IfGoto
    requires fused.program[m.pc] == img.program[m.pc].(kind := IfGotoLabel)
    requires fuel > 0
    ensures var t := img.program[m.pc].n;
            var one := OnIfGotoLabel(m.(pc := m.pc + 1), t);
            (one.Err? ==> Run(img, builtin, m, fuel + 1).Err? && Run(fused, builtin, m, fuel).Err?)
            && (one.Ok? ==>
                  Run(fused, builtin, m, fuel) == Run(fused, builtin, one.value, fuel - 1)
                  && ((one.value.pc == t && Run(img, builtin, m, fuel + 1) == Run(img, builtin, one.value, fuel - 1))
                      || (one.value.pc == m.pc + 1
                          && Run(img, builtin, m, fuel + 1) == Run(img, builtin, one.value.(pc := m.pc + 2), fuel - 1))))
  {
    hide Run, Dispatch;
    var t := img.program[m.pc].n;
    var m1 := Push(m.(pc := m.pc + 1), Label(t));
    RunLabelLookup(img, builtin, m, fuel + 1);
    RunIfGoto(img, builtin, m1, fuel);
    JumpThroughLabel(m.(pc := m.pc + 2), t);
    assert m1.(pc := m.pc + 2) == Push(m.(pc := m.pc + 2), Label(t));
    RunIfGotoLabel(fused, builtin, m, fuel);
  }
}
