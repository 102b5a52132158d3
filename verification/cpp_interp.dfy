/**
  flinch.cpp's `interpret` (flinch.cpp:729-1165) on a machine state. The
  three dispatch encodings of the source (a `switch` loop, computed
  `goto`, tail calls) run the same handlers; the model follows the
  threaded one: `Dispatch` fetches a token, the handler of its family
  (`StepCalls`, `StepVars`, ...) computes the next machine, and `Run`
  carries on from there for a bounded number of tokens.

  Every handler first moves past its token (`i += 1`), so a jump target is
  the index of the next token to run. A `Ref` is a handle: a global slot,
  a slot of a call frame, or an array element. Call frames are never
  reused, so a reference into a frame that has returned is detected as the
  dangling pointer it is in the source. Arrays live in a store indexed by
  handle, so copies of an array value share its elements as the source's
  `shared_ptr` does.
 */
module CppInterp {
  import opened Wrappers
  import opened MachineInt
  import opened Tokens
  import opened DynValue
  import CppLink

  type V = Value<CppLink.Func>

  /** What `load_program` hands to `interpret`, plus the literal tables it filled. */
  datatype Image = Image(
    program: seq<Token>,
    funcs: seq<CppLink.Func>,
    ints: seq<Int64>,
    strVals: seq<seq<Int64>>,
    strRefs: seq<seq<Int64>>,
    varCount: nat)

  datatype Machine = Machine(
    pc: int,
    evalstack: seq<V>,
    evalstacks: seq<seq<V>>,
    /** `(return index, isEval)`. */
    callstack: seq<(int, bool)>,
    fstack: seq<nat>,
    globals: seq<V>,
    /** Every call frame ever made; `frames[cur]` is `varstack`. */
    frames: seq<seq<V>>,
    cur: nat,
    /** `varstacks`: the frames of the callers, as indices into `frames`. */
    saved: seq<nat>,
    arrays: seq<seq<V>>)

  function Zeros(n: nat): (r: seq<V>)
    ensures |r| == n && forall k :: 0 <= k < n ==> r[k] == Int(0)
  {
    seq(n, _ => Int(0))
  }

  function IntArray(vals: seq<Int64>): (r: seq<V>)
    ensures |r| == |vals| && forall k :: 0 <= k < |vals| ==> r[k] == Int(vals[k])
  {
    seq(|vals|, k requires 0 <= k < |vals| => Int(vals[k]))
  }

  /**
    The machine `interpret` starts with: globals zeroed, an empty
    `varstack` at the top level, `fstack == [0]`, and one shared array per
    `"..."&` literal.
   */
  function Start(img: Image): (m: Machine)
    ensures m.pc == 0 && m.evalstack == [] && m.callstack == [] && |m.globals| == img.varCount
    ensures |m.arrays| == |img.strRefs|
  {
    Machine(0, [], [], [], [0], Zeros(img.varCount), [[]], 0, [],
            seq(|img.strRefs|, k requires 0 <= k < |img.strRefs| => IntArray(img.strRefs[k])))
  }

  /** The interpreter stopped at `Exit`. */
  predicate Halted(img: Image, m: Machine) {
    0 <= m.pc < |img.program| && img.program[m.pc].kind == Exit
  }

  // ----- stack and store helpers -----

  /** `valpop()`: `back()` of an empty vector is undefined. */
  function Pop(m: Machine): (r: Result<(V, Machine), Fault>)
    ensures r.Ok? <==> |m.evalstack| > 0
    ensures r.Ok? ==> r.value.0 == m.evalstack[|m.evalstack| - 1]
                      && r.value.1 == m.(evalstack := m.evalstack[..|m.evalstack| - 1])
  {
    if |m.evalstack| == 0 then Err(Undefined(BackOfEmpty))
    else Ok((m.evalstack[|m.evalstack| - 1], m.(evalstack := m.evalstack[..|m.evalstack| - 1])))
  }

  function Push(m: Machine, v: V): (r: Machine)
    ensures r.evalstack == m.evalstack + [v] && r == m.(evalstack := r.evalstack)
  {
    m.(evalstack := m.evalstack + [v])
  }

  /** The value `k` places below the top of the evaluation stack. */
  function Nth(m: Machine, k: nat): V
    requires k < |m.evalstack|
  {
    m.evalstack[|m.evalstack| - 1 - k]
  }

  /** The evaluation stack without its top `k` values. */
  function Under(m: Machine, k: nat): seq<V>
    requires k <= |m.evalstack|
  {
    m.evalstack[..|m.evalstack| - k]
  }

  function AsRef(v: V): (r: Result<Place, Fault>)
    ensures r.Ok? <==> v.Ref?
  {
    if v.Ref? then Ok(v.p) else Err(Thrown(NotARef))
  }

  function AsLabel(v: V): (r: Result<int, Fault>)
    ensures r.Ok? <==> v.Label?
  {
    if v.Label? then Ok(v.loc) else Err(Thrown(NotALabel))
  }

  function AsFunc(v: V): (r: Result<CppLink.Func, Fault>)
    ensures r.Ok? <==> v.Func?
  {
    if v.Func? then Ok(v.f) else Err(Thrown(NotAFunc))
  }

  /** `as_into_int()`: the integer, or a double's truncation, which the model does not compute. */
  function AsIntoInt(v: V): (r: Result<Int64, Fault>)
    ensures r.Ok? <==> v.Int?
  {
    match v
    case Int(i) => Ok(i)
    case Dbl => Err(Unmodelled(DoubleToInteger))
    case _ => Err(Thrown(NotNumeric))
  }

  /** A frame is alive while it is `varstack` or saved in `varstacks`. */
  predicate Live(m: Machine, f: nat) {
    f < |m.frames| && (f == m.cur || f in m.saved)
  }

  /** Where a place is readable: a slot in range of a live frame, the globals, or an array. */
  predicate Valid(m: Machine, p: Place) {
    match p
    case Global(k) => k < |m.globals|
    case Local(f, k) => Live(m, f) && k < |m.frames[f]|
    case Elem(a, k) => a < |m.arrays| && k < |m.arrays[a]|
  }

  /** `*ref`: reading a dangling or out-of-range place is undefined. */
  function Load(m: Machine, p: Place): (r: Result<V, Fault>)
    ensures r.Ok? <==> Valid(m, p)
  {
    if !Valid(m, p) then Err(Undefined(BadReference))
    else match p
      case Global(k) => Ok(m.globals[k])
      case Local(f, k) => Ok(m.frames[f][k])
      case Elem(a, k) => Ok(m.arrays[a][k])
  }

  /** `*ref = v`. Nothing but the one place changes. */
  function Store(m: Machine, p: Place, v: V): (r: Result<Machine, Fault>)
    ensures r.Ok? <==> Valid(m, p)
    ensures r.Ok? ==> Load(r.value, p) == Ok(v)
    ensures r.Ok? ==> r.value.pc == m.pc && r.value.evalstack == m.evalstack && r.value.evalstacks == m.evalstacks
                      && r.value.callstack == m.callstack && r.value.cur == m.cur && r.value.saved == m.saved
  {
    if !Valid(m, p) then Err(Undefined(BadReference))
    else match p
      case Global(k) => Ok(m.(globals := m.globals[k := v]))
      case Local(f, k) => Ok(m.(frames := m.frames[f := m.frames[f][k := v]]))
      case Elem(a, k) => Ok(m.(arrays := m.arrays[a := m.arrays[a][k := v]]))
  }

  /** A fresh array holding `items`. */
  function NewArray(m: Machine, items: seq<V>): (r: (V, Machine))
    ensures r.0 == Array(|m.arrays|) && r.1.arrays == m.arrays + [items]
  {
    (Array(|m.arrays|), m.(arrays := m.arrays + [items]))
  }

  /** The array an array value or a reference to one denotes. */
  function ArrayOf(m: Machine, v: V, what: Cause): (r: Result<nat, Fault>)
    ensures r.Ok? ==> r.value < |m.arrays|
    ensures r.Ok? && v.Array? ==> r.value == v.id
    ensures r.Ok? ==> v.Array? || (v.Ref? && Load(m, v.p) == Ok(Array(r.value)))
    ensures !v.Array? && !v.Ref? ==> r == Err(Thrown(what))
  {
    if v.Array? then
      if v.id < |m.arrays| then Ok(v.id) else Err(Undefined(DanglingArray))
    else if v.Ref? then
      var w :- Load(m, v.p);
      if !w.Array? then Err(Thrown(what))
      else if w.id < |m.arrays| then Ok(w.id) else Err(Undefined(DanglingArray))
    else Err(Thrown(what))
  }

  /** `vector::operator[]` with an `int64_t` index: out of range is undefined. */
  function InRange(i: int, len: nat): bool {
    0 <= i < len
  }

  // ----- the handlers -----
  // Each takes the machine after `i += 1`, so `m.pc` is the index of the next token.

  function OnFuncDec(img: Image, n: nat, m: Machine): (r: Result<Machine, Fault>)
    ensures r.Ok? <==> n < |img.funcs|
    ensures r.Ok? ==> r.value == m.(pc := m.pc + img.funcs[n].len)
  {
    if n >= |img.funcs| then Err(Undefined(FuncsIndex))
    else Ok(m.(pc := m.pc + img.funcs[n].len))
  }

  function OnFuncLookup(img: Image, n: nat, m: Machine): (r: Result<Machine, Fault>)
    ensures r.Ok? <==> n < |img.funcs|
    ensures r.Ok? ==> r.value == m.(evalstack := m.evalstack + [Func(img.funcs[n])])
  {
    if n >= |img.funcs| then Err(Undefined(FuncsIndex))
    else Ok(Push(m, Func(img.funcs[n])))
  }

  /** The common tail of `FuncEnd` and `Return`: restore the caller's frame and pop the call record. */
  function Unwind(m: Machine): (r: Result<(Machine, bool), Fault>)
    ensures r.Ok? <==> |m.saved| > 0 && |m.callstack| > 0
    ensures r.Ok? ==> var top := m.callstack[|m.callstack| - 1];
                      r.value.1 == top.1 && r.value.0.pc == top.0 && r.value.0.callstack == m.callstack[..|m.callstack| - 1]
                      && r.value.0.cur == m.saved[|m.saved| - 1] && r.value.0.saved == m.saved[..|m.saved| - 1]
                      && r.value.0.evalstack == m.evalstack && r.value.0.frames == m.frames
  {
    if |m.saved| == 0 || |m.callstack| == 0 then Err(Undefined(BackOfEmpty))
    else
      var (ret, isEval) := m.callstack[|m.callstack| - 1];
      Ok((m.(cur := m.saved[|m.saved| - 1], saved := m.saved[..|m.saved| - 1],
             pc := ret, callstack := m.callstack[..|m.callstack| - 1]), isEval))
  }

  function OnFuncEnd(m: Machine): (r: Result<Machine, Fault>)
    ensures r.Ok? <==> |m.saved| > 0 && |m.callstack| > 0
    ensures r.Ok? ==> var top := m.callstack[|m.callstack| - 1];
                      r.value.pc == top.0 && r.value.cur == m.saved[|m.saved| - 1]
                      && r.value.evalstack == m.evalstack + (if top.1 then [Int(0)] else [])
  {
    var (m1, isEval) :- Unwind(m);
    Ok(if isEval then Push(m1, Int(0)) else m1)
  }

  function OnReturn(m: Machine): (r: Result<Machine, Fault>)
    ensures r.Ok? <==> |m.evalstack| > 0 && |m.saved| > 0 && |m.callstack| > 0
    ensures r.Ok? ==> var top := m.callstack[|m.callstack| - 1];
                      r.value.pc == top.0 && r.value.cur == m.saved[|m.saved| - 1]
                      && r.value.evalstack == Under(m, 1) + (if top.1 then [Nth(m, 0)] else [])
  {
    var (val, m0) :- Pop(m);
    var (m1, isEval) :- Unwind(m0);
    Ok(if isEval then Push(m1, val) else m1)
  }

  function OnCall(img: Image, m: Machine, isEval: bool): (r: Result<Machine, Fault>)
    ensures r.Ok? <==> |m.evalstack| > 0 && Nth(m, 0).Func?
    ensures r.Ok? ==> var f := Nth(m, 0).f;
                      r.value.pc == f.loc && r.value.callstack == m.callstack + [(m.pc, isEval)]
                      && r.value.fstack == m.fstack + [f.name] && r.value.evalstack == Under(m, 1)
                      && r.value.cur == |m.frames| && r.value.frames == m.frames + [Zeros(img.varCount)]
                      && r.value.saved == m.saved + [m.cur]
  {
    var (fv, m0) :- Pop(m);
    var f :- AsFunc(fv);
    Ok(m0.(callstack := m0.callstack + [(m0.pc, isEval)],
           fstack := m0.fstack + [f.name],
           saved := m0.saved + [m0.cur],
           frames := m0.frames + [Zeros(img.varCount)],
           cur := |m0.frames|,
           pc := f.loc))
  }

  /** `LocalVar` and `GlobalVar`: push the variable's value. */
  function OnVar(m: Machine, p: Place): (r: Result<Machine, Fault>)
    ensures r.Ok? <==> Valid(m, p)
    ensures r.Ok? ==> r.value == m.(evalstack := m.evalstack + [Load(m, p).value])
  {
    var v :- Load(m, p);
    Ok(Push(m, v))
  }

  /** `LocalVarDec` and `GlobalVarDec`: set the variable to 0. */
  function OnVarDec(m: Machine, p: Place): (r: Result<Machine, Fault>)
    ensures r.Ok? <==> Valid(m, p)
    ensures r.Ok? ==> Load(r.value, p) == Ok(Int(0)) && r.value.evalstack == m.evalstack && r.value.pc == m.pc
  {
    Store(m, p, Int(0))
  }

  /** `LocalVarLookup` and `GlobalVarLookup`: push a reference to the variable. */
  function OnVarLookup(m: Machine, p: Place): (r: Result<Machine, Fault>)
    ensures r.Ok? <==> Valid(m, p)
    ensures r.Err? ==> r.error == Undefined(VariableIndex)
    ensures r.Ok? ==> r.value == m.(evalstack := m.evalstack + [Ref(p)])
  {
    if Valid(m, p) then Ok(Push(m, Ref(p))) else Err(Undefined(VariableIndex))
  }

  /** `LocalVarDecLookup` and `GlobalVarDecLookup`: set to 0, then push a reference. */
  function OnVarDecLookup(m: Machine, p: Place): (r: Result<Machine, Fault>)
    ensures r.Ok? <==> Valid(m, p)
    ensures r.Ok? ==> Load(r.value, p) == Ok(Int(0)) && r.value.evalstack == m.evalstack + [Ref(p)] && r.value.pc == m.pc
  {
    var m1 :- Store(m, p, Int(0));
    Ok(Push(m1, Ref(p)))
  }

  /** `Assign`: pop the reference, then the value, and store through the reference. */
  function OnAssign(m: Machine): (r: Result<Machine, Fault>)
    ensures |m.evalstack| > 0 && !Nth(m, 0).Ref? ==> r == Err(Thrown(NotARef))
    ensures r.Ok? <==> |m.evalstack| >= 2 && Nth(m, 0).Ref? && Valid(m, Nth(m, 0).p)
    ensures r.Ok? ==> Load(r.value, Nth(m, 0).p) == Ok(Nth(m, 1)) && r.value.evalstack == Under(m, 2) && r.value.pc == m.pc
  {
    var (rv, m1) :- Pop(m);
    var p :- AsRef(rv);
    var (val, m2) :- Pop(m1);
    Store(m2, p, val)
  }

  /** `AssignVar n`: pop the value into the local slot `n`. */
  function OnAssignVar(m: Machine, p: Place): (r: Result<Machine, Fault>)
    ensures r.Ok? <==> |m.evalstack| > 0 && Valid(m, p)
    ensures r.Ok? ==> Load(r.value, p) == Ok(Nth(m, 0)) && r.value.evalstack == Under(m, 1) && r.value.pc == m.pc
  {
    var (val, m1) :- Pop(m);
    Store(m1, p, val)
  }

  /** `+=` and friends: pop the reference, then the operand, and update in place. */
  function OnOpAssign(m: Machine, a: Arith): (r: Result<Machine, Fault>)
    ensures r.Ok? ==> |m.evalstack| >= 2 && Nth(m, 0).Ref? && Load(m, Nth(m, 0).p).Ok?
                      && Binary(ArithOp(a), Load(m, Nth(m, 0).p).value, Nth(m, 1)).Ok?
    ensures r.Ok? ==> Load(r.value, Nth(m, 0).p) == Ok(Binary(ArithOp(a), Load(m, Nth(m, 0).p).value, Nth(m, 1)).value)
                      && r.value.evalstack == Under(m, 2)
  {
    var (rv, m1) :- Pop(m);
    var p :- AsRef(rv);
    var (x, m2) :- Pop(m1);
    var v :- Load(m2, p);
    var w :- Binary(ArithOp(a), v, x);
    Store(m2, p, w)
  }

  function OnGoto(m: Machine): (r: Result<Machine, Fault>)
    ensures r.Ok? <==> |m.evalstack| > 0 && Nth(m, 0).Label?
    ensures r.Ok? ==> r.value == m.(evalstack := Under(m, 1), pc := Nth(m, 0).loc)
  {
    var (dv, m1) :- Pop(m);
    var dest :- AsLabel(dv);
    Ok(m1.(pc := dest))
  }

  /** `IfGoto`: pop the destination, then the condition. */
  function OnIfGoto(m: Machine): (r: Result<Machine, Fault>)
    ensures r.Ok? <==> |m.evalstack| >= 2 && Nth(m, 0).Label? && !Nth(m, 1).Dbl?
    ensures r.Ok? ==> r.value == m.(evalstack := Under(m, 2), pc := if Truthy(Nth(m, 1)).value then Nth(m, 0).loc else m.pc)
  {
    var (dv, m1) :- Pop(m);
    var dest :- AsLabel(dv);
    var (val, m2) :- Pop(m1);
    var b :- Truthy(val);
    Ok(if b then m2.(pc := dest) else m2)
  }

  function OnIfGotoLabel(m: Machine, dest: nat): (r: Result<Machine, Fault>)
    ensures r.Ok? <==> |m.evalstack| > 0 && !Nth(m, 0).Dbl?
    ensures r.Ok? ==> r.value == m.(evalstack := Under(m, 1), pc := if Truthy(Nth(m, 0)).value then dest else m.pc)
  {
    var (val, m1) :- Pop(m);
    var b :- Truthy(val);
    Ok(if b then m1.(pc := dest) else m1)
  }

  /** `IfGotoLabel<op>`: pop `val2`, then `val1`, and jump when `val1 OP val2`. */
  function OnIfGotoCmp(m: Machine, c: Cmp, dest: nat): (r: Result<Machine, Fault>)
    ensures r.Ok? <==> |m.evalstack| >= 2 && CompareOp(c, Nth(m, 1), Nth(m, 0)).Ok?
    ensures r.Ok? ==> r.value == m.(evalstack := Under(m, 2), pc := if CompareOp(c, Nth(m, 1), Nth(m, 0)).value then dest else m.pc)
  {
    var (val2, m1) :- Pop(m);
    var (val1, m2) :- Pop(m1);
    var b :- CompareOp(c, val1, val2);
    Ok(if b then m2.(pc := dest) else m2)
  }

  /** `ForLoop`: pop the destination, then run the shared tail. */
  function OnForLoop(m: Machine): (r: Result<Machine, Fault>)
    ensures |m.evalstack| > 0 && !Nth(m, 0).Label? ==> r == Err(Thrown(NotALabel))
    ensures r.Ok? ==> |m.evalstack| >= 3 && Nth(m, 0).Label? && Nth(m, 1).Int? && Nth(m, 2).Ref?
                      && var p := Nth(m, 2).p;
                      Load(m, p).Ok? && Load(m, p).value.Int? && IsInt64(Load(m, p).value.i + 1)
                      && var v := Load(m, p).value.i + 1;
                      Load(r.value, p) == Ok(Int(v)) && r.value.evalstack == Under(m, 3)
                      && r.value.pc == (if v <= Nth(m, 1).i then Nth(m, 0).loc else m.pc)
  {
    var (dv, m1) :- Pop(m);
    var dest :- AsLabel(dv);
    ForStep(m1, dest)
  }

  /**
    The shared tail of `ForLoop` and `ForLoopLabel`: pop the limit and the
    reference, add one to the variable, and jump while it is `<=` the
    limit.
   */
  function ForStep(m: Machine, dest: int): (r: Result<Machine, Fault>)
    ensures r.Ok? ==> |m.evalstack| >= 2 && Nth(m, 1).Ref? && Nth(m, 0).Int?
    ensures r.Ok? ==> var p := Nth(m, 1).p;
                      Load(m, p).Ok? && Load(m, p).value.Int? && IsInt64(Load(m, p).value.i + 1)
                      && var v := Load(m, p).value.i + 1;
                      Load(r.value, p) == Ok(Int(v)) && r.value.evalstack == Under(m, 2)
                      && r.value.pc == (if v <= Nth(m, 0).i then dest else m.pc)
  {
    var (num, m1) :- Pop(m);
    var (rv, m2) :- Pop(m1);
    var p :- AsRef(rv);
    ForBump(m2, p, num, dest)
  }

  /** `ForStep` once the limit and the reference are off the stack. */
  function ForBump(m: Machine, p: Place, num: V, dest: int): (r: Result<Machine, Fault>)
    ensures !num.Int? ==> r == Err(Thrown(ForLoopNonInteger))
    ensures r.Ok? ==> Load(m, p).Ok? && Load(m, p).value.Int? && num.Int? && IsInt64(Load(m, p).value.i + 1)
    ensures r.Ok? ==> var v := Load(m, p).value.i + 1;
                      Load(r.value, p) == Ok(Int(v)) && r.value.pc == (if v <= num.i then dest else m.pc)
    ensures r.Ok? ==> r.value.evalstack == m.evalstack
  {
    if !num.Int? then Err(Thrown(ForLoopNonInteger))
    else
      var v :- Load(m, p);
      if !v.Int? then Err(Thrown(ForLoopNonInteger))
      else
        var next :- Binary(ArithOp(Add), v, Int(1));
        var m1 := Store(m, p, next).value;
        var go :- CompareOp(LE, next, num);
        Ok(if go then m1.(pc := dest) else m1)
  }

  /**
    `ForLoopFull`: the variable is local slot `x` and the limit the
    sign-extended immediate `k`, both read from the token itself.
   */
  function OnForLoopFull(m: Machine, x: nat, k: nat, dest: nat): (r: Result<Machine, Fault>)
    ensures r.Ok? ==> var p := Local(m.cur, x);
                      Load(m, p).Ok? && Load(m, p).value.Int? && IsInt64(Load(m, p).value.i + 1)
                      && var v := Load(m, p).value.i + 1;
                      Load(r.value, p) == Ok(Int(v)) && r.value.evalstack == m.evalstack
                      && r.value.pc == (if v <= SignExtend32(k % TWO_32) then dest else m.pc)
  {
    var p := Local(m.cur, x);
    var v :- Load(m, p);
    if !v.Int? then Err(Thrown(ForLoopNonInteger))
    else
      var next :- Checked(v.i as int + 1);
      var m1 := Store(m, p, Int(next)).value;
      Ok(if next <= SignExtend32(k % TWO_32) then m1.(pc := dest) else m1)
  }

  /** The `INFIX` operators: pop `b`, then `a`, push `a OP b`. */
  function OnBin(m: Machine, op: BinOp): (r: Result<Machine, Fault>)
    ensures r.Ok? <==> |m.evalstack| >= 2 && Binary(op, Nth(m, 1), Nth(m, 0)).Ok?
    ensures r.Ok? ==> r.value == m.(evalstack := Under(m, 2) + [Binary(op, Nth(m, 1), Nth(m, 0)).value])
  {
    var (b, m1) :- Pop(m);
    var (a, m2) :- Pop(m1);
    var v :- Binary(op, a, b);
    Ok(Push(m2, v))
  }

  function OnScopeClose(m: Machine): (r: Result<Machine, Fault>)
    ensures r.Ok? <==> |m.evalstacks| > 0
    ensures r.Ok? ==> m.(evalstacks := r.value.evalstacks + [r.value.evalstack]) == m.(evalstacks := m.evalstacks)
                      && r.value == m.(evalstack := r.value.evalstack, evalstacks := r.value.evalstacks)
  {
    if |m.evalstacks| == 0 then Err(Undefined(BackOfEmpty))
    else Ok(m.(evalstack := m.evalstacks[|m.evalstacks| - 1], evalstacks := m.evalstacks[..|m.evalstacks| - 1]))
  }

  /** `]`: the whole current evaluation stack becomes a new array, pushed onto the restored one. */
  function OnArrayBuild(m: Machine): (r: Result<Machine, Fault>)
    ensures r.Ok? <==> |m.evalstacks| > 0
    ensures r.Ok? ==> r.value.evalstack == m.evalstacks[|m.evalstacks| - 1] + [Array(|m.arrays|)]
                      && r.value.evalstacks == m.evalstacks[..|m.evalstacks| - 1] && r.value.arrays == m.arrays + [m.evalstack]
  {
    var m1 :- OnScopeClose(m);
    var (a, m2) := NewArray(m1, m.evalstack);
    Ok(Push(m2, a))
  }

  function OnArrayIndex(m: Machine): (r: Result<Machine, Fault>)
    ensures r.Ok? ==> |m.evalstack| >= 2 && Nth(m, 0).Int? && ArrayOf(m, Nth(m, 1), IndexNonArray).Ok?
                      && var id, n := ArrayOf(m, Nth(m, 1), IndexNonArray).value, Nth(m, 0).i;
                      0 <= n < |m.arrays[id]|
                      && r.value == m.(evalstack := Under(m, 2) + [if Nth(m, 1).Array? then m.arrays[id][n] else Ref(Elem(id, n))])
  {
    var (iv, m1) :- Pop(m);
    var i :- AsIntoInt(iv);
    var (a, m2) :- Pop(m1);
    if a.Array? then
      if a.id >= |m2.arrays| || !InRange(i, |m2.arrays[a.id]|) then Err(Undefined(IndexOutOfRange))
      else Ok(Push(m2, m2.arrays[a.id][i]))
    else if a.Ref? then
      var w :- Load(m2, a.p);
      if !w.Array? then Err(Thrown(IndexNonArray))
      else if w.id >= |m2.arrays| || !InRange(i, |m2.arrays[w.id]|) then Err(Undefined(IndexOutOfRange))
      else Ok(Push(m2, Ref(Elem(w.id, i))))
    else Err(Thrown(IndexNonArray))
  }

  /** `Clone`: dereference, and give an array a fresh copy of its elements. */
  function OnClone(m: Machine): (r: Result<Machine, Fault>)
    ensures r.Ok? ==> |m.evalstack| > 0 && (Nth(m, 0).Ref? ==> Valid(m, Nth(m, 0).p))
    ensures r.Ok? ==> var w := if Nth(m, 0).Ref? then Load(m, Nth(m, 0).p).value else Nth(m, 0);
                      if w.Array? then w.id < |m.arrays| && r.value.evalstack == Under(m, 1) + [Array(|m.arrays|)]
                                       && r.value.arrays == m.arrays + [m.arrays[w.id]]
                      else r.value == m.(evalstack := Under(m, 1) + [w])
  {
    var (v, m1) :- Pop(m);
    var w :- if v.Ref? then Load(m1, v.p) else Ok(v);
    if w.Array? then
      if w.id >= |m1.arrays| then Err(Undefined(DanglingArray))
      else
        var (c, m2) := NewArray(m1, m1.arrays[w.id]);
        Ok(Push(m2, c))
    else Ok(Push(m1, w))
  }

  /** `ArrayLen` (`less == 0`) and `ArrayLenMinusOne` (`less == 1`). */
  function OnArrayLen(m: Machine, less: nat): (r: Result<Machine, Fault>)
    ensures r.Ok? <==> |m.evalstack| > 0 && ArrayOf(m, Nth(m, 0), LengthNonArray).Ok?
    ensures r.Ok? ==> r.value == m.(evalstack := Under(m, 1) + [Int(Wrap64(|m.arrays[ArrayOf(m, Nth(m, 0), LengthNonArray).value]| - less))])
  {
    var (v, m1) :- Pop(m);
    var id :- ArrayOf(m1, v, LengthNonArray);
    Ok(Push(m1, Int(Wrap64(|m1.arrays[id]| - less))))
  }

  /** `ArrayPopOut`: pop the index, then the array; remove that element and push it. */
  function OnArrayPopOut(m: Machine): (r: Result<Machine, Fault>)
    ensures r.Ok? ==> |m.evalstack| >= 2 && Nth(m, 0).Int? && ArrayOf(m, Nth(m, 1), IndexNonArray).Ok?
                      && var id, n := ArrayOf(m, Nth(m, 1), IndexNonArray).value, Nth(m, 0).i;
                      0 <= n < |m.arrays[id]| && r.value.evalstack == Under(m, 2) + [m.arrays[id][n]]
                      && r.value.arrays == m.arrays[id := m.arrays[id][..n] + m.arrays[id][n + 1..]]
  {
    var (iv, m1) :- Pop(m);
    var i :- AsIntoInt(iv);
    var (v, m2) :- Pop(m1);
    var id :- ArrayOf(m2, v, IndexNonArray);
    var items := m2.arrays[id];
    if !InRange(i, |items|) then Err(Undefined(IndexOutOfRange))
    else
      var m3 := m2.(arrays := m2.arrays[id := items[..i] + items[i + 1..]]);
      Ok(Push(m3, items[i]))
  }

  /** `ArrayPushIn`: pop the value, the index, then the array, and insert the value at the index. */
  function OnArrayPushIn(m: Machine): (r: Result<Machine, Fault>)
    ensures r.Ok? ==> |m.evalstack| >= 3 && Nth(m, 1).Int? && ArrayOf(m, Nth(m, 2), IndexNonArray).Ok?
                      && var id, n := ArrayOf(m, Nth(m, 2), IndexNonArray).value, Nth(m, 1).i;
                      0 <= n < |m.arrays[id]| && r.value.evalstack == Under(m, 3)
                      && r.value.arrays == m.arrays[id := m.arrays[id][..n] + [Nth(m, 0)] + m.arrays[id][n..]]
  {
    var (inval, m1) :- Pop(m);
    var (iv, m2) :- Pop(m1);
    var i :- AsIntoInt(iv);
    var (v, m3) :- Pop(m2);
    var id :- ArrayOf(m3, v, IndexNonArray);
    var items := m3.arrays[id];
    // the handler reads `items[i]` before inserting, so `i == size` is out of range too
    if !InRange(i, |items|) then Err(Undefined(IndexOutOfRange))
    else Ok(m3.(arrays := m3.arrays[id := items[..i] + [inval] + items[i..]]))
  }

  function OnStringLiteral(img: Image, n: nat, m: Machine): (r: Result<Machine, Fault>)
    ensures r.Ok? <==> n < |img.strVals|
    ensures r.Ok? ==> r.value.evalstack == m.evalstack + [Array(|m.arrays|)] && r.value.arrays == m.arrays + [IntArray(img.strVals[n])]
  {
    if n >= |img.strVals| then Err(Undefined(StringValIndex))
    else
      var (a, m1) := NewArray(m, IntArray(img.strVals[n]));
      Ok(Push(m1, a))
  }

  /**
    The handlers by family: calls, variables, jumps, the operators (which
    go through `DynamicType`'s arithmetic), other values, and arrays.
    `Stop` is `Exit`; `Other` holds the kinds only flinch.hpp produces.
   */
  datatype Group = Stop | Calls | Vars | Jumps | Operators | Values | Arrays | Other

  function GroupOf(k: Kind): Group {
    match k
    case Exit => Stop
    case FuncDec | FuncLookup | FuncEnd | Return | Call | CallEval => Calls
    case LocalVar | LocalVarDec | LocalVarLookup | LocalVarDecLookup
       | GlobalVar | GlobalVarDec | GlobalVarLookup | GlobalVarDecLookup
       | Assign | AssignVar => Vars
    case LabelLookup | LabelDec | Goto | GotoLabel | IfGoto | IfGotoLabel | IfGotoLabelCmp(_) | ForLoopFull => Jumps
    case Bin(_) | OpAssign(_) | ForLoop | ForLoopLabel => Operators
    case IntegerInline | IntegerInlineBigDec | IntegerInlineBigBin | Integer | Double | DoubleInline
       | ScopeOpen | ScopeClose | StringLiteral | StringLitReference | BuiltinCall => Values
    case ArrayBuild | ArrayIndex | Clone | ArrayLen | ArrayLenMinusOne | ArrayPopOut | ArrayPushIn => Arrays
    case _ => Other
  }

  /** The call handlers. `m1` is the machine after `i += 1`. */
  function StepCalls(img: Image, t: Token, m1: Machine): (r: Result<Machine, Fault>)
  {
    if t.kind.FuncDec? then OnFuncDec(img, t.n, m1)
    else if t.kind.FuncLookup? then OnFuncLookup(img, t.n, m1)
    else if t.kind.FuncEnd? then OnFuncEnd(m1)
    else if t.kind.Return? then OnReturn(m1)
    else if t.kind.Call? then OnCall(img, m1, false)
    else if t.kind.CallEval? then OnCall(img, m1, true)
    else Err(Thrown(UnknownOpcode))
  }

  /** The variable handlers. */
  function StepVars(t: Token, m1: Machine): (r: Result<Machine, Fault>)
  {
    if t.kind.LocalVar? then OnVar(m1, Local(m1.cur, t.n))
    else if t.kind.LocalVarDec? then OnVarDec(m1, Local(m1.cur, t.n))
    else if t.kind.LocalVarLookup? then OnVarLookup(m1, Local(m1.cur, t.n))
    else if t.kind.LocalVarDecLookup? then OnVarDecLookup(m1, Local(m1.cur, t.n))
    else if t.kind.GlobalVar? then OnVar(m1, Global(t.n))
    else if t.kind.GlobalVarDec? then OnVarDec(m1, Global(t.n))
    else if t.kind.GlobalVarLookup? then OnVarLookup(m1, Global(t.n))
    else if t.kind.GlobalVarDecLookup? then OnVarDecLookup(m1, Global(t.n))
    else if t.kind.Assign? then OnAssign(m1)
    else if t.kind.AssignVar? then OnAssignVar(m1, Local(m1.cur, t.n))
    else Err(Thrown(UnknownOpcode))
  }

  /** The jump handlers. */
  function StepJumps(t: Token, m1: Machine): (r: Result<Machine, Fault>)
  {
    if t.kind.LabelLookup? then Ok(Push(m1, Label(t.n)))
    else if t.kind.LabelDec? then Err(Thrown(DeletedOpcode))
    else if t.kind.Goto? then OnGoto(m1)
    else if t.kind.GotoLabel? then Ok(m1.(pc := t.n))
    else if t.kind.IfGoto? then OnIfGoto(m1)
    else if t.kind.IfGotoLabel? then OnIfGotoLabel(m1, t.n)
    else if t.kind.IfGotoLabelCmp? then OnIfGotoCmp(m1, t.kind.c, t.n)
    else if t.kind.ForLoopFull? then OnForLoopFull(m1, t.x1, t.x2, t.n)
    else Err(Thrown(UnknownOpcode))
  }

  /** The handlers that compute with `DynamicType`'s binary operators. */
  function StepOperators(t: Token, m1: Machine): (r: Result<Machine, Fault>)
  {
    if t.kind.Bin? then OnBin(m1, t.kind.op)
    else if t.kind.OpAssign? then OnOpAssign(m1, t.kind.a)
    else if t.kind.ForLoop? then OnForLoop(m1)
    else if t.kind.ForLoopLabel? then ForStep(m1, t.n)
    else Err(Thrown(UnknownOpcode))
  }

  /** Literals, scopes, strings and built-ins. */
  function StepValues(img: Image, builtin: (nat, seq<V>) -> Result<seq<V>, Fault>, t: Token, m1: Machine): (r: Result<Machine, Fault>)
  {
    if t.kind.IntegerInline? then Ok(Push(m1, Int(SignExtend32(t.n % TWO_32))))
    else if t.kind.IntegerInlineBigDec? then Ok(Push(m1, Int(SignExtend32(t.n % TWO_32) * 10000)))
    else if t.kind.IntegerInlineBigBin? then Ok(Push(m1, Int(SignExtend32(t.n % TWO_32) * 32768)))
    else if t.kind.Integer? then
      if t.n >= |img.ints| then Err(Undefined(IntsIndex)) else Ok(Push(m1, Int(img.ints[t.n])))
    else if t.kind.Double? then Ok(Push(m1, Dbl))
    else if t.kind.DoubleInline? then Ok(Push(m1, Dbl))
    else if t.kind.ScopeOpen? then Ok(m1.(evalstacks := m1.evalstacks + [m1.evalstack], evalstack := []))
    else if t.kind.ScopeClose? then OnScopeClose(m1)
    else if t.kind.StringLiteral? then OnStringLiteral(img, t.n, m1)
    else if t.kind.StringLitReference? then
      if t.n >= |img.strRefs| then Err(Undefined(StringRefIndex)) else Ok(Push(m1, Array(t.n)))
    else if t.kind.BuiltinCall? then
      var s :- builtin(t.n, m1.evalstack);
      Ok(m1.(evalstack := s))
    else Err(Thrown(UnknownOpcode))
  }

  /** The array handlers. */
  function StepArrays(t: Token, m1: Machine): (r: Result<Machine, Fault>)
  {
    if t.kind.ArrayBuild? then OnArrayBuild(m1)
    else if t.kind.ArrayIndex? then OnArrayIndex(m1)
    else if t.kind.Clone? then OnClone(m1)
    else if t.kind.ArrayLen? then OnArrayLen(m1, 0)
    else if t.kind.ArrayLenMinusOne? then OnArrayLen(m1, 1)
    else if t.kind.ArrayPopOut? then OnArrayPopOut(m1)
    else if t.kind.ArrayPushIn? then OnArrayPushIn(m1)
    else Err(Thrown(UnknownOpcode))
  }

  /**
    The interpreter as the default build runs it, with threaded dispatch:
    every handler ends by jumping straight to the handler of the next
    token. `Run` runs at most `fuel` tokens: reading past the program is
    undefined, and at `Exit` the machine stays where it is. `builtin`
    stands for the table of built-in functions, which act on the
    evaluation stack.
   */
  function Run(img: Image, builtin: (nat, seq<V>) -> Result<seq<V>, Fault>, m: Machine, fuel: nat): (r: Result<Machine, Fault>)
    ensures fuel == 0 || Halted(img, m) ==> r == Ok(m)
    ensures fuel > 0 && !(0 <= m.pc < |img.program|) ==> r == Err(Undefined(TokenIndex))
    decreases fuel, 0
  {
    if fuel == 0 then Ok(m) else Dispatch(img, builtin, m, fuel - 1)
  }

  /** Fetch the token at `pc` and jump to its family's handler. */
  function Dispatch(img: Image, builtin: (nat, seq<V>) -> Result<seq<V>, Fault>, m: Machine, fuel: nat): (r: Result<Machine, Fault>)
    ensures Halted(img, m) ==> r == Ok(m)
    ensures !(0 <= m.pc < |img.program|) ==> r == Err(Undefined(TokenIndex))
    ensures 0 <= m.pc < |img.program| && GroupOf(img.program[m.pc].kind) == Other ==> r == Err(Thrown(UnknownOpcode))
    decreases fuel, 2
  {
    if !(0 <= m.pc < |img.program|) then Err(Undefined(TokenIndex))
    else
      var t := img.program[m.pc];
      var m1 := m.(pc := m.pc + 1);
      match GroupOf(t.kind)
      case Stop => Ok(m)
      case Calls => RunCalls(img, builtin, t, m1, fuel)
      case Vars => RunVars(img, builtin, t, m1, fuel)
      case Jumps => RunJumps(img, builtin, t, m1, fuel)
      case Operators => RunOperators(img, builtin, t, m1, fuel)
      case Values => RunValues(img, builtin, t, m1, fuel)
      case Arrays => RunArrays(img, builtin, t, m1, fuel)
      case Other => Err(Thrown(UnknownOpcode))
  }

  // Each family's handler, followed by the jump to the next token.

  function RunCalls(img: Image, builtin: (nat, seq<V>) -> Result<seq<V>, Fault>, t: Token, m1: Machine, fuel: nat): (r: Result<Machine, Fault>)
    decreases fuel, 1
  {
    var m2 :- StepCalls(img, t, m1);
    Run(img, builtin, m2, fuel)
  }

  function RunVars(img: Image, builtin: (nat, seq<V>) -> Result<seq<V>, Fault>, t: Token, m1: Machine, fuel: nat): (r: Result<Machine, Fault>)
    decreases fuel, 1
  {
    var m2 :- StepVars(t, m1);
    Run(img, builtin, m2, fuel)
  }

  function RunJumps(img: Image, builtin: (nat, seq<V>) -> Result<seq<V>, Fault>, t: Token, m1: Machine, fuel: nat): (r: Result<Machine, Fault>)
    decreases fuel, 1
  {
    var m2 :- StepJumps(t, m1);
    Run(img, builtin, m2, fuel)
  }

  function RunOperators(img: Image, builtin: (nat, seq<V>) -> Result<seq<V>, Fault>, t: Token, m1: Machine, fuel: nat): (r: Result<Machine, Fault>)
    decreases fuel, 1
  {
    var m2 :- StepOperators(t, m1);
    Run(img, builtin, m2, fuel)
  }

  function RunValues(img: Image, builtin: (nat, seq<V>) -> Result<seq<V>, Fault>, t: Token, m1: Machine, fuel: nat): (r: Result<Machine, Fault>)
    decreases fuel, 1
  {
    var m2 :- StepValues(img, builtin, t, m1);
    Run(img, builtin, m2, fuel)
  }

  function RunArrays(img: Image, builtin: (nat, seq<V>) -> Result<seq<V>, Fault>, t: Token, m1: Machine, fuel: nat): (r: Result<Machine, Fault>)
    decreases fuel, 1
  {
    var m2 :- StepArrays(t, m1);
    Run(img, builtin, m2, fuel)
  }

  /** Go on from a handler's outcome for at most `fuel` more tokens. */
  function After(img: Image, builtin: (nat, seq<V>) -> Result<seq<V>, Fault>, r: Result<Machine, Fault>, fuel: nat): (r': Result<Machine, Fault>)
  {
    var m :- r;
    Run(img, builtin, m, fuel)
  }
}
