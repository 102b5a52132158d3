/**
  flinch.hpp's `interpreter_core` (flinch.hpp:863-1199) on a machine state.
  The three dispatch encodings of the source run the same handlers; the
  model has one `Step`: fetch the token at `pc`, move past it (`i++`), and
  run the handler of its family (`StepCalls`, `StepVars`, ...). `Run`
  repeats `Step` for a bounded number of tokens.

  Unlike flinch.cpp, an empty stack is the exception `vec_pop_back` and
  `vec_at_back` throw ("tried to access empty buffer"), and the handlers
  that pop several values first check the stack with `valreq`. A call
  records only its return index; `FuncEnd` and `Return` do the same thing.
  Local variables live in a call frame of exactly `varcount` slots, which
  `FuncEnd` frees: frames are never reused, so a reference into a frame
  that has returned is detected as the dangling pointer it is. Arrays live
  in a store indexed by handle, so copies of an array value share its
  elements as the source's pointers do.
 */
module HppInterp {
  import opened Wrappers
  import opened MachineInt
  import opened Tokens
  import opened DynValue
  import IntLiteral
  import HppLink

  /** `struct Func { loc, varcount }`: what `FuncLookup` pushes and `Call` pops. */
  datatype Callee = Callee(loc: nat, varcount: nat)

  type V = Value<Callee>

  /**
    What `load_program` hands to `interpreter_core`: the linked program,
    the function table, the literal tables, and the number of variable
    names. `fixedDecoder` picks the scaling of the `IntegerInlineBig*`
    handlers: false is the source as written (`* 10000`, `<< 15`), true the
    scaling its encoder uses (`* 1000000000`, `<< 31`).
   */
  datatype Image = Image(
    program: seq<Token>,
    funcs: seq<HppLink.CompFunc>,
    ints: seq<Int64>,
    strVals: seq<seq<Int64>>,
    strRefs: seq<seq<Int64>>,
    varCount: nat,
    fixedDecoder: bool)

  datatype Machine = Machine(
    pc: int,
    evalstack: seq<V>,
    evalstacks: seq<seq<V>>,
    /** The return indices of the calls in progress. */
    callstack: seq<int>,
    globals: seq<V>,
    /** Every call frame ever made; `frames[cur]` is `varstack`. */
    frames: seq<seq<V>>,
    cur: nat,
    /** `varstacks`: the frames of the callers, as indices into `frames`. */
    saved: seq<nat>,
    arrays: seq<seq<V>>)

  function Zeros(n: nat): (r: seq<V>)
    ensures |r| == n && forall k :: 0 <= k < n ==> r[k] == Int(0)
  {
    seq(n, _ => Int(0))
  }

  function IntArray(vals: seq<Int64>): (r: seq<V>)
    ensures |r| == |vals| && forall k :: 0 <= k < |vals| ==> r[k] == Int(vals[k])
  {
    seq(|vals|, k requires 0 <= k < |vals| => Int(vals[k]))
  }

  /**
    The machine `interpreter_core` starts with: the globals and the
    top-level `varstack` each hold one zero per variable name, and each
    `"..."&` literal owns one array that every use of it shares.
   */
  function Start(img: Image): (m: Machine)
    ensures m.pc == 0 && m.evalstack == [] && m.evalstacks == [] && m.callstack == [] && m.saved == []
    ensures m.globals == Zeros(img.varCount) && m.frames == [Zeros(img.varCount)] && m.cur == 0
    ensures |m.arrays| == |img.strRefs|
  {
    Machine(0, [], [], [], Zeros(img.varCount), [Zeros(img.varCount)], 0, [],
            seq(|img.strRefs|, k requires 0 <= k < |img.strRefs| => IntArray(img.strRefs[k])))
  }

  /** The interpreter stopped at `Exit`. */
  predicate Halted(img: Image, m: Machine) {
    0 <= m.pc < |img.program| && img.program[m.pc].kind == Exit
  }

  // ----- stack and store helpers -----

  /** `valpop()`: an empty stack throws. */
  function Pop(m: Machine): (r: Result<(V, Machine), Fault>)
    ensures r.Ok? <==> |m.evalstack| > 0
    ensures r.Err? ==> r.error == Thrown(EmptyBuffer)
    ensures r.Ok? ==> m.evalstack == r.value.1.evalstack + [r.value.0]
                      && r.value.1 == m.(evalstack := r.value.1.evalstack)
  {
    if |m.evalstack| == 0 then Err(Thrown(EmptyBuffer))
    else
      var n := |m.evalstack| - 1;
      assert m.evalstack == m.evalstack[..n] + [m.evalstack[n]];
      Ok((m.evalstack[n], m.(evalstack := m.evalstack[..n])))
  }

  /** `valback()`: the top value; an empty stack throws. */
  function Back(m: Machine): (r: Result<V, Fault>)
    ensures r.Ok? <==> |m.evalstack| > 0
    ensures r.Err? ==> r.error == Thrown(EmptyBuffer)
    ensures r.Ok? ==> r.value == m.evalstack[|m.evalstack| - 1]
  {
    if |m.evalstack| == 0 then Err(Thrown(EmptyBuffer)) else Ok(m.evalstack[|m.evalstack| - 1])
  }

  /** Assign to `valback()`. */
  function SetBack(m: Machine, v: V): (r: Machine)
    requires |m.evalstack| > 0
    ensures |r.evalstack| == |m.evalstack| && r.evalstack[..|m.evalstack| - 1] == m.evalstack[..|m.evalstack| - 1]
    ensures r.evalstack[|m.evalstack| - 1] == v && r == m.(evalstack := r.evalstack)
  {
    m.(evalstack := m.evalstack[|m.evalstack| - 1 := v])
  }

  /** `valreq(k)`: fewer than `k` values throws. */
  function Need(m: Machine, k: nat): (r: Result<Machine, Fault>)
    ensures r.Ok? <==> |m.evalstack| >= k
    ensures r.Ok? ==> r.value == m
  {
    if |m.evalstack| < k then Err(Thrown(NotEnoughValues)) else Ok(m)
  }

  /** The `k`-th value from the top of the evaluation stack; 0 is the top. */
  function Nth(m: Machine, k: nat): V
    requires k < |m.evalstack|
  {
    m.evalstack[|m.evalstack| - 1 - k]
  }

  /** The evaluation stack without its top `k` values. */
  function Under(m: Machine, k: nat): seq<V>
    requires k <= |m.evalstack|
  {
    m.evalstack[..|m.evalstack| - k]
  }

  /** Reading a place does not look at the evaluation stacks, the call stack or `pc`. */
  lemma LoadIgnoresStacks(m: Machine, m': Machine, p: Place)
    requires m'.globals == m.globals && m'.frames == m.frames && m'.cur == m.cur
    requires m'.saved == m.saved && m'.arrays == m.arrays
    ensures Valid(m', p) == Valid(m, p) && Load(m', p) == Load(m, p)
    ensures ArrayOf(m', Ref(p)) == ArrayOf(m, Ref(p))
  {
  }

  function Push(m: Machine, v: V): (r: Machine)
    ensures r.evalstack == m.evalstack + [v] && r == m.(evalstack := r.evalstack)
  {
    m.(evalstack := m.evalstack + [v])
  }

  function AsRef(v: V): (r: Result<Place, Fault>)
    ensures r.Ok? <==> v.Ref?
    ensures r.Ok? ==> r.value == v.p
  {
    if v.Ref? then Ok(v.p) else Err(Thrown(NotARef))
  }

  function AsLabel(v: V): (r: Result<int, Fault>)
    ensures r.Ok? <==> v.Label?
    ensures r.Ok? ==> r.value == v.loc
  {
    if v.Label? then Ok(v.loc) else Err(Thrown(NotALabel))
  }

  function AsFunc(v: V): (r: Result<Callee, Fault>)
    ensures r.Ok? <==> v.Func?
    ensures r.Ok? ==> r.value == v.f
  {
    if v.Func? then Ok(v.f) else Err(Thrown(NotAFunc))
  }

  /** `as_into_int()`: the integer, or a double's truncation, which the model does not compute. */
  function AsIntoInt(v: V): (r: Result<Int64, Fault>)
    ensures r.Ok? <==> v.Int?
    ensures r.Ok? ==> r.value == v.i
  {
    match v
    case Int(i) => Ok(i)
    case Dbl => Err(Unmodelled(DoubleToInteger))
    case _ => Err(Thrown(NotNumeric))
  }

  /** A frame is alive while it is `varstack` or saved in `varstacks`. */
  predicate Live(m: Machine, f: nat) {
    f < |m.frames| && (f == m.cur || f in m.saved)
  }

  /** Where a place is readable: a slot in range of a live frame, the globals, or an array element. */
  predicate Valid(m: Machine, p: Place) {
    match p
    case Global(k) => k < |m.globals|
    case Local(f, k) => Live(m, f) && k < |m.frames[f]|
    case Elem(a, k) => a < |m.arrays| && k < |m.arrays[a]|
  }

  /** `*ref`: reading a dangling or out-of-range place is undefined. */
  function Load(m: Machine, p: Place): (r: Result<V, Fault>)
    ensures r.Ok? <==> Valid(m, p)
    ensures r.Err? ==> r.error == Undefined(BadReference)
  {
    if !Valid(m, p) then Err(Undefined(BadReference))
    else match p
      case Global(k) => Ok(m.globals[k])
      case Local(f, k) => Ok(m.frames[f][k])
      case Elem(a, k) => Ok(m.arrays[a][k])
  }

  /** `*ref = v`. Nothing but the one place changes. */
  function Store(m: Machine, p: Place, v: V): (r: Result<Machine, Fault>)
    ensures r.Ok? <==> Valid(m, p)
    ensures r.Err? ==> r.error == Undefined(BadReference)
    ensures r.Ok? ==> Load(r.value, p) == Ok(v)
    ensures r.Ok? ==> forall q :: Valid(m, q) && q != p ==> Valid(r.value, q) && Load(r.value, q) == Load(m, q)
    ensures r.Ok? ==> r.value.pc == m.pc && r.value.evalstack == m.evalstack && r.value.evalstacks == m.evalstacks
                      && r.value.callstack == m.callstack && r.value.cur == m.cur && r.value.saved == m.saved
  {
    if !Valid(m, p) then Err(Undefined(BadReference))
    else match p
      case Global(k) => Ok(m.(globals := m.globals[k := v]))
      case Local(f, k) => Ok(m.(frames := m.frames[f := m.frames[f][k := v]]))
      case Elem(a, k) => Ok(m.(arrays := m.arrays[a := m.arrays[a][k := v]]))
  }

  /** `varstack_raw[n]`: an index past the frame is undefined. */
  function Slot(m: Machine, n: nat): (r: Result<V, Fault>)
    ensures r.Ok? <==> Valid(m, Local(m.cur, n))
    ensures r.Err? ==> r.error == Undefined(SlotIndex)
    ensures r.Ok? ==> Load(m, Local(m.cur, n)) == r
  {
    if m.cur < |m.frames| && n < |m.frames[m.cur]| then Ok(m.frames[m.cur][n]) else Err(Undefined(SlotIndex))
  }

  /** `varstack_raw[n] = v`. */
  function SetSlot(m: Machine, n: nat, v: V): (r: Result<Machine, Fault>)
    ensures r.Ok? <==> Valid(m, Local(m.cur, n))
    ensures r.Err? ==> r.error == Undefined(SlotIndex)
    ensures r.Ok? ==> Store(m, Local(m.cur, n), v) == r
  {
    if m.cur < |m.frames| && n < |m.frames[m.cur]| then Ok(m.(frames := m.frames[m.cur := m.frames[m.cur][n := v]]))
    else Err(Undefined(SlotIndex))
  }

  /** A fresh array holding `items`. */
  function NewArray(m: Machine, items: seq<V>): (r: (V, Machine))
    ensures r.0 == Array(|m.arrays|) && r.1 == m.(arrays := m.arrays + [items])
  {
    (Array(|m.arrays|), m.(arrays := m.arrays + [items]))
  }

  /** `as_array_ptr_thru_ref()`: the array an array value, or a reference to one, denotes. */
  function ArrayOf(m: Machine, v: V): (r: Result<nat, Fault>)
    ensures r.Ok? ==> r.value < |m.arrays|
    ensures r.Ok? && v.Array? ==> r.value == v.id
    ensures r.Ok? ==> v.Array? || (v.Ref? && Load(m, v.p) == Ok(Array(r.value)))
    ensures !v.Array? && !v.Ref? ==> r == Err(Thrown(NotAnArray))
  {
    if v.Array? then
      if v.id < |m.arrays| then Ok(v.id) else Err(Undefined(DanglingArray))
    else if v.Ref? then
      var w :- Load(m, v.p);
      if !w.Array? then Err(Thrown(NotAnArray))
      else if w.id < |m.arrays| then Ok(w.id) else Err(Undefined(DanglingArray))
    else Err(Thrown(NotAnArray))
  }

  /** Replace the elements of array `id`. */
  function SetArray(m: Machine, id: nat, items: seq<V>): (r: Machine)
    requires id < |m.arrays|
    ensures r == m.(arrays := m.arrays[id := items])
  {
    m.(arrays := m.arrays[id := items])
  }

  /** `items.at(n)` with an `int64_t` index converted to `size_t`: the assert in `at` fails out of range. */
  function At(items: seq<V>, n: Int64): (r: Result<V, Fault>)
    ensures r.Ok? <==> 0 <= n < |items|
    ensures r.Ok? ==> r.value == items[n]
    ensures r.Err? ==> r.error == Aborted(IndexOutOfRange)
  {
    if 0 <= n < |items| then Ok(items[n]) else Err(Aborted(IndexOutOfRange))
  }

  // ----- the handlers -----
  // Each takes the machine after `i += 1`, so `m.pc` is the index of the next token.

  function OnFuncDec(img: Image, n: nat, m: Machine): (r: Result<Machine, Fault>)
    ensures r.Ok? <==> n < |img.funcs|
    ensures r.Ok? ==> r.value == m.(pc := m.pc + img.funcs[n].len)
  {
    if n >= |img.funcs| then Err(Undefined(FuncsIndex))
    else Ok(m.(pc := m.pc + img.funcs[n].len))
  }

  /** The function value `funcs[n]` stands for. */
  function CalleeOf(img: Image, n: nat): (r: Result<Callee, Fault>)
    ensures r.Ok? <==> n < |img.funcs|
    ensures r.Ok? ==> r.value == Callee(img.funcs[n].loc, img.funcs[n].vars)
  {
    if n >= |img.funcs| then Err(Undefined(FuncsIndex))
    else Ok(Callee(img.funcs[n].loc, img.funcs[n].vars))
  }

  /**
    `DO_FCALL`: push the return index, save `varstack`, install a fresh
    frame of `varcount` zeros, and jump to the body.
   */
  function Enter(m: Machine, f: Callee): (r: Machine)
    ensures r.pc == f.loc && r.callstack == m.callstack + [m.pc]
    ensures r.frames == m.frames + [Zeros(f.varcount)] && r.cur == |m.frames| && r.saved == m.saved + [m.cur]
    ensures r.evalstack == m.evalstack && r.evalstacks == m.evalstacks && r.globals == m.globals && r.arrays == m.arrays
  {
    m.(callstack := m.callstack + [m.pc],
       saved := m.saved + [m.cur],
       frames := m.frames + [Zeros(f.varcount)],
       cur := |m.frames|,
       pc := f.loc)
  }

  /**
    `FuncEnd` and `Return`: free `varstack`, restore the caller's from
    `varstacks`, and return to the index on top of `callstack`. The
    evaluation stack is left alone.
   */
  function OnFuncEnd(m: Machine): (r: Result<Machine, Fault>)
    ensures r.Ok? <==> |m.saved| > 0 && |m.callstack| > 0
    ensures r.Err? ==> r.error == Thrown(EmptyBuffer)
  {
    if |m.saved| == 0 || |m.callstack| == 0 then Err(Thrown(EmptyBuffer))
    else Ok(m.(cur := m.saved[|m.saved| - 1], saved := m.saved[..|m.saved| - 1],
               pc := m.callstack[|m.callstack| - 1], callstack := m.callstack[..|m.callstack| - 1]))
  }

  /** `Call`: pop a function value and call it. */
  function OnCall(m: Machine): (r: Result<Machine, Fault>)
    ensures r.Ok? <==> |m.evalstack| > 0 && Nth(m, 0).Func?
    ensures r.Ok? ==> r.value.pc == Nth(m, 0).f.loc && r.value.callstack == m.callstack + [m.pc]
                      && r.value.evalstack == Under(m, 1)
                      && r.value.cur == |m.frames| && r.value.frames == m.frames + [Zeros(Nth(m, 0).f.varcount)]
  {
    var (fv, m0) :- Pop(m);
    var f :- AsFunc(fv);
    Ok(Enter(m0, f))
  }

  /** `LocalVar` and `GlobalVar`: push the variable's value. */
  function OnVar(m: Machine, p: Place, what: Cause): (r: Result<Machine, Fault>)
    ensures r.Ok? <==> Valid(m, p)
    ensures r.Err? ==> r.error == Undefined(what)
    ensures r.Ok? ==> r.value == Push(m, Load(m, p).value)
  {
    if !Valid(m, p) then Err(Undefined(what)) else Ok(Push(m, Load(m, p).value))
  }

  /** `LocalVarDec` and `GlobalVarDec`: set the variable to 0. */
  function OnVarDec(m: Machine, p: Place, what: Cause): (r: Result<Machine, Fault>)
    ensures r.Ok? <==> Valid(m, p)
    ensures r.Err? ==> r.error == Undefined(what)
    ensures r.Ok? ==> Load(r.value, p) == Ok(Int(0)) && r.value.evalstack == m.evalstack && r.value.pc == m.pc
  {
    if !Valid(m, p) then Err(Undefined(what)) else Store(m, p, Int(0))
  }

  /** `LocalVarLookup` and `GlobalVarLookup`: push a reference to the variable (`make_ref_2`). */
  function OnVarLookup(m: Machine, p: Place, what: Cause): (r: Result<Machine, Fault>)
    ensures r.Ok? <==> Valid(m, p)
    ensures r.Err? ==> r.error == Undefined(what)
    ensures r.Ok? ==> r.value.evalstack == m.evalstack + [Ref(p)] && r.value == m.(evalstack := r.value.evalstack)
  {
    if !Valid(m, p) then Err(Undefined(what)) else Ok(Push(m, Ref(p)))
  }

  /** `LocalVarDecLookup` and `GlobalVarDecLookup`: set to 0, then push a reference. */
  function OnVarDecLookup(m: Machine, p: Place, what: Cause): (r: Result<Machine, Fault>)
    ensures r.Ok? <==> Valid(m, p)
    ensures r.Err? ==> r.error == Undefined(what)
    ensures r.Ok? ==> Load(r.value, p) == Ok(Int(0)) && r.value.evalstack == m.evalstack + [Ref(p)] && r.value.pc == m.pc
  {
    var m1 :- OnVarDec(m, p, what);
    Ok(Push(m1, Ref(p)))
  }

  /** `Assign`: pop the reference, then the value, and store through the reference. */
  function OnAssign(m: Machine): (r: Result<Machine, Fault>)
    ensures |m.evalstack| < 2 ==> r == Err(Thrown(NotEnoughValues))
    ensures |m.evalstack| >= 2 && !Nth(m, 0).Ref? ==> r == Err(Thrown(NotARef))
    ensures r.Ok? ==> |m.evalstack| >= 2 && Nth(m, 0).Ref?
                      && Load(r.value, Nth(m, 0).p) == Ok(Nth(m, 1)) && r.value.evalstack == Under(m, 2)
  {
    var _ :- Need(m, 2);
    var (rv, m1) := Pop(m).value;
    var p :- AsRef(rv);
    var (val, m2) := Pop(m1).value;
    Store(m2, p, val)
  }

  /** `AsLocal n`: pop the value into local slot `n`. */
  function OnAsLocal(m: Machine, n: nat): (r: Result<Machine, Fault>)
    ensures r.Ok? <==> |m.evalstack| > 0 && Valid(m, Local(m.cur, n))
    ensures r.Ok? ==> Slot(r.value, n) == Ok(Nth(m, 0)) && r.value.evalstack == Under(m, 1)
  {
    var (val, m1) :- Pop(m);
    SetSlot(m1, n, val)
  }

  function OnGoto(m: Machine): (r: Result<Machine, Fault>)
    ensures r.Ok? <==> |m.evalstack| > 0 && Nth(m, 0).Label?
    ensures r.Ok? ==> r.value == m.(evalstack := Under(m, 1), pc := Nth(m, 0).loc)
  {
    var (dv, m1) :- Pop(m);
    var dest :- AsLabel(dv);
    Ok(m1.(pc := dest))
  }

  /** `IfGoto`: pop the destination, then the condition. */
  function OnIfGoto(m: Machine): (r: Result<Machine, Fault>)
    ensures |m.evalstack| < 2 ==> r == Err(Thrown(NotEnoughValues))
    ensures r.Ok? ==> |m.evalstack| >= 2 && Nth(m, 0).Label? && Truthy(Nth(m, 1)).Ok?
    ensures r.Ok? ==> r.value == m.(evalstack := Under(m, 2), pc := if Truthy(Nth(m, 1)).value then Nth(m, 0).loc else m.pc)
  {
    var _ :- Need(m, 2);
    var (dv, m1) := Pop(m).value;
    var dest :- AsLabel(dv);
    var (val, m2) := Pop(m1).value;
    var b :- Truthy(val);
    Ok(if b then m2.(pc := dest) else m2)
  }

  function OnIfGotoLabel(m: Machine, dest: nat): (r: Result<Machine, Fault>)
    ensures r.Ok? <==> |m.evalstack| > 0 && !Nth(m, 0).Dbl?
    ensures r.Ok? ==> r.value == m.(evalstack := Under(m, 1), pc := if Truthy(Nth(m, 0)).value then dest else m.pc)
  {
    var (val, m1) :- Pop(m);
    var b :- Truthy(val);
    Ok(if b then m1.(pc := dest) else m1)
  }

  /** `IfGotoLabel<op>`: pop `val2`, then `val1`, and jump when `val1 OP val2`. */
  function OnIfGotoCmp(m: Machine, c: Cmp, dest: nat): (r: Result<Machine, Fault>)
    ensures |m.evalstack| < 2 ==> r == Err(Thrown(NotEnoughValues))
    ensures |m.evalstack| >= 2 ==> (r.Ok? <==> CompareOp(c, Nth(m, 1), Nth(m, 0)).Ok?)
    ensures r.Ok? ==> r.value == m.(evalstack := Under(m, 2), pc := if CompareOp(c, Nth(m, 1), Nth(m, 0)).value then dest else m.pc)
  {
    var _ :- Need(m, 2);
    var (val2, m1) := Pop(m).value;
    var (val1, m2) := Pop(m1).value;
    var b :- CompareOp(c, val1, val2);
    Ok(if b then m2.(pc := dest) else m2)
  }

  /** `ForLoop`: pop the destination, then run the shared tail. */
  function OnForLoop(m: Machine): (r: Result<Machine, Fault>)
    ensures |m.evalstack| < 3 ==> r == Err(Thrown(NotEnoughValues))
    ensures |m.evalstack| >= 3 && !Nth(m, 0).Label? ==> r == Err(Thrown(NotALabel))
    ensures r.Ok? ==> |m.evalstack| >= 3 && Nth(m, 0).Label? && Nth(m, 1).Int? && Nth(m, 2).Ref?
                      && var p := Nth(m, 2).p;
                      Load(m, p).Ok? && Load(m, p).value.Int? && IsInt64(Load(m, p).value.i + 1)
                      && var v := Load(m, p).value.i + 1;
                      Load(r.value, p) == Ok(Int(v)) && r.value.evalstack == Under(m, 3)
                      && r.value.pc == (if v < Nth(m, 1).i then Nth(m, 0).loc else m.pc)
  {
    var _ :- Need(m, 3);
    var (dv, m1) := Pop(m).value;
    var dest :- AsLabel(dv);
    ForStep(m1, dest)
  }

  /** `ForLoopLabel`: the shared tail with the destination from the token. */
  function OnForLoopLabel(m: Machine, dest: nat): (r: Result<Machine, Fault>)
    ensures |m.evalstack| < 2 ==> r == Err(Thrown(NotEnoughValues))
    ensures |m.evalstack| >= 2 ==> r == ForStep(m, dest)
  {
    var _ :- Need(m, 2);
    ForStep(m, dest)
  }

  /**
    The shared tail of `ForLoop` and `ForLoopLabel`: pop the limit and the
    reference, add one to the variable, and jump while it is below the
    limit.
   */
  function ForStep(m: Machine, dest: int): (r: Result<Machine, Fault>)
    ensures r.Ok? ==> |m.evalstack| >= 2 && Nth(m, 1).Ref? && Nth(m, 0).Int?
    ensures r.Ok? ==> var p := Nth(m, 1).p;
                      Load(m, p).Ok? && Load(m, p).value.Int? && IsInt64(Load(m, p).value.i + 1)
                      && var v := Load(m, p).value.i + 1;
                      Load(r.value, p) == Ok(Int(v)) && r.value.evalstack == Under(m, 2)
                      && r.value.pc == (if v < Nth(m, 0).i then dest else m.pc)
  {
    var (num, m1) :- Pop(m);
    var (rv, m2) :- Pop(m1);
    var p :- AsRef(rv);
    LoadIgnoresStacks(m, m2, p);
    ForBump(m2, p, num, dest)
  }

  /** `ForStep` once the limit and the reference are off the stack. */
  function ForBump(m: Machine, p: Place, num: V, dest: int): (r: Result<Machine, Fault>)
    ensures !num.Int? ==> r == Err(Thrown(ForLoopNonInteger))
    ensures r.Ok? ==> Load(m, p).Ok? && Load(m, p).value.Int? && num.Int? && IsInt64(Load(m, p).value.i + 1)
    ensures r.Ok? ==> var v := Load(m, p).value.i + 1;
                      Load(r.value, p) == Ok(Int(v)) && r.value.pc == (if v < num.i then dest else m.pc)
    ensures r.Ok? ==> r.value.evalstack == m.evalstack
  {
    if !num.Int? then Err(Thrown(ForLoopNonInteger))
    else
      var v :- Load(m, p);
      if !v.Int? then Err(Thrown(ForLoopNonInteger))
      else
        var next :- Binary(ArithOp(Add), v, Int(1));
        var m1 := Store(m, p, next).value;
        var go :- CompareOp(LT, next, num);
        Ok(if go then m1.(pc := dest) else m1)
  }

  /**
    `ForLoopLocal`: the variable is local slot `x` and the limit the
    sign-extended immediate `k`, both read from the token itself.
   */
  function OnForLoopLocal(m: Machine, x: nat, k: nat, dest: nat): (r: Result<Machine, Fault>)
    ensures r.Ok? ==> Slot(m, x).Ok? && Slot(m, x).value.Int? && IsInt64(Slot(m, x).value.i + 1)
    ensures r.Ok? ==> var v := Slot(m, x).value.i + 1;
                      Slot(r.value, x) == Ok(Int(v)) && r.value.pc == (if v < SignExtend32(k % TWO_32) then dest else m.pc)
  {
    var v :- Slot(m, x);
    if !v.Int? then Err(Thrown(ForLoopNonInteger))
    else
      var next :- Checked(v.i as int + 1);
      var m1 := SetSlot(m, x, Int(next)).value;
      Ok(if next < SignExtend32(k % TWO_32) then m1.(pc := dest) else m1)
  }

  /** The binary operators: pop `b`, and replace the top `x` with `x OP b`. */
  function OnBin(m: Machine, op: BinOp): (r: Result<Machine, Fault>)
    ensures |m.evalstack| < 2 ==> r == Err(Thrown(NotEnoughValues))
    ensures |m.evalstack| >= 2 ==> (r.Ok? <==> Binary(op, Nth(m, 1), Nth(m, 0)).Ok?)
    ensures r.Ok? ==> r.value == m.(evalstack := Under(m, 2) + [Binary(op, Nth(m, 1), Nth(m, 0)).value])
  {
    var _ :- Need(m, 2);
    var (b, m1) := Pop(m).value;
    OnTop(m1, op, b)
  }

  /** `x = x OP b` on the top value `x`: the tail of the binary handlers and the inline ones. */
  function OnTop(m: Machine, op: BinOp, b: V): (r: Result<Machine, Fault>)
    ensures r.Ok? <==> |m.evalstack| > 0 && Binary(op, Nth(m, 0), b).Ok?
    ensures r.Ok? ==> r.value == m.(evalstack := Under(m, 1) + [Binary(op, Nth(m, 0), b).value])
  {
    var x :- Back(m);
    var v :- Binary(op, x, b);
    Ok(SetBack(m, v))
  }

  /** The unary operators replace the top value. */
  function OnUnary(m: Machine, u: UnOp): (r: Result<Machine, Fault>)
    ensures r.Ok? <==> |m.evalstack| > 0 && DynValue.Unary(u, Nth(m, 0)).Ok?
    ensures r.Ok? ==> r.value == m.(evalstack := Under(m, 1) + [DynValue.Unary(u, Nth(m, 0)).value])
  {
    var x :- Back(m);
    var v :- DynValue.Unary(u, x);
    Ok(SetBack(m, v))
  }

  /** `+=` and friends: pop the reference, then the operand, and update in place. */
  function OnOpAssign(m: Machine, a: Arith): (r: Result<Machine, Fault>)
    ensures |m.evalstack| < 2 ==> r == Err(Thrown(NotEnoughValues))
    ensures r.Ok? ==> |m.evalstack| >= 2 && Nth(m, 0).Ref? && Load(m, Nth(m, 0).p).Ok?
                      && Binary(ArithOp(a), Load(m, Nth(m, 0).p).value, Nth(m, 1)).Ok?
    ensures r.Ok? ==> Load(r.value, Nth(m, 0).p) == Ok(Binary(ArithOp(a), Load(m, Nth(m, 0).p).value, Nth(m, 1)).value)
                      && r.value.evalstack == Under(m, 2)
  {
    var _ :- Need(m, 2);
    var (rv, m1) := Pop(m).value;
    var p :- AsRef(rv);
    var (x, m2) := Pop(m1).value;
    var v :- Load(m2, p);
    var w :- Binary(ArithOp(a), v, x);
    Store(m2, p, w)
  }

  /** `<op>AsLocal n`: pop the operand and update local slot `n` in place. */
  function OnOpAsLocal(m: Machine, a: Arith, n: nat): (r: Result<Machine, Fault>)
    ensures r.Ok? ==> |m.evalstack| > 0 && Slot(m, n).Ok? && Binary(ArithOp(a), Slot(m, n).value, Nth(m, 0)).Ok?
    ensures r.Ok? ==> Slot(r.value, n) == Ok(Binary(ArithOp(a), Slot(m, n).value, Nth(m, 0)).value)
                      && r.value.evalstack == Under(m, 1)
  {
    var (x, m1) :- Pop(m);
    var v :- Slot(m1, n);
    var w :- Binary(ArithOp(a), v, x);
    SetSlot(m1, n, w)
  }

  /** The value an `IntegerInline*` or `Integer` token stands for, read as the handlers read it. */
  function LitOf(t: Token): (l: IntLiteral.Lit)
    requires t.kind.IntegerInline? || t.kind.IntegerInlineBigDec? || t.kind.IntegerInlineBigBin? || t.kind.Integer?
  {
    if t.kind.IntegerInline? then IntLiteral.Inline(t.n % TWO_32)
    else if t.kind.IntegerInlineBigDec? then IntLiteral.BigDec(t.n % TWO_32)
    else if t.kind.IntegerInlineBigBin? then IntLiteral.BigBin(t.n % TWO_32)
    else IntLiteral.Table(t.n)
  }

  /** The scaling the large-literal handlers use. */
  function Scale(fixedDecoder: bool): (s: IntLiteral.Steps)
    ensures 0 < s.dec <= TWO_31 && 0 < s.bin <= TWO_31
  {
    if fixedDecoder then IntLiteral.HPP_ENCODE_STEPS else IntLiteral.HPP_DECODE_STEPS
  }

  /** A sign-extended immediate times a positive step of at most 2^31 is an `int64_t`. */
  lemma ScaledFits(x: int, s: nat)
    requires IsInt32(x) && 0 < s <= TWO_31
    ensures IsInt64(x * s)
  {
    var a := if x >= 0 then x else -x;
    MulLe(a, TWO_31, s);
    MulLe(s, TWO_31, TWO_31);
    assert a * s <= TWO_31 * TWO_31;
    assert x * s == a * s || x * s == -(a * s);
  }

  lemma MulLe(a: nat, b: nat, c: nat)
    requires a <= b
    ensures a * c <= b * c
  {
  }

  /** With steps of at most 2^31 every decoded literal is an `int64_t`. */
  lemma DecodedFits(s: IntLiteral.Steps, ints: seq<Int64>, l: IntLiteral.Lit)
    requires IntLiteral.Decodable(ints, l) && 0 < s.dec <= TWO_31 && 0 < s.bin <= TWO_31
    ensures IsInt64(IntLiteral.DecodeWith(s, ints, l))
  {
    match l
    case BigDec(n) => ScaledFits(SignExtend32(n), s.dec);
    case BigBin(n) => ScaledFits(SignExtend32(n), s.bin);
    case _ =>
  }

  /** The integer a literal token pushes. */
  function LitValue(img: Image, l: IntLiteral.Lit): (r: Result<Int64, Fault>)
    ensures r.Ok? <==> IntLiteral.Decodable(img.ints, l)
    ensures r.Ok? ==> r.value == IntLiteral.DecodeWith(Scale(img.fixedDecoder), img.ints, l)
  {
    if !IntLiteral.Decodable(img.ints, l) then Err(Undefined(IntsIndex))
    else
      var s := Scale(img.fixedDecoder);
      DecodedFits(s, img.ints, l);
      Ok(IntLiteral.DecodeWith(s, img.ints, l))
  }

  function OnScopeClose(m: Machine): (r: Result<Machine, Fault>)
    ensures r.Ok? <==> |m.evalstacks| > 0
  {
    if |m.evalstacks| == 0 then Err(Thrown(EmptyBuffer))
    else Ok(m.(evalstack := m.evalstacks[|m.evalstacks| - 1], evalstacks := m.evalstacks[..|m.evalstacks| - 1]))
  }

  /** `]`: the whole current evaluation stack becomes a new array, pushed onto the restored one. */
  function OnArrayBuild(m: Machine): (r: Result<Machine, Fault>)
    ensures r.Ok? <==> |m.evalstacks| > 0
    ensures r.Ok? ==> r.value.evalstack == m.evalstacks[|m.evalstacks| - 1] + [Array(|m.arrays|)]
                      && r.value.evalstacks == m.evalstacks[..|m.evalstacks| - 1] && r.value.arrays == m.arrays + [m.evalstack]
  {
    var m1 :- OnScopeClose(m);
    var (a, m2) := NewArray(m1, m.evalstack);
    Ok(Push(m2, a))
  }

  /** `punt`: move the top value onto the evaluation stack below. */
  function OnPunt(m: Machine): (r: Result<Machine, Fault>)
    ensures r.Ok? <==> |m.evalstacks| > 0 && |m.evalstack| > 0
    ensures r.Ok? ==> var k := |m.evalstacks| - 1;
                      r.value.evalstack == Under(m, 1) && r.value.evalstacks == m.evalstacks[k := m.evalstacks[k] + [Nth(m, 0)]]
  {
    if |m.evalstacks| == 0 then Err(Thrown(PuntAtBottom))
    else
      var (v, m1) :- Pop(m);
      var k := |m1.evalstacks| - 1;
      Ok(m1.(evalstacks := m1.evalstacks[k := m1.evalstacks[k] + [v]]))
  }

  /** The first `count` values popped off `s`, in the order they come off. */
  function Reversed(s: seq<V>): (r: seq<V>)
    ensures |r| == |s|
    ensures forall k :: 0 <= k < |s| ==> r[k] == s[|s| - 1 - k]
  {
    if s == [] then [] else [s[|s| - 1]] + Reversed(s[..|s| - 1])
  }

  /**
    `punt_n`: pop the count, then move that many values one at a time onto
    the evaluation stack below, so they arrive in reverse order. A
    negative count becomes a huge `size_t` and fails `valreq`.
   */
  function OnPuntN(m: Machine): (r: Result<Machine, Fault>)
    ensures |m.evalstacks| == 0 ==> r == Err(Thrown(PuntAtBottom))
    ensures r.Ok? ==> |m.evalstack| > 0 && Nth(m, 0).Int? && ToU64(Nth(m, 0).i) < |m.evalstack|
                      && r.value.evalstack == Under(m, 1 + ToU64(Nth(m, 0).i)) && |r.value.evalstacks| == |m.evalstacks|
  {
    if |m.evalstacks| == 0 then Err(Thrown(PuntAtBottom))
    else
      var (cv, m1) :- Pop(m);
      var c :- AsIntoInt(cv);
      var count := ToU64(c);
      var _ :- Need(m1, count);
      var keep := |m1.evalstack| - count;
      var k := |m1.evalstacks| - 1;
      Ok(m1.(evalstack := m1.evalstack[..keep],
             evalstacks := m1.evalstacks[k := m1.evalstacks[k] + Reversed(m1.evalstack[keep..])]))
  }

  function OnArrayIndex(m: Machine): (r: Result<Machine, Fault>)
    ensures |m.evalstack| < 2 ==> r == Err(Thrown(NotEnoughValues))
    ensures r.Ok? ==> |m.evalstack| >= 2 && Nth(m, 0).Int? && ArrayOf(m, Nth(m, 1)).Ok?
                      && var id, n := ArrayOf(m, Nth(m, 1)).value, Nth(m, 0).i;
                      0 <= n < |m.arrays[id]|
                      && r.value.evalstack == Under(m, 2) + [if Nth(m, 1).Array? then m.arrays[id][n] else Ref(Elem(id, n))]
  {
    var _ :- Need(m, 2);
    var (iv, m1) := Pop(m).value;
    var n :- AsIntoInt(iv);
    var val := Back(m1).value;
    var id :- ArrayOf(m1, val);
    var x :- At(m1.arrays[id], n);
    if val.Array? then Ok(SetBack(m1, x))
    else Ok(SetBack(m1, Ref(Elem(id, n))))
  }

  /**
    `DynamicType::clone(deep)`: a reference gives the value it points at,
    uncopied; an array gives a fresh array with its elements, each itself
    cloned when `deep`; anything else gives itself. The recursion of a
    deep clone is followed for at most `depth` nested arrays.
   */
  function Clone(m: Machine, v: V, deep: bool, depth: nat): (r: Result<(V, Machine), Fault>)
    ensures r.Ok? ==> |m.arrays| <= |r.value.1.arrays| && r.value.1.arrays[..|m.arrays|] == m.arrays
    ensures r.Ok? ==> r.value.1 == m.(arrays := r.value.1.arrays)
    decreases depth, 0
  {
    if v.Ref? then
      var w :- Load(m, v.p);
      Ok((w, m))
    else if !v.Array? then Ok((v, m))
    else if v.id >= |m.arrays| then Err(Undefined(DanglingArray))
    else if !deep then
      var (c, m1) := NewArray(m, m.arrays[v.id]);
      Ok((c, m1))
    else if depth == 0 then Err(Undefined(CloneCycle))
    else
      var (c, m1) := NewArray(m, m.arrays[v.id]);
      var (items, m2) :- CloneAll(m1, m.arrays[v.id], depth - 1);
      Ok((c, m2.(arrays := m2.arrays[c.id := items])))
  }

  /** Deep-clone each of `items` in turn, threading the array store through. */
  function CloneAll(m: Machine, items: seq<V>, depth: nat): (r: Result<(seq<V>, Machine), Fault>)
    ensures r.Ok? ==> |r.value.0| == |items|
    ensures r.Ok? ==> |m.arrays| <= |r.value.1.arrays| && r.value.1.arrays[..|m.arrays|] == m.arrays
    ensures r.Ok? ==> r.value.1 == m.(arrays := r.value.1.arrays)
    decreases depth, 1, |items|
  {
    if items == [] then Ok(([], m))
    else
      var (x, m1) :- Clone(m, items[0], true, depth);
      var (xs, m2) :- CloneAll(m1, items[1..], depth);
      Ok(([x] + xs, m2))
  }

  /**
    `Clone` and `CloneDeep`. The depth bound is the number of arrays: a
    deeper nesting revisits an array, so the source's recursion would
    never end.
   */
  function OnClone(m: Machine, deep: bool): (r: Result<Machine, Fault>)
    ensures |m.evalstack| == 0 ==> r == Err(Thrown(EmptyBuffer))
    ensures r.Ok? ==> |m.evalstack| > 0 && |r.value.evalstack| == |m.evalstack| && r.value.evalstack[..|m.evalstack| - 1] == Under(m, 1)
    ensures r.Ok? ==> |m.arrays| <= |r.value.arrays| && r.value.arrays[..|m.arrays|] == m.arrays
  {
    var (v, m1) :- Pop(m);
    var (c, m2) :- Clone(m1, v, deep, |m1.arrays|);
    Ok(Push(m2, c))
  }

  /** `ArrayLen` (`less == 0`) and `ArrayLenMinusOne` (`less == 1`) replace the top value with the length. */
  function OnArrayLen(m: Machine, less: nat): (r: Result<Machine, Fault>)
    ensures r.Ok? <==> |m.evalstack| > 0 && ArrayOf(m, Nth(m, 0)).Ok?
    ensures r.Ok? ==> r.value == m.(evalstack := Under(m, 1) + [Int(Wrap64(|m.arrays[ArrayOf(m, Nth(m, 0)).value]| - less))])
  {
    var v :- Back(m);
    var id :- ArrayOf(m, v);
    Ok(SetBack(m, Int(Wrap64(|m.arrays[id]| - less))))
  }

  /**
    `ArrayPushIn`: pop the value, the index, then the array, and insert the
    value at the index. The index is read as a `size_t`, so a negative one
    is past the end.
   */
  function OnArrayPushIn(m: Machine): (r: Result<Machine, Fault>)
    ensures |m.evalstack| < 3 ==> r == Err(Thrown(NotEnoughValues))
    ensures r.Ok? ==> |m.evalstack| >= 3 && Nth(m, 1).Int? && ArrayOf(m, Nth(m, 2)).Ok?
                      && var id, i := ArrayOf(m, Nth(m, 2)).value, ToU64(Nth(m, 1).i);
                      i <= |m.arrays[id]| && r.value.evalstack == Under(m, 3)
                      && r.value.arrays == m.arrays[id := m.arrays[id][..i] + [Nth(m, 0)] + m.arrays[id][i..]]
  {
    var _ :- Need(m, 3);
    var (inval, m1) := Pop(m).value;
    var (iv, m2) := Pop(m1).value;
    var n :- AsIntoInt(iv);
    var (v, m3) := Pop(m2).value;
    var id :- ArrayOf(m3, v);
    var items := m3.arrays[id];
    if |items| < ToU64(n) then Err(Thrown(PastEndOfArray))
    else
      var i := ToU64(n);
      Ok(SetArray(m3, id, items[..i] + [inval] + items[i..]))
  }

  /** `ArrayPopOut`: pop the index; remove that element of the array on top and put it in the array's place. */
  function OnArrayPopOut(m: Machine): (r: Result<Machine, Fault>)
    ensures |m.evalstack| < 2 ==> r == Err(Thrown(NotEnoughValues))
    ensures r.Ok? ==> |m.evalstack| >= 2 && Nth(m, 0).Int? && ArrayOf(m, Nth(m, 1)).Ok?
                      && var id, n := ArrayOf(m, Nth(m, 1)).value, Nth(m, 0).i;
                      0 <= n < |m.arrays[id]| && r.value.evalstack == Under(m, 2) + [m.arrays[id][n]]
                      && r.value.arrays == m.arrays[id := m.arrays[id][..n] + m.arrays[id][n + 1..]]
  {
    var _ :- Need(m, 2);
    var (iv, m1) := Pop(m).value;
    var n :- AsIntoInt(iv);
    var v := Back(m1).value;
    var id :- ArrayOf(m1, v);
    var items := m1.arrays[id];
    var x :- At(items, n);
    Ok(SetBack(SetArray(m1, id, items[..n] + items[n + 1..]), x))
  }

  /** `ArrayPushBack`: pop the value, then the array, and append the value. */
  function OnArrayPushBack(m: Machine): (r: Result<Machine, Fault>)
    ensures |m.evalstack| < 2 ==> r == Err(Thrown(NotEnoughValues))
    ensures |m.evalstack| >= 2 ==> (r.Ok? <==> ArrayOf(m, Nth(m, 1)).Ok?)
    ensures r.Ok? ==> var id := ArrayOf(m, Nth(m, 1)).value;
                      r.value.evalstack == Under(m, 2) && r.value.arrays == m.arrays[id := m.arrays[id] + [Nth(m, 0)]]
  {
    var _ :- Need(m, 2);
    var (inval, m1) := Pop(m).value;
    var (v, m2) := Pop(m1).value;
    var id :- ArrayOf(m2, v);
    Ok(SetArray(m2, id, m2.arrays[id] + [inval]))
  }

  /** `ArrayPopBack`: remove the last element of the array on top and put it in the array's place. */
  function OnArrayPopBack(m: Machine): (r: Result<Machine, Fault>)
    ensures r.Ok? <==> |m.evalstack| > 0 && ArrayOf(m, Nth(m, 0)).Ok? && |m.arrays[ArrayOf(m, Nth(m, 0)).value]| > 0
    ensures r.Ok? ==> var id := ArrayOf(m, Nth(m, 0)).value;
                      var items := m.arrays[id];
                      r.value.evalstack == Under(m, 1) + [items[|items| - 1]] && r.value.arrays == m.arrays[id := items[..|items| - 1]]
  {
    var v :- Back(m);
    var id :- ArrayOf(m, v);
    var items := m.arrays[id];
    if |items| == 0 then Err(Thrown(EmptyBuffer))
    else Ok(SetBack(SetArray(m, id, items[..|items| - 1]), items[|items| - 1]))
  }

  /**
    `ArrayConcat`: pop the right array and append its elements to the
    array on top. The loop reads the array it appends to when both are the
    same, and its iterator dangles once that array grows.
   */
  function OnArrayConcat(m: Machine): (r: Result<Machine, Fault>)
    ensures |m.evalstack| < 2 ==> r == Err(Thrown(NotEnoughValues))
    ensures r.Ok? ==> |m.evalstack| >= 2 && ArrayOf(m, Nth(m, 0)).Ok? && ArrayOf(m, Nth(m, 1)).Ok?
                      && var ar, al := ArrayOf(m, Nth(m, 0)).value, ArrayOf(m, Nth(m, 1)).value;
                      ar != al && r.value.evalstack == Under(m, 1) && r.value.arrays == m.arrays[al := m.arrays[al] + m.arrays[ar]]
  {
    var _ :- Need(m, 2);
    var (vr, m1) := Pop(m).value;
    var ar :- ArrayOf(m1, vr);
    var vl := Back(m1).value;
    var al :- ArrayOf(m1, vl);
    if ar == al then Err(Undefined(SelfConcat))
    else Ok(SetArray(m1, al, m1.arrays[al] + m1.arrays[ar]))
  }

  /** `ArrayDelete`: pop an array value; freeing its storage is not modelled. */
  function OnArrayDelete(m: Machine): (r: Result<Machine, Fault>)
    ensures r.Ok? <==> |m.evalstack| > 0 && ArrayOf(m, Nth(m, 0)).Ok?
    ensures r.Ok? ==> r.value == m.(evalstack := Under(m, 1))
  {
    var (v, m1) :- Pop(m);
    var _ :- ArrayOf(m1, v);
    Ok(m1)
  }

  function OnStringLiteral(img: Image, n: nat, m: Machine): (r: Result<Machine, Fault>)
    ensures r.Ok? <==> n < |img.strVals|
    ensures r.Ok? ==> r.value.evalstack == m.evalstack + [Array(|m.arrays|)] && r.value.arrays == m.arrays + [IntArray(img.strVals[n])]
  {
    if n >= |img.strVals| then Err(Undefined(StringValIndex))
    else
      var (a, m1) := NewArray(m, IntArray(img.strVals[n]));
      Ok(Push(m1, a))
  }

  /**
    The handlers by family: calls, variables, jumps, operators, other
    values, the evaluation-stack handlers, and arrays. `Stop` is `Exit`;
    `Other` holds the kinds only flinch.cpp produces.
   */
  datatype Group = Stop | Calls | Vars | Jumps | Operators | Values | Frames | Arrays | Other

  function GroupOf(k: Kind): Group {
    match k
    case Exit => Stop
    case FuncDec | FuncLookup | FuncEnd | Return | Call | FuncCall => Calls
    case LocalVar | LocalVarDec | LocalVarLookup | LocalVarDecLookup
       | GlobalVar | GlobalVarDec | GlobalVarLookup | GlobalVarDecLookup
       | Assign | AsLocal => Vars
    case LabelLookup | LabelDec | Goto | GotoLabel | IfGoto | IfGotoLabel | IfGotoLabelCmp(_)
       | ForLoop | ForLoopLabel | ForLoopLocal => Jumps
    case Bin(_) | Unary(_) | OpIntInline(_) | OpDubInline(_) | OpAssign(_) | OpAsLocal(_) => Operators
    case IntegerInline | IntegerInlineBigDec | IntegerInlineBigBin | Integer | Double | DoubleInline
       | StringLiteral | StringLitReference | BuiltinCall => Values
    case ScopeOpen | ScopeClose | ArrayBuild | Punt | PuntN => Frames
    case ArrayEmptyLit | ArrayIndex | Clone | CloneDeep | ArrayLen | ArrayLenMinusOne
       | ArrayPushIn | ArrayPopOut | ArrayPushBack | ArrayPopBack | ArrayConcat | ArrayDelete => Arrays
    case _ => Other
  }

  /** The call handlers. `m1` is the machine after `i += 1`. */
  function StepCalls(img: Image, t: Token, m1: Machine): (r: Result<Machine, Fault>)
  {
    if t.kind.FuncDec? then OnFuncDec(img, t.n, m1)
    else if t.kind.FuncLookup? then
      var f :- CalleeOf(img, t.n);
      Ok(Push(m1, Func(f)))
    else if t.kind.FuncEnd? || t.kind.Return? then OnFuncEnd(m1)
    else if t.kind.Call? then OnCall(m1)
    else if t.kind.FuncCall? then
      var f :- CalleeOf(img, t.n);
      Ok(Enter(m1, f))
    else Err(Thrown(UnknownOpcode))
  }

  /** The variable handlers. */
  function StepVars(t: Token, m1: Machine): (r: Result<Machine, Fault>)
  {
    var loc, glob := Local(m1.cur, t.n), Global(t.n);
    if t.kind.LocalVar? then OnVar(m1, loc, SlotIndex)
    else if t.kind.LocalVarDec? then OnVarDec(m1, loc, SlotIndex)
    else if t.kind.LocalVarLookup? then OnVarLookup(m1, loc, SlotIndex)
    else if t.kind.LocalVarDecLookup? then OnVarDecLookup(m1, loc, SlotIndex)
    else if t.kind.GlobalVar? then OnVar(m1, glob, VariableIndex)
    else if t.kind.GlobalVarDec? then OnVarDec(m1, glob, VariableIndex)
    else if t.kind.GlobalVarLookup? then OnVarLookup(m1, glob, VariableIndex)
    else if t.kind.GlobalVarDecLookup? then OnVarDecLookup(m1, glob, VariableIndex)
    else if t.kind.Assign? then OnAssign(m1)
    else if t.kind.AsLocal? then OnAsLocal(m1, t.n)
    else Err(Thrown(UnknownOpcode))
  }

  /** The jump handlers. */
  function StepJumps(t: Token, m1: Machine): (r: Result<Machine, Fault>)
  {
    if t.kind.LabelLookup? then Ok(Push(m1, Label(t.n)))
    else if t.kind.LabelDec? then Err(Thrown(DeletedOpcode))
    else if t.kind.Goto? then OnGoto(m1)
    else if t.kind.GotoLabel? then Ok(m1.(pc := t.n))
    else if t.kind.IfGoto? then OnIfGoto(m1)
    else if t.kind.IfGotoLabel? then OnIfGotoLabel(m1, t.n)
    else if t.kind.IfGotoLabelCmp? then OnIfGotoCmp(m1, t.kind.c, t.n)
    else if t.kind.ForLoop? then OnForLoop(m1)
    else if t.kind.ForLoopLabel? then OnForLoopLabel(m1, t.n)
    else if t.kind.ForLoopLocal? then OnForLoopLocal(m1, t.x1, t.x2, t.n)
    else Err(Thrown(UnknownOpcode))
  }

  /** The operator handlers; an inline integer immediate is sign-extended, an inline double is not tracked. */
  function StepOperators(t: Token, m1: Machine): (r: Result<Machine, Fault>)
  {
    if t.kind.Bin? then OnBin(m1, t.kind.op)
    else if t.kind.Unary? then OnUnary(m1, t.kind.u)
    else if t.kind.OpIntInline? then OnTop(m1, ArithOp(t.kind.a), Int(SignExtend32(t.n % TWO_32)))
    else if t.kind.OpDubInline? then OnTop(m1, ArithOp(t.kind.a), Dbl)
    else if t.kind.OpAssign? then OnOpAssign(m1, t.kind.a)
    else if t.kind.OpAsLocal? then OnOpAsLocal(m1, t.kind.a, t.n)
    else Err(Thrown(UnknownOpcode))
  }

  /** Literals, strings and built-ins. */
  function StepValues(img: Image, builtin: (nat, seq<V>) -> Result<seq<V>, Fault>, t: Token, m1: Machine): (r: Result<Machine, Fault>)
  {
    if t.kind.IntegerInline? || t.kind.IntegerInlineBigDec? || t.kind.IntegerInlineBigBin? || t.kind.Integer? then
      var v :- LitValue(img, LitOf(t));
      Ok(Push(m1, Int(v)))
    else if t.kind.Double? || t.kind.DoubleInline? then Ok(Push(m1, Dbl))
    else if t.kind.StringLiteral? then OnStringLiteral(img, t.n, m1)
    else if t.kind.StringLitReference? then
      if t.n >= |img.strRefs| then Err(Undefined(StringRefIndex)) else Ok(Push(m1, Array(t.n)))
    else if t.kind.BuiltinCall? then
      var s :- builtin(t.n, m1.evalstack);
      Ok(m1.(evalstack := s))
    else Err(Thrown(UnknownOpcode))
  }

  /** The handlers that open, close and move between evaluation stacks. */
  function StepFrames(t: Token, m1: Machine): (r: Result<Machine, Fault>)
  {
    if t.kind.ScopeOpen? then Ok(m1.(evalstacks := m1.evalstacks + [m1.evalstack], evalstack := []))
    else if t.kind.ScopeClose? then OnScopeClose(m1)
    else if t.kind.ArrayBuild? then OnArrayBuild(m1)
    else if t.kind.Punt? then OnPunt(m1)
    else if t.kind.PuntN? then OnPuntN(m1)
    else Err(Thrown(UnknownOpcode))
  }

  /** The array handlers. */
  function StepArrays(t: Token, m1: Machine): (r: Result<Machine, Fault>)
  {
    if t.kind.ArrayEmptyLit? then
      var (a, m2) := NewArray(m1, []);
      Ok(Push(m2, a))
    else if t.kind.ArrayIndex? then OnArrayIndex(m1)
    else if t.kind.Clone? then OnClone(m1, false)
    else if t.kind.CloneDeep? then OnClone(m1, true)
    else if t.kind.ArrayLen? then OnArrayLen(m1, 0)
    else if t.kind.ArrayLenMinusOne? then OnArrayLen(m1, 1)
    else if t.kind.ArrayPushIn? then OnArrayPushIn(m1)
    else if t.kind.ArrayPopOut? then OnArrayPopOut(m1)
    else if t.kind.ArrayPushBack? then OnArrayPushBack(m1)
    else if t.kind.ArrayPopBack? then OnArrayPopBack(m1)
    else if t.kind.ArrayConcat? then OnArrayConcat(m1)
    else if t.kind.ArrayDelete? then OnArrayDelete(m1)
    else Err(Thrown(UnknownOpcode))
  }

  /** Run the handler of `t` on `m1`, the machine already moved past `t`; `Exit` stays on its own token. */
  function Handle(img: Image, builtin: (nat, seq<V>) -> Result<seq<V>, Fault>, t: Token, m1: Machine): (r: Result<Machine, Fault>)
  {
    match GroupOf(t.kind)
    case Stop => Ok(m1.(pc := m1.pc - 1))
    case Calls => StepCalls(img, t, m1)
    case Vars => StepVars(t, m1)
    case Jumps => StepJumps(t, m1)
    case Operators => StepOperators(t, m1)
    case Values => StepValues(img, builtin, t, m1)
    case Frames => StepFrames(t, m1)
    case Arrays => StepArrays(t, m1)
    case Other => Err(Thrown(UnknownOpcode))
  }

  /**
    One token: reading past the program is undefined; otherwise move past
    the token and run its handler. `builtin` stands for the table of
    built-in functions, which act on the evaluation stack.
   */
  function Step(img: Image, builtin: (nat, seq<V>) -> Result<seq<V>, Fault>, m: Machine): (r: Result<Machine, Fault>)
    ensures !(0 <= m.pc < |img.program|) ==> r == Err(Undefined(TokenIndex))
    ensures 0 <= m.pc < |img.program| && GroupOf(img.program[m.pc].kind) == Other ==> r == Err(Thrown(UnknownOpcode))
  {
    if !(0 <= m.pc < |img.program|) then Err(Undefined(TokenIndex))
    else Handle(img, builtin, img.program[m.pc], m.(pc := m.pc + 1))
  }

  /** At most `fuel` tokens; at `Exit` the machine stays where it is. */
  function Run(img: Image, builtin: (nat, seq<V>) -> Result<seq<V>, Fault>, m: Machine, fuel: nat): (r: Result<Machine, Fault>)
    ensures fuel == 0 || Halted(img, m) ==> r == Ok(m)
    ensures fuel > 0 && !(0 <= m.pc < |img.program|) ==> r == Err(Undefined(TokenIndex))
    decreases fuel
  {
    if fuel == 0 || Halted(img, m) then Ok(m)
    else
      var m1 :- Step(img, builtin, m);
      Run(img, builtin, m1, fuel - 1)
  }
}
