/**
  Properties of the Python reference interpreter, stated over `Step`:
  the definition scan, the call/return protocol, variable binding and the
  scope-escape law, jumps, arithmetic, frames and integer literals.
 */
module PyProps {
  import opened Wrappers
  import opened MachineInt
  import opened PyInterp

  function Last<T>(s: seq<T>): T
    requires |s| > 0
  {
    s[|s| - 1]
  }

  function DropLast<T>(s: seq<T>): seq<T>
    requires |s| > 0
  {
    s[..|s| - 1]
  }

  /** The name a definition header introduces: `name^` without its marker. */
  function DefName(t: string): string
    requires IsDefHeader(t)
  {
    t[..|t| - 1]
  }

  /** Identifier characters rule out every marker the dispatch chain tests for. */
  lemma NameShape(t: string)
    requires IsNameStart(t) && forall k :: 0 <= k < |t| ==> IsNameChar(t[k])
    ensures !IsDefHeader(t) && !IsFuncRef(t) && !IsDeclRef(t) && !IsRef(t) && !IsDecl(t) && !IsLabelRef(t) && !IsLabelDef(t)
    ensures !IsArithToken(t) && !IsIntLit(t)
    ensures t != "^^" && t != "<-" && t != "<<<" && t != ">>>" && t != "<="
  {
    assert IsNameChar(t[0]) && IsNameChar(t[|t| - 1]);
  }

  /** Plain names reach the variable-read fallback. */
  lemma PlainNameClassify(t: string)
    requires IsPlainName(t)
    ensures Classify(t) == KOther(t) && !IsIntLit(t)
  {
    NameShape(t);
  }

  /** Integer spellings reach the literal fallback. */
  lemma IntSpellingClassify(n: int)
    ensures ShowInt(n) != "" && Classify(ShowInt(n)) == KOther(ShowInt(n))
  {
    var t := ShowInt(n);
    var m := ShowNat(if n < 0 then -n else n);
    assert t[|t| - 1] == m[|m| - 1];
    assert IsDigit(t[|t| - 1]);
    assert IsDigit(t[0]) || t[0] == '-';
    assert !IsArithToken(t);
  }

  // ----- the definition scan -----

  /**
    A top-level `name^` followed by a `^^` at index `e`, with no empty token
    and no other `^^` between, registers `Func(pc, e - pc, name)`, records
    exactly the labels defined in the body (the last definition of a name
    wins), and resumes after the `^^`. Nothing is executed in between.
   */
  lemma DefScanSpec(prog: seq<string>, s: State, e: nat)
    requires WellFormed(s) && s.pc < |prog| && IsDefHeader(prog[s.pc]) && |s.calls| == 0
    requires s.pc < e < |prog| && prog[e] == "^^"
    requires forall k :: s.pc < k < e ==> prog[k] != "^^" && prog[k] != ""
    ensures Step(prog, s).Ok?
    ensures Step(prog, s).value.pc == e + 1
    ensures Step(prog, s).value.funcs == s.funcs[DefName(prog[s.pc]) := Func(s.pc, e - s.pc, DefName(prog[s.pc]))]
    ensures DefName(prog[s.pc]) in Step(prog, s).value.labels
    ensures forall x :: x in Step(prog, s).value.labels[DefName(prog[s.pc])] <==> LabelIndex(prog, s.pc + 1, e, x).Some?
    ensures forall x :: x in Step(prog, s).value.labels[DefName(prog[s.pc])] ==>
      Step(prog, s).value.labels[DefName(prog[s.pc])][x] == LabelIndex(prog, s.pc + 1, e, x).value
    ensures forall f :: f in s.labels && f != DefName(prog[s.pc]) ==>
      f in Step(prog, s).value.labels && Step(prog, s).value.labels[f] == s.labels[f]
    ensures Step(prog, s).value == s.(pc := e + 1, funcs := Step(prog, s).value.funcs, labels := Step(prog, s).value.labels)
  {
    DefStepIs(prog, s);
    hide Step, Exec, ExecDef;
    var r := ScanDef(prog, s.pc, map[]);
    if r.Err? {
      ScanDefFindsEnd(prog, s.pc, e, map[]);
    }
    var (e', labs) := r.value;
    assert e' == e;
    forall x
      ensures LabelIndex(prog, s.pc, e, x) == LabelIndex(prog, s.pc + 1, e, x)
    {
    }
  }

  /** At top level a definition header steps to just past the `^^` the scan finds. */
  lemma DefStepIs(prog: seq<string>, s: State)
    requires WellFormed(s) && s.pc < |prog| && IsDefHeader(prog[s.pc]) && |s.calls| == 0
    ensures var t := prog[s.pc];
            Step(prog, s)
              == (var (e, labs) :- ScanDef(prog, s.pc, map[]);
                  Ok(s.(pc := e + 1, funcs := s.funcs[t[..|t| - 1] := Func(s.pc, e - s.pc, t[..|t| - 1])], labels := s.labels[t[..|t| - 1] := labs])))
  {
    assert Classify(prog[s.pc]) == KDef;
  }

  /** The scan succeeds whenever a `^^` follows with no empty token before it. */
  lemma {:induction false} ScanDefFindsEnd(prog: seq<string>, i: nat, e: nat, labs: map<string, nat>)
    requires i < e < |prog| && prog[e] == "^^"
    requires forall k :: i <= k < e ==> prog[k] != "^^" && prog[k] != ""
    ensures ScanDef(prog, i, labs).Ok?
    decreases e - i
  {
    var t := prog[i];
    var labs' := if IsLabelDef(t) then labs[LabelName(t) := i] else labs;
    if i + 1 < e {
      ScanDefFindsEnd(prog, i + 1, e, labs');
    }
  }

  /**
    Conversely, a definition step succeeds only at top level and only when a
    `^^` follows with no empty token before it; it resumes just past that `^^`.
   */
  lemma DefScanOnlyIf(prog: seq<string>, s: State)
    requires WellFormed(s) && s.pc < |prog| && IsDefHeader(prog[s.pc])
    ensures Step(prog, s).Ok? ==> |s.calls| == 0
    ensures Step(prog, s).Ok? ==>
      var e := Step(prog, s).value.pc - 1;
      s.pc < e < |prog| && prog[e] == "^^" && forall k :: s.pc < k < e ==> prog[k] != "^^" && prog[k] != ""
  {
  }

  /** A definition opened inside a call fails the source's `call_stack` assertion. */
  lemma NestedDefFaults(prog: seq<string>, s: State)
    requires WellFormed(s) && s.pc < |prog| && IsDefHeader(prog[s.pc]) && |s.calls| > 0
    ensures Step(prog, s) == Err(NestedDef)
  {
  }

  // ----- calls -----

  predicate IsCallToken(t: string) {
    t == "call" || t == "call_eval"
  }

  /**
    `call` and `call_eval` succeed exactly when the top value is a function;
    they push the call frame, the function name and a fresh empty scope,
    and the next token executed is the one after the function's header.
   */
  lemma CallSpec(prog: seq<string>, s: State)
    requires WellFormed(s) && s.pc < |prog| && IsCallToken(prog[s.pc])
    ensures Step(prog, s).Ok? <==> |s.evals| > 0 && |TopFrame(s)| > 0 && Last(TopFrame(s)).FuncV?
    ensures Step(prog, s).Ok? ==>
      var f := Last(TopFrame(s)).f;
      var s' := Step(prog, s).value;
      && s'.pc == f.loc + 1
      && s'.calls == s.calls + [CallFrame(s.pc, prog[s.pc] == "call_eval")]
      && s'.fstack == s.fstack + [f.name]
      && s'.varstack == s.varstack + [|s.scopes|]
      && s'.scopes == s.scopes + [map[]]
      && |s'.evals| == |s.evals| && DropLast(s'.evals) == DropLast(s.evals)
      && TopFrame(s') == DropLast(TopFrame(s))
  {
  }

  /**
    The `^^` that ends a call undoes the call's control entries: whatever ran
    in between, if the call and name stacks are back to what the call pushed,
    `^^` restores them to their state before the call, resumes at the token
    after the call, and pushes 0 iff the call was `call_eval`. The scope the
    call created stays on `varstack`.
   */
  lemma CallThenEnd(prog: seq<string>, s: State, s2: State)
    requires WellFormed(s) && s.pc < |prog| && IsCallToken(prog[s.pc]) && Step(prog, s).Ok?
    requires WellFormed(s2) && s2.calls == Step(prog, s).value.calls && s2.fstack == Step(prog, s).value.fstack
    requires s2.pc < |prog| && prog[s2.pc] == "^^"
    ensures Step(prog, s2).Ok? <==> prog[s.pc] == "call" || |s2.evals| > 0
    ensures Step(prog, s2).Ok? ==>
      var s3 := Step(prog, s2).value;
      && s3.pc == s.pc + 1
      && s3.calls == s.calls && s3.fstack == s.fstack
      && s3.varstack == s2.varstack && s3.scopes == s2.scopes
      && (prog[s.pc] == "call" ==> s3.evals == s2.evals)
      && (prog[s.pc] == "call_eval" ==>
            |s3.evals| == |s2.evals| && DropLast(s3.evals) == DropLast(s2.evals) && TopFrame(s3) == TopFrame(s2) + [IntV(0)])
  {
    CallSpec(prog, s);
  }

  /** A `return` token takes the `return` branch of the dispatch chain. */
  lemma ReturnStep(prog: seq<string>, s: State)
    requires WellFormed(s) && s.pc < |prog| && prog[s.pc] == "return"
    ensures Step(prog, s) == Advance(ExecReturn(s))
  {
  }

  /** `return` with the call frame of `c` on top: the frame's return index, its name popped. */
  lemma ReturnSpec(s: State, c: CallFrame)
    requires WellFormed(s) && |s.calls| > 0 && |s.fstack| > 0 && s.calls[|s.calls| - 1] == c
    ensures ExecReturn(s).Ok? <==> |s.evals| > 0 && |TopFrame(s)| > 0
    ensures ExecReturn(s).Ok? ==>
      var s3 := ExecReturn(s).value;
      && s3.pc == c.ret
      && s3.calls == DropLast(s.calls) && s3.fstack == DropLast(s.fstack)
      && s3.varstack == s.varstack && s3.scopes == s.scopes
      && (c.isEval ==> s3.evals == s.evals)
      && (!c.isEval ==>
            |s3.evals| == |s.evals| && DropLast(s3.evals) == DropLast(s.evals) && TopFrame(s3) == DropLast(TopFrame(s)))
  {
    if ExecReturn(s).Ok? && c.isEval {
      var (v, s0) := Pop(s).value;
      assert s.evals == DropLast(s.evals) + [TopFrame(s)];
      assert ExecReturn(s).value.evals == DropLast(s0.evals) + [TopFrame(s0) + [v]];
    }
  }

  /**
    `return` pops one value; a `call_eval` gets it back on the caller's
    frame, a plain `call` loses it. Control entries are restored as for `^^`.
   */
  lemma CallThenReturn(prog: seq<string>, s: State, s2: State)
    requires WellFormed(s) && s.pc < |prog| && IsCallToken(prog[s.pc]) && Step(prog, s).Ok?
    requires WellFormed(s2) && s2.calls == Step(prog, s).value.calls && s2.fstack == Step(prog, s).value.fstack
    requires s2.pc < |prog| && prog[s2.pc] == "return"
    ensures Step(prog, s2).Ok? <==> |s2.evals| > 0 && |TopFrame(s2)| > 0
    ensures Step(prog, s2).Ok? ==>
      var s3 := Step(prog, s2).value;
      && s3.pc == s.pc + 1
      && s3.calls == s.calls && s3.fstack == s.fstack
      && s3.varstack == s2.varstack && s3.scopes == s2.scopes
      && (prog[s.pc] == "call_eval" ==> s3.evals == s2.evals)
      && (prog[s.pc] == "call" ==>
            |s3.evals| == |s2.evals| && DropLast(s3.evals) == DropLast(s2.evals) && TopFrame(s3) == DropLast(TopFrame(s2)))
  {
    CallSpec(prog, s);
    ReturnStep(prog, s2);
    ReturnSpec(s2, CallFrame(s.pc, prog[s.pc] == "call_eval"));
  }

  /** Since nothing pops `varstack`, it always lists every scope created so far. */
  lemma AllScopesStackedInit()
    ensures AllScopesStacked(Init())
  {
  }

  // ----- variables -----

  predicate IsNameChar(c: char) {
    ('a' <= c <= 'z') || ('A' <= c <= 'Z') || ('0' <= c <= '9') || c == '_'
  }

  /**
    A token that reaches the variable-read fallback: identifier characters,
    not a keyword, and not one of the float spellings `inf`, `nan`, `infinity`.
   */
  predicate IsPlainName(t: string) {
    && IsNameStart(t)
    && (forall k :: 0 <= k < |t| ==> IsNameChar(t[k]))
    && t !in {"return", "call", "call_eval", "if_goto", "goto"}
    && !IsFloatLit(t)
  }

  /** `i += 1` after a dispatch that succeeded; faults pass through. */
  function Advance(r: Result<State, Fault>): Result<State, Fault> {
    if r.Ok? then Ok(r.value.(pc := r.value.pc + 1)) else r
  }

  /** A token that takes the fallback branch steps by `ExecOther`. */
  lemma OtherStep(prog: seq<string>, s: State)
    requires WellFormed(s) && s.pc < |prog| && prog[s.pc] != "" && Classify(prog[s.pc]) == KOther(prog[s.pc])
    ensures Step(prog, s) == Advance(ExecOther(prog[s.pc], s))
  {
    StepAdvance(prog, s);
    OtherBranch(prog, s, prog[s.pc]);
  }

  lemma OtherBranch(prog: seq<string>, s: State, t: string)
    requires WellFormed(s) && s.pc < |prog| && prog[s.pc] != "" && Classify(prog[s.pc]) == KOther(t)
    ensures Exec(prog, s) == ExecOther(t, s)
  {
  }

  /** The fallback reads a name from the scope `Resolve` picks. */
  lemma ReadOther(t: string, s: State)
    requires WellFormed(s) && !IsIntLit(t) && !IsFloatLit(t) && IsNameStart(t)
    ensures t !in s.scopes[Resolve(s, t)] ==> ExecOther(t, s) == Err(UnknownVariable(t))
    ensures t in s.scopes[Resolve(s, t)] ==> ExecOther(t, s) == Push(s, s.scopes[Resolve(s, t)][t])
  {
  }

  /** A token that reaches the fallback as a name reads the value it is bound to. */
  lemma ReadFallback(prog: seq<string>, s: State)
    requires WellFormed(s) && s.pc < |prog| && prog[s.pc] != "" && Classify(prog[s.pc]) == KOther(prog[s.pc])
    requires !IsIntLit(prog[s.pc]) && !IsFloatLit(prog[s.pc]) && IsNameStart(prog[s.pc])
    ensures prog[s.pc] !in s.scopes[Resolve(s, prog[s.pc])] ==> Step(prog, s) == Err(UnknownVariable(prog[s.pc]))
    ensures prog[s.pc] in s.scopes[Resolve(s, prog[s.pc])] && |s.evals| > 0 ==>
      && Step(prog, s).Ok?
      && Step(prog, s).value == s.(pc := s.pc + 1, evals := Step(prog, s).value.evals)
      && |Step(prog, s).value.evals| == |s.evals|
      && TopFrame(Step(prog, s).value) == TopFrame(s) + [s.scopes[Resolve(s, prog[s.pc])][prog[s.pc]]]
  {
    OtherStep(prog, s);
    ReadOther(prog[s.pc], s);
  }

  /** A plain name reads the value it is bound to: local scope first, else global. */
  lemma ReadSpec(prog: seq<string>, s: State)
    requires WellFormed(s) && s.pc < |prog| && IsPlainName(prog[s.pc])
    ensures prog[s.pc] !in s.scopes[Resolve(s, prog[s.pc])] ==> Step(prog, s) == Err(UnknownVariable(prog[s.pc]))
    ensures prog[s.pc] in s.scopes[Resolve(s, prog[s.pc])] && |s.evals| > 0 ==>
      && Step(prog, s).Ok?
      && Step(prog, s).value == s.(pc := s.pc + 1, evals := Step(prog, s).value.evals)
      && |Step(prog, s).value.evals| == |s.evals|
      && TopFrame(Step(prog, s).value) == TopFrame(s) + [s.scopes[Resolve(s, prog[s.pc])][prog[s.pc]]]
  {
    PlainNameClassify(prog[s.pc]);
    ReadFallback(prog, s);
  }

  /**
    `$x$` binds `x` to 0 in the current scope and pushes a reference to
    exactly that binding; `x$` does the same without pushing.
   */
  lemma DeclareSpec(prog: seq<string>, s: State, x: string)
    requires WellFormed(s) && s.pc < |prog| && |x| > 0
    requires prog[s.pc] == "$" + x + "$" || prog[s.pc] == x + "$"
    requires x[0] != '$' && x[0] != ':' && x[0] != '^'
    requires |s.evals| > 0
    ensures Step(prog, s).Ok?
    ensures var s' := Step(prog, s).value;
      && x in s'.scopes[CurrentScope(s)] && s'.scopes[CurrentScope(s)][x] == IntV(0)
      && s'.pc == s.pc + 1 && s'.varstack == s.varstack && |s'.scopes| == |s.scopes|
      && (prog[s.pc] == "$" + x + "$" ==> TopFrame(s') == TopFrame(s) + [VarV(CurrentScope(s), x)])
      && (prog[s.pc] == x + "$" ==> s'.evals == s.evals)
  {
    var t := prog[s.pc];
    if t == "$" + x + "$" {
      assert t[1..|t| - 1] == x;
      assert IsDeclRef(t);
    } else {
      assert t[..|t| - 1] == x;
      assert t[0] == x[0];
      assert !IsDefHeader(t) && !IsFuncRef(t) && t != "^^" && t != "return" && !IsRef(t);
    }
  }

  /**
    `$x` pushes a reference into the current scope if that scope already
    binds `x`, and into the global scope otherwise; no value is read.
   */
  lemma RefSpec(prog: seq<string>, s: State, x: string)
    requires WellFormed(s) && s.pc < |prog| && |x| > 0 && x[|x| - 1] != '$' && x[|x| - 1] != '^'
    requires prog[s.pc] == "$" + x
    requires |s.evals| > 0
    ensures Step(prog, s).Ok?
    ensures var s' := Step(prog, s).value;
      && TopFrame(s') == TopFrame(s) + [VarV(if x in s.scopes[CurrentScope(s)] then CurrentScope(s) else 0, x)]
      && s' == s.(pc := s.pc + 1, evals := s'.evals)
  {
    var t := prog[s.pc];
    assert t[1..] == x;
    assert LastChar(t) == x[|x| - 1];
  }

  /**
    `<-` pops the reference, then the value. Through a reference `(k, x)` it
    changes exactly the binding `x` of scope `k` — whether or not scope `k`
    is the current one — and leaves every other binding alone.
   */
  lemma AssignSpec(prog: seq<string>, s: State)
    requires WellFormed(s) && s.pc < |prog| && prog[s.pc] == "<-"
    requires |s.evals| > 0 && |TopFrame(s)| >= 2
    ensures var ref := Last(TopFrame(s)); var val := TopFrame(s)[|TopFrame(s)| - 2];
      && (!ref.VarV? ==> Step(prog, s) == Err(NotAVariable))
      && (ref.VarV? ==>
            && Step(prog, s).Ok?
            && var s' := Step(prog, s).value;
            && ref.name in s'.scopes[ref.scope] && s'.scopes[ref.scope][ref.name] == val
            && (forall k, x :: 0 <= k < |s.scopes| && x in s.scopes[k] && (k, x) != (ref.scope, ref.name) ==>
                  x in s'.scopes[k] && s'.scopes[k][x] == s.scopes[k][x])
            && (forall k, x :: 0 <= k < |s.scopes| && x in s'.scopes[k] && (k, x) != (ref.scope, ref.name) ==>
                  x in s.scopes[k])
            && |s'.scopes| == |s.scopes| && s'.varstack == s.varstack && s'.pc == s.pc + 1
            && |s'.evals| == |s.evals| && TopFrame(s') == TopFrame(s)[..|TopFrame(s)| - 2])
  {
    var top := TopFrame(s);
    var (r1, s1) := Pop(s).value;
    var (r2, s2) := Pop(s1).value;
    assert TopFrame(s2) == top[..|top| - 2];
  }

  /** Assigning through the reference a name resolves to keeps that name resolving to the same scope. */
  lemma AssignKeepsResolve(prog: seq<string>, s: State, x: string, v: Value)
    requires WellFormed(s) && s.pc < |prog| && prog[s.pc] == "<-"
    requires |s.evals| > 0 && |TopFrame(s)| >= 2
    requires Last(TopFrame(s)) == VarV(Resolve(s, x), x) && TopFrame(s)[|TopFrame(s)| - 2] == v
    ensures && Step(prog, s).Ok?
            && WellFormed(Step(prog, s).value)
            && Step(prog, s).value.pc == s.pc + 1
            && |Step(prog, s).value.evals| == |s.evals|
            && Resolve(Step(prog, s).value, x) == Resolve(s, x)
            && x in Step(prog, s).value.scopes[Resolve(s, x)]
            && Step(prog, s).value.scopes[Resolve(s, x)][x] == v
            && TopFrame(Step(prog, s).value) == TopFrame(s)[..|TopFrame(s)| - 2]
  {
    hide Step, Exec;
    AssignSpec(prog, s);
    var s1 := Step(prog, s).value;
    assert CurrentScope(s1) == CurrentScope(s);
    if x !in s.scopes[CurrentScope(s)] && CurrentScope(s) != 0 {
      assert x !in s1.scopes[CurrentScope(s1)];
    }
  }

  /**
    Writing through the reference that a bare name resolves to, then reading
    that name, yields the value written.
   */
  lemma AssignThenRead(prog: seq<string>, s: State, x: string, v: Value)
    requires WellFormed(s) && s.pc + 1 < |prog| && prog[s.pc] == "<-" && prog[s.pc + 1] == x && IsPlainName(x)
    requires |s.evals| > 0 && |TopFrame(s)| >= 2
    requires Last(TopFrame(s)) == VarV(Resolve(s, x), x) && TopFrame(s)[|TopFrame(s)| - 2] == v
    ensures && Step(prog, s).Ok? && Step(prog, s).value.pc == s.pc + 1
            && Step(prog, Step(prog, s).value).Ok?
            && |Step(prog, Step(prog, s).value).value.evals| == |s.evals|
            && TopFrame(Step(prog, Step(prog, s).value).value) == TopFrame(s)[..|TopFrame(s)| - 2] + [v]
  {
    AssignKeepsResolve(prog, s, x, v);
    ReadSpec(prog, Step(prog, s).value);
  }

  /**
    The scope-escape law: a binding, once made, is never deleted by any step,
    so a reference captured inside a call still reaches a live binding after
    the call has returned.
   */
  lemma BindingsOutliveCalls(prog: seq<string>, s: State, k: nat, x: string)
    requires WellFormed(s) && s.pc < |prog| && prog[s.pc] != ""
    requires k < |s.scopes| && x in s.scopes[k]
    ensures Step(prog, s).Ok? ==> k < |Step(prog, s).value.scopes| && x in Step(prog, s).value.scopes[k]
  {
  }

  // ----- jumps -----

  /**
    `goto` continues at the token after the destination's index: a label's
    own index, or a function's header index. Other values fault.
   */
  lemma GotoSpec(prog: seq<string>, s: State)
    requires WellFormed(s) && s.pc < |prog| && prog[s.pc] == "goto"
    requires |s.evals| > 0 && |TopFrame(s)| > 0
    ensures var dest := Last(TopFrame(s));
      && (dest.LabelV? ==> Step(prog, s).Ok? && Step(prog, s).value.pc == dest.loc + 1)
      && (dest.FuncV? ==> Step(prog, s).Ok? && Step(prog, s).value.pc == dest.f.loc + 1)
      && (!dest.LabelV? && !dest.FuncV? ==> Step(prog, s) == Err(NotAJumpTarget))
      && (Step(prog, s).Ok? ==> |Step(prog, s).value.evals| == |s.evals| && TopFrame(Step(prog, s).value) == DropLast(TopFrame(s)))
  {
  }

  /**
    `if_goto` pops the destination and then the condition. A false condition
    falls through without looking at the destination (any value will do); a
    true one jumps like `goto`.
   */
  lemma IfGotoSpec(prog: seq<string>, s: State)
    requires WellFormed(s) && s.pc < |prog| && prog[s.pc] == "if_goto"
    requires |s.evals| > 0 && |TopFrame(s)| >= 2
    ensures var dest := Last(TopFrame(s)); var cond := TopFrame(s)[|TopFrame(s)| - 2];
      && (Truthy(cond) == Ok(false) ==> Step(prog, s).Ok? && Step(prog, s).value.pc == s.pc + 1)
      && (Truthy(cond) == Ok(true) && dest.LabelV? ==> Step(prog, s).Ok? && Step(prog, s).value.pc == dest.loc + 1)
      && (Truthy(cond) == Ok(true) && !dest.LabelV? && !dest.FuncV? ==> Step(prog, s) == Err(NotAJumpTarget))
      && (Step(prog, s).Ok? ==> |Step(prog, s).value.evals| == |s.evals| && TopFrame(Step(prog, s).value) == TopFrame(s)[..|TopFrame(s)| - 2])
  {
    var top := TopFrame(s);
    var (r1, s1) := Pop(s).value;
    var (r2, s2) := Pop(s1).value;
    assert TopFrame(s2) == top[..|top| - 2];
  }

  /** `:x` inside function `f` pushes the index the scan recorded for label `x` of `f`. */
  lemma LabelRefSpec(prog: seq<string>, s: State, x: string)
    requires WellFormed(s) && s.pc < |prog| && prog[s.pc] == ":" + x
    requires |x| > 0 && x[|x| - 1] != '^' && x[|x| - 1] != '$'
    requires |s.fstack| > 0 && Last(s.fstack) in s.labels && x in s.labels[Last(s.fstack)]
    requires |s.evals| > 0
    ensures && Step(prog, s).Ok?
            && Step(prog, s).value.pc == s.pc + 1
            && |Step(prog, s).value.evals| == |s.evals|
            && TopFrame(Step(prog, s).value) == TopFrame(s) + [LabelV(s.labels[Last(s.fstack)][x])]
  {
    var t := prog[s.pc];
    assert t[1..] == x;
    assert LastChar(t) == x[|x| - 1];
    assert Classify(t) == KLabelRef(x);
  }

  /**
    Inside function `f`, `:x` followed by `goto` resumes at the token right
    after the label definition that the scan recorded for `x`.
   */
  lemma LabelJump(prog: seq<string>, s: State, x: string)
    requires WellFormed(s) && s.pc + 1 < |prog| && prog[s.pc] == ":" + x && prog[s.pc + 1] == "goto"
    requires |x| > 0 && x[|x| - 1] != '^' && x[|x| - 1] != '$'
    requires |s.fstack| > 0 && Last(s.fstack) in s.labels && x in s.labels[Last(s.fstack)]
    requires |s.evals| > 0
    ensures && Step(prog, s).Ok? && Step(prog, s).value.pc == s.pc + 1
            && Step(prog, Step(prog, s).value).Ok?
            && Step(prog, Step(prog, s).value).value.pc == s.labels[Last(s.fstack)][x] + 1
            && |Step(prog, Step(prog, s).value).value.evals| == |s.evals|
            && TopFrame(Step(prog, Step(prog, s).value).value) == TopFrame(s)
  {
    LabelRefSpec(prog, s, x);
    var s1 := Step(prog, s).value;
    GotoSpec(prog, s1);
    assert DropLast(TopFrame(s1)) == TopFrame(s);
  }

  // ----- arithmetic and frames -----

  /**
    On two `int`s, `/` and `%` agree: the quotient floors and the remainder
    takes the divisor's sign, with `a == b * (a / b) + a % b`.
   */
  lemma DivModAgree(a: int, b: int)
    requires b != 0
    ensures Arith('/', IntV(a), IntV(b)).Ok? && Arith('%', IntV(a), IntV(b)).Ok?
    ensures var q := Arith('/', IntV(a), IntV(b)).value.i; var r := Arith('%', IntV(a), IntV(b)).value.i;
      && a == b * q + r
      && (b > 0 ==> 0 <= r < b)
      && (b < 0 ==> b < r <= 0)
  {
  }

  /** Division by zero faults for `/` and `%` alike. */
  lemma DivByZeroFaults(a: Value, op: char)
    requires op == '/' || op == '%'
    requires a.IntV? || a.BoolV?
    ensures Arith(op, a, IntV(0)) == Err(DivisionByZero) && Arith(op, a, BoolV(false)) == Err(DivisionByZero)
  {
  }

  /** `/` is floor division only when both operands are `int` proper; a `bool` operand gives true division. */
  lemma BoolOperandTrueDivision(x: int)
    ensures Arith('/', IntV(x), BoolV(true)) == Ok(FloatV)
    ensures Arith('/', BoolV(true), IntV(1)) == Ok(FloatV)
  {
  }

  /** An operator token takes the arithmetic branch of the dispatch chain. */
  lemma ArithStep(prog: seq<string>, s: State)
    requires WellFormed(s) && s.pc < |prog| && IsArithToken(prog[s.pc])
    ensures prog[s.pc] != "" && Step(prog, s) == Advance(ExecArith(prog[s.pc], s))
  {
    ArithTokenClassify(prog[s.pc]);
    StepAdvance(prog, s);
    ArithBranch(prog, s, prog[s.pc]);
  }

  /** A step is the dispatch, then the move to the next token. */
  lemma StepAdvance(prog: seq<string>, s: State)
    requires WellFormed(s) && s.pc < |prog| && prog[s.pc] != ""
    ensures Step(prog, s) == Advance(Exec(prog, s))
  {
  }

  lemma ArithBranch(prog: seq<string>, s: State, t: string)
    requires WellFormed(s) && s.pc < |prog| && prog[s.pc] != "" && Classify(prog[s.pc]) == KArith(t)
    ensures Exec(prog, s) == ExecArith(t, s)
  {
  }

  /** The arithmetic branch on a top frame ending in `a, b`: what it pushes, on the frame without them. */
  lemma ArithPops(t: string, s: State)
    requires WellFormed(s) && |s.evals| > 0 && |TopFrame(s)| >= 2
    ensures var a := TopFrame(s)[|TopFrame(s)| - 2]; var b := Last(TopFrame(s));
      && (|t| != 1 || t[0] !in ARITH_CHARS ==> ExecArith(t, s).Ok?)
      && (|t| == 1 && t[0] in ARITH_CHARS ==> (ExecArith(t, s).Ok? <==> Arith(t[0], a, b).Ok?))
      && (ExecArith(t, s).Ok? ==>
            && ExecArith(t, s).value == s.(evals := ExecArith(t, s).value.evals)
            && |ExecArith(t, s).value.evals| == |s.evals|
            && TopFrame(ExecArith(t, s).value) ==
                 TopFrame(s)[..|TopFrame(s)| - 2] + (if |t| == 1 && t[0] in ARITH_CHARS then [Arith(t[0], a, b).value] else []))
  {
    var top := TopFrame(s);
    var (r1, s1) := Pop(s).value;
    var (r2, s2) := Pop(s1).value;
    assert TopFrame(s2) == top[..|top| - 2];
    assert s2 == s.(evals := s2.evals);
  }

  /**
    A one-character operator pops `b`, then `a`, and pushes `a op b`;
    the order matters for `-`.
   */
  lemma SubtractStep(prog: seq<string>, s: State, a: int, b: int)
    requires WellFormed(s) && s.pc < |prog| && prog[s.pc] == "-"
    requires |s.evals| > 0 && |TopFrame(s)| >= 2
    requires Last(TopFrame(s)) == IntV(b) && TopFrame(s)[|TopFrame(s)| - 2] == IntV(a)
    ensures Step(prog, s).Ok?
    ensures TopFrame(Step(prog, s).value) == TopFrame(s)[..|TopFrame(s)| - 2] + [IntV(a - b)]
  {
    hide Step, Exec, ExecArith;
    assert IsArithToken(prog[s.pc]);
    ArithStep(prog, s);
    ArithPops("-", s);
  }

  /** A multi-character substring of the operator string, such as `+-`, pops two values and pushes nothing. */
  lemma OperatorSubstringDropsTwo(prog: seq<string>, s: State)
    requires WellFormed(s) && s.pc < |prog| && IsArithToken(prog[s.pc]) && |prog[s.pc]| >= 2
    requires |s.evals| > 0 && |TopFrame(s)| >= 2
    ensures Step(prog, s).Ok?
    ensures |Step(prog, s).value.evals| == |s.evals|
    ensures TopFrame(Step(prog, s).value) == TopFrame(s)[..|TopFrame(s)| - 2]
  {
    ArithStep(prog, s);
    ArithPops(prog[s.pc], s);
  }

  /** Every character of an operator token is in ARITH_CHARS, so it begins and ends with one. */
  lemma ArithTokenEnds(t: string)
    requires IsArithToken(t)
    ensures |t| > 0 && t[0] in ARITH_CHARS && LastChar(t) in ARITH_CHARS
  {
  }

  /** A token that begins and ends with an operator character fails every test before the arithmetic one. */
  lemma OperatorEndsClassify(t: string)
    requires |t| > 0 && t[0] in ARITH_CHARS && LastChar(t) in ARITH_CHARS
    ensures IsArithToken(t) ==> Classify(t) == KArith(t)
  {
    assert t[0] !in {'^', '$', ':', 'r', 'c', '<', '>', 'i', 'g'};
    assert LastChar(t) !in {'^', '$', ':'};
  }

  lemma ArithTokenClassify(t: string)
    requires IsArithToken(t)
    ensures t != "" && Classify(t) == KArith(t)
  {
    ArithTokenEnds(t);
    OperatorEndsClassify(t);
  }

  /**
    `<<<` then `>>>` leaves the frames exactly as they were; `>>>` discards
    the whole top frame, whatever it holds.
   */
  lemma FrameRoundTrip(prog: seq<string>, s: State)
    requires WellFormed(s) && s.pc + 1 < |prog| && prog[s.pc] == "<<<" && prog[s.pc + 1] == ">>>"
    ensures Step(prog, s).Ok?
    ensures Step(prog, Step(prog, s).value).Ok?
    ensures Step(prog, Step(prog, s).value).value == s.(pc := s.pc + 2)
  {
    var s1 := Step(prog, s).value;
    assert s1.evals == s.evals + [[]];
    assert s1.evals[..|s1.evals| - 1] == s.evals;
  }

  lemma CloseFrameSpec(prog: seq<string>, s: State)
    requires WellFormed(s) && s.pc < |prog| && prog[s.pc] == ">>>"
    ensures |s.evals| == 0 <==> Step(prog, s) == Err(NoFrame)
    ensures Step(prog, s).Ok? ==> Step(prog, s).value == s.(pc := s.pc + 1, evals := DropLast(s.evals))
  {
  }

  // ----- integer literals -----

  function DigitChar(d: nat): char
    requires d < 10
  {
    ('0' as int + d) as char
  }

  /** The decimal spelling of a natural number, without underscores. */
  function ShowNat(n: nat): (r: string)
    ensures |r| > 0
    ensures forall k :: 0 <= k < |r| ==> IsDigit(r[k])
  {
    if n < 10 then [DigitChar(n)] else ShowNat(n / 10) + [DigitChar(n % 10)]
  }

  /** The decimal spelling of an integer, with a leading `-` when negative. */
  function ShowInt(n: int): string {
    if n < 0 then "-" + ShowNat(-n) else ShowNat(n)
  }

  lemma {:induction false} ShowNatValue(n: nat)
    ensures IsDigitPart(ShowNat(n))
    ensures DigitsValue(ShowNat(n)) == n
    decreases n
  {
    var r := ShowNat(n);
    if n >= 10 {
      ShowNatValue(n / 10);
      assert r[..|r| - 1] == ShowNat(n / 10);
    }
  }

  /** Every integer's decimal spelling is an integer literal that denotes it. */
  lemma IntLiteralRoundTrip(n: int)
    ensures IsIntLit(ShowInt(n))
    ensures IntLitValue(ShowInt(n)) == n
  {
    if n < 0 {
      ShowNatValue(-n);
      var t := ShowInt(n);
      assert t[1..] == ShowNat(-n);
      assert !IsDigitPart(t) by {
        assert !IsDigit(t[0]);
      }
    } else {
      ShowNatValue(n);
    }
  }

  /** The fallback pushes the value of an integer literal. */
  lemma IntOther(t: string, s: State)
    requires WellFormed(s) && IsIntLit(t)
    ensures ExecOther(t, s) == Push(s, IntV(IntLitValue(t)))
  {
  }

  /** Executing an integer's spelling pushes that integer. */
  lemma IntLiteralStep(prog: seq<string>, s: State, n: int)
    requires WellFormed(s) && s.pc < |prog| && prog[s.pc] == ShowInt(n) && |s.evals| > 0
    ensures Step(prog, s).Ok?
    ensures Step(prog, s).value == s.(pc := s.pc + 1, evals := Step(prog, s).value.evals)
    ensures |Step(prog, s).value.evals| == |s.evals|
    ensures TopFrame(Step(prog, s).value) == TopFrame(s) + [IntV(n)]
  {
    IntLiteralRoundTrip(n);
    IntSpellingClassify(n);
    OtherStep(prog, s);
    IntOther(prog[s.pc], s);
  }
}
