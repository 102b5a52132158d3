/**
  The dispatch loop of the Python reference interpreter (etc/flinch.py).

  The token list is the program. Each step looks at `program[i]`, runs the
  first matching branch of the dispatch chain, and then unconditionally
  advances `i` by one, so jumps and calls land one token past the index they
  record. Scopes live in a heap (`scopes`) addressed by id, so a `Var` handle
  keeps naming the same dictionary after the call that created it has
  returned. As in the source, `^^` and `return` never pop `varstack`.
 */
module PyInterp {
  import opened Wrappers
  import opened MachineInt

  /** A function object: index of its `name^` token, body length, name. */
  datatype Func = Func(loc: nat, len: nat, name: string)

  /**
    Values on the evaluation stacks and in scopes. `BoolV` comes from `<=`.
    Floats are kept opaque: the model tracks that a value is a float but not
    which one.
   */
  datatype Value =
    | IntV(i: int)
    | BoolV(b: bool)
    | FloatV
    | FuncV(f: Func)
    | VarV(scope: nat, name: string)
    | LabelV(loc: nat)

  /** An entry of `call_stack`: the index of the call token and whether it was `call_eval`. */
  datatype CallFrame = CallFrame(ret: nat, isEval: bool)

  datatype State = State(
    pc: nat,
    calls: seq<CallFrame>,
    fstack: seq<string>,
    varstack: seq<nat>,
    scopes: seq<map<string, Value>>,
    evals: seq<seq<Value>>,
    funcs: map<string, Func>,
    labels: map<string, map<string, nat>>)

  /** Why a run stops with an exception. */
  datatype Fault =
    | Overrun                       // program[i] past the end of the token list
    | EmptyTokenInDef               // token[-1] on the empty token while scanning a body
    | NestedDef                     // assert(len(call_stack) == 0) at a definition
    | UnknownFunction(name: string)
    | UnknownVariable(name: string)
    | UnknownLabel(name: string)
    | NoFunctionContext             // fstack[-1] at top level
    | NoFrame                       // evalstack[-1] after every frame was closed
    | StackUnderflow                // pop from an empty frame
    | ControlUnderflow              // ^^ or return with no active call
    | NotAFunction                  // assert(type(f) is Func)
    | NotAVariable                  // assert(type(var) is Var)
    | NotAJumpTarget                // dest.loc missing or not an index
    | TypeMismatch                  // operator on a non-numeric value
    | DivisionByZero
    | FloatUnmodelled               // outcome depends on a float's value
    | UnresolvedToken(tok: string)  // the final assert(0)

  /** The interpreter's state before the loop: one global scope, one frame. */
  function Init(): State {
    State(0, [], [], [0], [map[]], [[]], map[], map[])
  }

  predicate ValueOk(v: Value, n: nat) {
    v.VarV? ==> v.scope < n
  }

  /**
    The invariant every reachable state keeps: the call stack and the
    function-name stack have equal depth, `varstack` starts with the global
    scope, and every scope id in use names an existing scope.
   */
  predicate WellFormed(s: State) {
    && |s.calls| == |s.fstack|
    && |s.varstack| >= 1 && s.varstack[0] == 0
    && (forall k :: 0 <= k < |s.varstack| ==> s.varstack[k] < |s.scopes|)
    && (forall k, j :: 0 <= k < |s.evals| && 0 <= j < |s.evals[k]| ==> ValueOk(s.evals[k][j], |s.scopes|))
    && (forall k, x :: 0 <= k < |s.scopes| && x in s.scopes[k] ==> ValueOk(s.scopes[k][x], |s.scopes|))
  }

  lemma InitWellFormed()
    ensures WellFormed(Init())
  {
  }

  /** The existing scopes persist with at least their old bindings; a call adds one fresh scope. */
  predicate ScopesGrow(s: State, s': State) {
    && |s'.scopes| >= |s.scopes|
    && (forall k, x :: 0 <= k < |s.scopes| && x in s.scopes[k] ==> x in s'.scopes[k])
  }

  /**
    What one step may do to the scope store: either nothing structural, or
    (a call) a new empty scope appended to the heap and pushed on `varstack`.
    In neither case is a scope removed from `varstack`, and no binding is
    ever deleted.
   */
  predicate ScopeDiscipline(s: State, s': State) {
    && ScopesGrow(s, s')
    && (|| (s'.varstack == s.varstack && |s'.scopes| == |s.scopes|)
        || (s'.varstack == s.varstack + [|s.scopes|] && |s'.scopes| == |s.scopes| + 1 && s'.scopes[|s.scopes|] == map[]))
  }

  /** `varstack` lists every scope ever created, in creation order: it is never popped. */
  predicate AllScopesStacked(s: State) {
    && |s.varstack| == |s.scopes|
    && (forall k :: 0 <= k < |s.varstack| ==> s.varstack[k] == k)
  }

  // ----- token shapes, tested in the order of the dispatch chain -----

  function LastChar(t: string): char
    requires |t| > 0
  {
    t[|t| - 1]
  }

  /** `name^`: a definition header. */
  predicate IsDefHeader(t: string) {
    t != "^^" && |t| >= 2 && LastChar(t) == '^'
  }

  /** `^name`: a function reference. */
  predicate IsFuncRef(t: string) {
    t != "^^" && |t| >= 2 && t[0] == '^'
  }

  /** `$name$`: declare and reference. */
  predicate IsDeclRef(t: string) {
    |t| >= 3 && t[0] == '$' && LastChar(t) == '$'
  }

  /** `$name`: reference. */
  predicate IsRef(t: string) {
    |t| >= 2 && t[0] == '$'
  }

  /** `name$`: declare. */
  predicate IsDecl(t: string) {
    |t| >= 2 && LastChar(t) == '$'
  }

  /** `:name`: label reference. */
  predicate IsLabelRef(t: string) {
    |t| >= 2 && t[0] == ':'
  }

  /** `name:`: label definition. */
  predicate IsLabelDef(t: string) {
    |t| >= 2 && LastChar(t) == ':'
  }

  function LabelName(t: string): string
    requires IsLabelDef(t)
  {
    t[..|t| - 1]
  }

  const ARITH_CHARS: string := "+-*/%"

  // The non-empty substrings of ARITH_CHARS. The source tests membership of
  // the token in the five-character operator string, which is a substring
  // test, so `+-` and `/%` also take the arithmetic branch.
  const ARITH_TOKENS: set<string> :=
    {"+", "-", "*", "/", "%", "+-", "-*", "*/", "/%", "+-*", "-*/", "*/%", "+-*/", "-*/%", "+-*/%"}

  predicate IsArithToken(t: string) {
    t in ARITH_TOKENS
  }

  /** Every non-empty substring of ARITH_CHARS is in ARITH_TOKENS. */
  lemma SubstringIsArith(i: nat, j: nat)
    requires i < j <= |ARITH_CHARS|
    ensures ARITH_CHARS[i..j] in ARITH_TOKENS
  {
    var t := ARITH_CHARS[i..j];
    assert ARITH_CHARS[0] == '+' && ARITH_CHARS[1] == '-' && ARITH_CHARS[2] == '*';
    assert ARITH_CHARS[3] == '/' && ARITH_CHARS[4] == '%';
    if i == 0 && j == 1 {
      assert |t| == 1 && t[0] == '+';
      assert t == "+";
    } else if i == 0 && j == 2 {
      assert |t| == 2 && t[0] == '+' && t[1] == '-';
      assert t == "+-";
    } else if i == 0 && j == 3 {
      assert |t| == 3 && t[0] == '+' && t[1] == '-' && t[2] == '*';
      assert t == "+-*";
    } else if i == 0 && j == 4 {
      assert |t| == 4 && t[0] == '+' && t[1] == '-' && t[2] == '*' && t[3] == '/';
      assert t == "+-*/";
    } else if i == 0 && j == 5 {
      assert |t| == 5 && t[0] == '+' && t[1] == '-' && t[2] == '*' && t[3] == '/' && t[4] == '%';
      assert t == "+-*/%";
    } else if i == 1 && j == 2 {
      assert |t| == 1 && t[0] == '-';
      assert t == "-";
    } else if i == 1 && j == 3 {
      assert |t| == 2 && t[0] == '-' && t[1] == '*';
      assert t == "-*";
    } else if i == 1 && j == 4 {
      assert |t| == 3 && t[0] == '-' && t[1] == '*' && t[2] == '/';
      assert t == "-*/";
    } else if i == 1 && j == 5 {
      assert |t| == 4 && t[0] == '-' && t[1] == '*' && t[2] == '/' && t[3] == '%';
      assert t == "-*/%";
    } else if i == 2 && j == 3 {
      assert |t| == 1 && t[0] == '*';
      assert t == "*";
    } else if i == 2 && j == 4 {
      assert |t| == 2 && t[0] == '*' && t[1] == '/';
      assert t == "*/";
    } else if i == 2 && j == 5 {
      assert |t| == 3 && t[0] == '*' && t[1] == '/' && t[2] == '%';
      assert t == "*/%";
    } else if i == 3 && j == 4 {
      assert |t| == 1 && t[0] == '/';
      assert t == "/";
    } else if i == 3 && j == 5 {
      assert |t| == 2 && t[0] == '/' && t[1] == '%';
      assert t == "/%";
    } else if i == 4 && j == 5 {
      assert |t| == 1 && t[0] == '%';
      assert t == "%";
    }
  }

  /** Every member of ARITH_TOKENS is a substring of ARITH_CHARS. */
  lemma ArithIsSubstring(t: string)
    requires t in ARITH_TOKENS
    ensures exists i, j :: 0 <= i < j <= |ARITH_CHARS| && ARITH_CHARS[i..j] == t
  {
    if t == "+" { assert ARITH_CHARS[0..1] == t; }
    else if t == "-" { assert ARITH_CHARS[1..2] == t; }
    else if t == "*" { assert ARITH_CHARS[2..3] == t; }
    else if t == "/" { assert ARITH_CHARS[3..4] == t; }
    else if t == "%" { assert ARITH_CHARS[4..5] == t; }
    else if t == "+-" { assert ARITH_CHARS[0..2] == t; }
    else if t == "-*" { assert ARITH_CHARS[1..3] == t; }
    else if t == "*/" { assert ARITH_CHARS[2..4] == t; }
    else if t == "/%" { assert ARITH_CHARS[3..5] == t; }
    else if t == "+-*" { assert ARITH_CHARS[0..3] == t; }
    else if t == "-*/" { assert ARITH_CHARS[1..4] == t; }
    else if t == "*/%" { assert ARITH_CHARS[2..5] == t; }
    else if t == "+-*/" { assert ARITH_CHARS[0..4] == t; }
    else if t == "-*/%" { assert ARITH_CHARS[1..5] == t; }
    else { assert ARITH_CHARS[0..5] == t; }
  }

  /** ARITH_TOKENS is exactly the set of non-empty substrings of ARITH_CHARS. */
  lemma ArithTokensAreSubstrings(t: string)
    ensures IsArithToken(t) <==> t != "" && exists i, j :: 0 <= i <= j <= |ARITH_CHARS| && ARITH_CHARS[i..j] == t
  {
    if IsArithToken(t) {
      ArithIsSubstring(t);
    }
    if t != "" && exists i, j :: 0 <= i <= j <= |ARITH_CHARS| && ARITH_CHARS[i..j] == t {
      var i, j :| 0 <= i <= j <= |ARITH_CHARS| && ARITH_CHARS[i..j] == t;
      SubstringIsArith(i, j);
    }
  }

  // ----- literal syntax accepted by Python's int() and float() -----

  predicate IsDigit(c: char) {
    '0' <= c <= '9'
  }

  /** Digits with single underscores between them, as Python's numeric literals allow. */
  predicate IsDigitPart(s: string) {
    && |s| > 0
    && IsDigit(s[0])
    && (forall k :: 0 < k < |s| ==> IsDigit(s[k]) || (s[k] == '_' && k + 1 < |s| && IsDigit(s[k + 1])))
  }

  predicate IsSign(c: char) {
    c == '+' || c == '-'
  }

  /** `int(token)` succeeds (ASCII digits). */
  predicate IsIntLit(t: string) {
    IsDigitPart(t) || (|t| >= 2 && IsSign(t[0]) && IsDigitPart(t[1..]))
  }

  /** The value of a digit part, skipping underscores. */
  function DigitsValue(s: string): nat
  {
    if |s| == 0 then 0
    else if s[|s| - 1] == '_' then DigitsValue(s[..|s| - 1])
    else 10 * DigitsValue(s[..|s| - 1]) + (if IsDigit(s[|s| - 1]) then s[|s| - 1] as int - '0' as int else 0)
  }

  function IntLitValue(t: string): int
    requires IsIntLit(t)
  {
    if IsDigitPart(t) then DigitsValue(t)
    else if t[0] == '-' then 0 - DigitsValue(t[1..])
    else DigitsValue(t[1..])
  }

  function ToLowerAscii(s: string): (r: string)
    ensures |r| == |s|
  {
    if |s| == 0 then ""
    else [if 'A' <= s[0] <= 'Z' then (s[0] as int + 32) as char else s[0]] + ToLowerAscii(s[1..])
  }

  /** The index of the first character of `s` in `cs`, or `|s|`. */
  function FindAny(s: string, cs: set<char>): (k: nat)
    ensures k <= |s|
    ensures k < |s| ==> s[k] in cs
    ensures forall j :: 0 <= j < k ==> s[j] !in cs
  {
    if |s| == 0 then 0
    else if s[0] in cs then 0
    else 1 + FindAny(s[1..], cs)
  }

  /** Mantissa: `d.`, `d.d`, `.d` or `d`, where `d` is a digit part. */
  predicate IsMantissa(m: string) {
    var dot := FindAny(m, {'.'});
    if dot < |m| then
      var left, right := m[..dot], m[dot + 1..];
      (IsDigitPart(left) && (right == "" || IsDigitPart(right))) || (left == "" && IsDigitPart(right))
    else
      IsDigitPart(m)
  }

  /** An unsigned decimal float: mantissa and optional exponent `e[sign]digits`. */
  predicate IsDecimalFloat(b: string) {
    var e := FindAny(b, {'e', 'E'});
    && IsMantissa(b[..e])
    && (e == |b| || (var x := b[e + 1..]; IsDigitPart(x) || (|x| >= 2 && IsSign(x[0]) && IsDigitPart(x[1..]))))
  }

  /** `float(token)` succeeds. */
  predicate IsFloatLit(t: string) {
    var body := if |t| > 0 && IsSign(t[0]) then t[1..] else t;
    ToLowerAscii(body) in {"inf", "infinity", "nan"} || IsDecimalFloat(body)
  }

  /** `re.match(r"[a-zA-Z_][a-zA-Z0-9_]*", s)`: only the first character matters. */
  predicate IsNameStart(t: string) {
    |t| > 0 && (('a' <= t[0] <= 'z') || ('A' <= t[0] <= 'Z') || t[0] == '_')
  }

  // ----- value operations -----

  /** `bool` is a subclass of `int` in Python. */
  function AsInt(v: Value): Option<int> {
    match v
    case IntV(i) => Some(i)
    case BoolV(b) => Some(if b then 1 else 0)
    case _ => None
  }

  predicate IsNumber(v: Value) {
    v.IntV? || v.BoolV? || v.FloatV?
  }

  /** The Python operator `op` in `+ - * / %` applied to `a` and `b`. */
  function Arith(op: char, a: Value, b: Value): (r: Result<Value, Fault>)
    requires op in ARITH_CHARS
    ensures !IsNumber(a) || !IsNumber(b) ==> r == Err(TypeMismatch)
    ensures r.Ok? ==> r.value.IntV? || r.value.FloatV?
  {
    if !IsNumber(a) || !IsNumber(b) then Err(TypeMismatch)
    else if a.FloatV? || b.FloatV? then
      if op == '/' || op == '%' then Err(FloatUnmodelled) else Ok(FloatV)
    else
      var x, y := AsInt(a).value, AsInt(b).value;
      match op
      case '+' => Ok(IntV(x + y))
      case '-' => Ok(IntV(x - y))
      case '*' => Ok(IntV(x * y))
      case '/' =>
        if y == 0 then Err(DivisionByZero)
        else if a.IntV? && b.IntV? then Ok(IntV(FloorDiv(x, y)))
        else Ok(FloatV)
      case _ => if y == 0 then Err(DivisionByZero) else Ok(IntV(FloorMod(x, y)))
  }

  /** `a <= b`. */
  function LessEq(a: Value, b: Value): (r: Result<Value, Fault>)
    ensures r.Ok? ==> r.value.BoolV?
  {
    if !IsNumber(a) || !IsNumber(b) then Err(TypeMismatch)
    else if a.FloatV? || b.FloatV? then Err(FloatUnmodelled)
    else Ok(BoolV(AsInt(a).value <= AsInt(b).value))
  }

  /** Python truthiness: numbers by value, every object is true. */
  function Truthy(v: Value): Result<bool, Fault> {
    match v
    case IntV(i) => Ok(i != 0)
    case BoolV(b) => Ok(b)
    case FloatV => Err(FloatUnmodelled)
    case _ => Ok(true)
  }

  /** `dest.loc`: labels and functions carry an index; a `Var`'s `loc` is a dict. */
  function JumpTarget(v: Value): Result<nat, Fault> {
    match v
    case LabelV(l) => Ok(l)
    case FuncV(f) => Ok(f.loc)
    case _ => Err(NotAJumpTarget)
  }

  // ----- stack helpers -----

  function TopFrame(s: State): seq<Value>
    requires |s.evals| > 0
  {
    s.evals[|s.evals| - 1]
  }

  /** `s` and `s'` agree on everything except the top evaluation frame. */
  predicate OnlyTopChanged(s: State, s': State) {
    && |s'.evals| == |s.evals| > 0
    && s'.evals[..|s.evals| - 1] == s.evals[..|s.evals| - 1]
    && s' == s.(evals := s'.evals)
  }

  lemma OnlyTopChangedKeepsWellFormed(s: State, s': State)
    requires WellFormed(s) && OnlyTopChanged(s, s')
    requires forall j :: 0 <= j < |TopFrame(s')| ==> ValueOk(TopFrame(s')[j], |s.scopes|)
    ensures WellFormed(s')
  {
    var n := |s.evals|;
    forall k, j | 0 <= k < |s'.evals| && 0 <= j < |s'.evals[k]|
      ensures ValueOk(s'.evals[k][j], |s'.scopes|)
    {
      if k < n - 1 {
        assert s'.evals[k] == s'.evals[..n - 1][k] == s.evals[..n - 1][k] == s.evals[k];
      } else {
        assert s'.evals[k] == TopFrame(s');
      }
    }
  }

  /** `valpush`: appends `v` to the top frame and changes nothing else. */
  function Push(s: State, v: Value): (r: Result<State, Fault>)
    ensures |s.evals| == 0 <==> r == Err(NoFrame)
    ensures r.Ok? ==> OnlyTopChanged(s, r.value) && TopFrame(r.value) == TopFrame(s) + [v]
    ensures r.Ok? && WellFormed(s) && ValueOk(v, |s.scopes|) ==> WellFormed(r.value)
  {
    if |s.evals| == 0 then Err(NoFrame)
    else
      var s' := s.(evals := s.evals[..|s.evals| - 1] + [TopFrame(s) + [v]]);
      assert s'.evals[..|s.evals| - 1] == s.evals[..|s.evals| - 1];
      if WellFormed(s) && ValueOk(v, |s.scopes|) then
        OnlyTopChangedKeepsWellFormed(s, s');
        Ok(s')
      else
        Ok(s')
  }

  /** `valpop`: removes and returns the last value of the top frame, changing nothing else. */
  function Pop(s: State): (r: Result<(Value, State), Fault>)
    ensures |s.evals| == 0 ==> r == Err(NoFrame)
    ensures |s.evals| > 0 && |TopFrame(s)| == 0 ==> r == Err(StackUnderflow)
    ensures r.Ok? ==> OnlyTopChanged(s, r.value.1) && TopFrame(s) == TopFrame(r.value.1) + [r.value.0]
    ensures r.Ok? && WellFormed(s) ==> WellFormed(r.value.1) && ValueOk(r.value.0, |s.scopes|)
  {
    if |s.evals| == 0 then Err(NoFrame)
    else
      var top := TopFrame(s);
      if |top| == 0 then Err(StackUnderflow)
      else
        var s' := s.(evals := s.evals[..|s.evals| - 1] + [top[..|top| - 1]]);
        assert s'.evals[..|s.evals| - 1] == s.evals[..|s.evals| - 1];
        assert top == top[..|top| - 1] + [top[|top| - 1]];
        if WellFormed(s) then
          assert ValueOk(s.evals[|s.evals| - 1][|top| - 1], |s.scopes|);
          OnlyTopChangedKeepsWellFormed(s, s');
          Ok((top[|top| - 1], s'))
        else
          Ok((top[|top| - 1], s'))
  }

  /** The id of `varstack[-1]`. */
  function CurrentScope(s: State): nat
    requires |s.varstack| > 0
  {
    s.varstack[|s.varstack| - 1]
  }

  /** `varstack[-1] if name in varstack[-1] else varstack[0]`. */
  function Resolve(s: State, name: string): (k: nat)
    requires WellFormed(s)
    ensures k < |s.scopes|
    ensures name in s.scopes[CurrentScope(s)] ==> k == CurrentScope(s)
    ensures name !in s.scopes[CurrentScope(s)] ==> k == 0
  {
    if name in s.scopes[CurrentScope(s)] then CurrentScope(s) else s.varstack[0]
  }

  /** `scopes[k][name] = v`: one entry of one scope changes. */
  function Store(s: State, k: nat, name: string, v: Value): (s': State)
    requires k < |s.scopes|
    ensures |s'.scopes| == |s.scopes| && name in s'.scopes[k] && s'.scopes[k][name] == v
    ensures forall k', x :: 0 <= k' < |s.scopes| && x in s.scopes[k'] && (k', x) != (k, name) ==>
      x in s'.scopes[k'] && s'.scopes[k'][x] == s.scopes[k'][x]
    ensures forall k', x :: 0 <= k' < |s.scopes| && x in s'.scopes[k'] ==> x in s.scopes[k'] || (k', x) == (k, name)
    ensures WellFormed(s) && ValueOk(v, |s.scopes|) ==> WellFormed(s')
    ensures s' == s.(scopes := s'.scopes)
  {
    s.(scopes := s.scopes[k := s.scopes[k][name := v]])
  }

  // ----- the definition scan -----

  /**
    The last index in `[lo, hi)` whose token defines label `x`: the entry
    the scan leaves in the label table, since later definitions overwrite.
   */
  function LabelIndex(prog: seq<string>, lo: nat, hi: nat, x: string): (r: Option<nat>)
    requires lo <= hi <= |prog|
    ensures r.Some? ==> lo <= r.value < hi && IsLabelDef(prog[r.value]) && LabelName(prog[r.value]) == x
    ensures r.Some? ==> forall k :: r.value < k < hi ==> !(IsLabelDef(prog[k]) && LabelName(prog[k]) == x)
    ensures r.None? ==> forall k :: lo <= k < hi ==> !(IsLabelDef(prog[k]) && LabelName(prog[k]) == x)
    decreases hi - lo
  {
    if lo == hi then None
    else
      var later := LabelIndex(prog, lo + 1, hi, x);
      if later.Some? then later
      else if IsLabelDef(prog[lo]) && LabelName(prog[lo]) == x then Some(lo)
      else None
  }

  /**
    The scan loop from index `i` (whose token is not `^^`) to the next `^^`,
    collecting labels into `labs`. Returns the index of that `^^`.
   */
  function ScanDef(prog: seq<string>, i: nat, labs: map<string, nat>): (r: Result<(nat, map<string, nat>), Fault>)
    requires i < |prog| && prog[i] != "^^"
    ensures r.Ok? ==> i < r.value.0 < |prog| && prog[r.value.0] == "^^"
    ensures r.Ok? ==> forall k :: i <= k < r.value.0 ==> prog[k] != "^^" && prog[k] != ""
    ensures r.Ok? ==> forall x :: LabelIndex(prog, i, r.value.0, x).Some? ==>
      x in r.value.1 && r.value.1[x] == LabelIndex(prog, i, r.value.0, x).value
    ensures r.Ok? ==> forall x :: LabelIndex(prog, i, r.value.0, x).None? ==>
      (x in r.value.1 <==> x in labs) && (x in labs ==> r.value.1[x] == labs[x])
    decreases |prog| - i
  {
    var t := prog[i];
    if t == "" then Err(EmptyTokenInDef)
    else
      var labs' := if IsLabelDef(t) then labs[LabelName(t) := i] else labs;
      if i + 1 >= |prog| then Err(Overrun)
      else if prog[i + 1] == "^^" then Ok((i + 1, labs'))
      else ScanDef(prog, i + 1, labs')
  }

  // ----- one step -----

  /** The definition branch (etc/flinch.py:93-103), leaving `i` at the closing `^^`. */
  function ExecDef(prog: seq<string>, s: State): (r: Result<State, Fault>)
    requires s.pc < |prog| && prog[s.pc] != "" && IsDefHeader(prog[s.pc])
    ensures r.Ok? ==> r.value == s.(pc := r.value.pc, funcs := r.value.funcs, labels := r.value.labels)
  {
    if |s.calls| != 0 then Err(NestedDef)
    else
      var t := prog[s.pc];
      var name := t[..|t| - 1];
      var (e, labs) :- ScanDef(prog, s.pc, map[]);
      Ok(s.(pc := e, funcs := s.funcs[name := Func(s.pc, e - s.pc, name)], labels := s.labels[name := labs]))
  }

  /** Drops the innermost call from `call_stack` and `fstack` and resumes at its call token. */
  function Unwind(s: State): (s': State)
    requires |s.calls| > 0 && |s.fstack| > 0
    ensures WellFormed(s) ==> WellFormed(s')
  {
    s.(fstack := s.fstack[..|s.fstack| - 1], calls := s.calls[..|s.calls| - 1], pc := s.calls[|s.calls| - 1].ret)
  }

  /** `^^`: leave the function; a `call_eval` gets 0 as its result. */
  function ExecEnd(s: State): (r: Result<State, Fault>)
    requires WellFormed(s)
    ensures r.Ok? ==> WellFormed(r.value) && ScopeDiscipline(s, r.value)
  {
    if |s.fstack| == 0 || |s.calls| == 0 then Err(ControlUnderflow)
    else if s.calls[|s.calls| - 1].isEval then Push(Unwind(s), IntV(0))
    else Ok(Unwind(s))
  }

  /** `return`: pop the result and hand it to a `call_eval`, or drop it. */
  function ExecReturn(s: State): (r: Result<State, Fault>)
    requires WellFormed(s)
    ensures r.Ok? ==> WellFormed(r.value) && ScopeDiscipline(s, r.value)
  {
    var (val, s0) :- Pop(s);
    if |s0.fstack| == 0 || |s0.calls| == 0 then Err(ControlUnderflow)
    else if s0.calls[|s0.calls| - 1].isEval then Push(Unwind(s0), val)
    else Ok(Unwind(s0))
  }

  /** `call` / `call_eval`: `i` becomes the function's header index. */
  function ExecCall(s: State, isEval: bool): (r: Result<State, Fault>)
    requires WellFormed(s)
    ensures r.Ok? ==> WellFormed(r.value) && ScopeDiscipline(s, r.value)
  {
    var (f, s1) :- Pop(s);
    if !f.FuncV? then Err(NotAFunction)
    else
      var s2 := s1.(calls := s1.calls + [CallFrame(s.pc, isEval)],
                    fstack := s1.fstack + [f.f.name],
                    varstack := s1.varstack + [|s1.scopes|],
                    scopes := s1.scopes + [map[]],
                    pc := f.f.loc);
      CallKeepsWellFormed(s1, s2);
      Ok(s2)
  }

  /** `<-`: pop the reference, then the value, and write through the reference. */
  function ExecAssign(s: State): (r: Result<State, Fault>)
    requires WellFormed(s)
    ensures r.Ok? ==> WellFormed(r.value) && ScopeDiscipline(s, r.value)
  {
    var (ref, s1) :- Pop(s);
    var (val, s2) :- Pop(s1);
    if !ref.VarV? then Err(NotAVariable)
    else Ok(Store(s2, ref.scope, ref.name, val))
  }

  /** `if_goto`: pop destination, then condition; the destination is only read when jumping. */
  function ExecIfGoto(s: State): (r: Result<State, Fault>)
    requires WellFormed(s)
    ensures r.Ok? ==> WellFormed(r.value) && ScopeDiscipline(s, r.value)
  {
    var (dest, s1) :- Pop(s);
    var (val, s2) :- Pop(s1);
    var cond :- Truthy(val);
    if cond then
      var l :- JumpTarget(dest);
      Ok(s2.(pc := l))
    else
      Ok(s2)
  }

  /** `goto`. */
  function ExecGoto(s: State): (r: Result<State, Fault>)
    requires WellFormed(s)
    ensures r.Ok? ==> WellFormed(r.value) && ScopeDiscipline(s, r.value)
  {
    var (dest, s1) :- Pop(s);
    var l :- JumpTarget(dest);
    Ok(s1.(pc := l))
  }

  /** The arithmetic branch: pops `b` then `a`; only the five one-character tokens push. */
  function ExecArith(t: string, s: State): (r: Result<State, Fault>)
    requires WellFormed(s)
    ensures r.Ok? ==> WellFormed(r.value) && ScopeDiscipline(s, r.value)
  {
    var (b, s1) :- Pop(s);
    var (a, s2) :- Pop(s1);
    if |t| == 1 && t[0] in ARITH_CHARS then
      var v :- Arith(t[0], a, b);
      Push(s2, v)
    else
      Ok(s2)
  }

  /** `<=`. */
  function ExecLessEq(s: State): (r: Result<State, Fault>)
    requires WellFormed(s)
    ensures r.Ok? ==> WellFormed(r.value) && ScopeDiscipline(s, r.value)
  {
    var (b, s1) :- Pop(s);
    var (a, s2) :- Pop(s1);
    var v :- LessEq(a, b);
    Push(s2, v)
  }

  /** The fallback: integer literal, float literal, or a variable read. */
  function ExecOther(t: string, s: State): (r: Result<State, Fault>)
    requires WellFormed(s)
    ensures r.Ok? ==> WellFormed(r.value) && ScopeDiscipline(s, r.value)
  {
    if IsIntLit(t) then Push(s, IntV(IntLitValue(t)))
    else if IsFloatLit(t) then Push(s, FloatV)
    else if IsNameStart(t) then
      var k := Resolve(s, t);
      if t in s.scopes[k] then Push(s, s.scopes[k][t]) else Err(UnknownVariable(t))
    else Err(UnresolvedToken(t))
  }

  /** `:x`: the label `x` of the function currently executing. */
  function ExecLabelRef(x: string, s: State): (r: Result<State, Fault>)
    requires WellFormed(s)
    ensures r.Ok? ==> WellFormed(r.value) && ScopeDiscipline(s, r.value)
  {
    if |s.fstack| == 0 then Err(NoFunctionContext)
    else
      var f := s.fstack[|s.fstack| - 1];
      if f in s.labels && x in s.labels[f] then Push(s, LabelV(s.labels[f][x])) else Err(UnknownLabel(x))
  }

  /** Which branch of the dispatch chain a token takes, with the names it carries. */
  datatype Kind =
    | KDef
    | KFuncRef(fname: string)
    | KEnd
    | KReturn
    | KDeclRef(dname: string)
    | KRef(rname: string)
    | KDecl(vname: string)
    | KLabelRef(lname: string)
    | KLabelDef
    | KCall(isEval: bool)
    | KAssign
    | KOpen
    | KClose
    | KIfGoto
    | KGoto
    | KArith(op: string)
    | KLessEq
    | KOther(tok: string)

  /** The tests of etc/flinch.py:93-168, in the source's order; the first that holds wins. */
  function Classify(t: string): Kind
    requires t != ""
  {
    if IsDefHeader(t) then KDef
    else if IsFuncRef(t) then KFuncRef(t[1..])
    else if t == "^^" then KEnd
    else if t == "return" then KReturn
    else if IsDeclRef(t) then KDeclRef(t[1..|t| - 1])
    else if IsRef(t) then KRef(t[1..])
    else if IsDecl(t) then KDecl(t[..|t| - 1])
    else if IsLabelRef(t) then KLabelRef(t[1..])
    else if IsLabelDef(t) then KLabelDef
    else if t == "call" || t == "call_eval" then KCall(t == "call_eval")
    else if t == "<-" then KAssign
    else if t == "<<<" then KOpen
    else if t == ">>>" then KClose
    else if t == "if_goto" then KIfGoto
    else if t == "goto" then KGoto
    else if IsArithToken(t) then KArith(t)
    else if t == "<=" then KLessEq
    else KOther(t)
  }

  /** The dispatch chain of etc/flinch.py:93-178, before the trailing `i += 1`. */
  function Exec(prog: seq<string>, s: State): (r: Result<State, Fault>)
    requires WellFormed(s)
    requires s.pc < |prog| && prog[s.pc] != ""
    ensures r.Ok? ==> WellFormed(r.value) && ScopeDiscipline(s, r.value)
  {
    match Classify(prog[s.pc])
    case KDef => ExecDef(prog, s)
    case KFuncRef(name) =>
      if name in s.funcs then Push(s, FuncV(s.funcs[name])) else Err(UnknownFunction(name))
    case KEnd => ExecEnd(s)
    case KReturn => ExecReturn(s)
    case KDeclRef(x) => Push(Store(s, CurrentScope(s), x, IntV(0)), VarV(CurrentScope(s), x))
    case KRef(x) => Push(s, VarV(Resolve(s, x), x))
    case KDecl(x) => Ok(Store(s, CurrentScope(s), x, IntV(0)))
    case KLabelRef(x) => ExecLabelRef(x, s)
    case KLabelDef => Ok(s)
    case KCall(isEval) => ExecCall(s, isEval)
    case KAssign => ExecAssign(s)
    case KOpen => Ok(OpenFrame(s))
    case KClose => if |s.evals| == 0 then Err(NoFrame) else Ok(s.(evals := s.evals[..|s.evals| - 1]))
    case KIfGoto => ExecIfGoto(s)
    case KGoto => ExecGoto(s)
    case KArith(op) => ExecArith(op, s)
    case KLessEq => ExecLessEq(s)
    case KOther(t) => ExecOther(t, s)
  }

  /** `push_sentinel`: a fresh empty frame on top. */
  function OpenFrame(s: State): (s': State)
    ensures |s'.evals| == |s.evals| + 1 && TopFrame(s') == [] && s'.evals[..|s.evals|] == s.evals
    ensures WellFormed(s) ==> WellFormed(s')
  {
    var s' := s.(evals := s.evals + [[]]);
    assert s'.evals[..|s.evals|] == s.evals;
    assert forall k :: 0 <= k < |s.evals| ==> s'.evals[k] == s.evals[k];
    s'
  }

  /** One iteration of the loop: dispatch, then `i += 1`. */
  function Step(prog: seq<string>, s: State): (r: Result<State, Fault>)
    requires WellFormed(s)
    requires s.pc < |prog| && prog[s.pc] != ""
    ensures r.Ok? ==> WellFormed(r.value) && ScopeDiscipline(s, r.value)
    ensures r.Ok? && AllScopesStacked(s) ==> AllScopesStacked(r.value)
  {
    var s' :- Exec(prog, s);
    Ok(s'.(pc := s'.pc + 1))
  }

  /** How a bounded run ends. */
  datatype Outcome =
    | Finished(final: State)    // reached the empty token
    | Failed(fault: Fault)      // an exception escaped the loop
    | Unfinished(last: State)   // the step budget ran out

  /** `while program[i] != "": ...`, for at most `fuel` iterations. */
  function Run(prog: seq<string>, s: State, fuel: nat): (o: Outcome)
    requires WellFormed(s)
    ensures o.Finished? ==> WellFormed(o.final) && o.final.pc < |prog| && prog[o.final.pc] == ""
    ensures o.Finished? ==> ScopesGrow(s, o.final)
    decreases fuel
  {
    if s.pc >= |prog| then Failed(Overrun)
    else if prog[s.pc] == "" then Finished(s)
    else if fuel == 0 then Unfinished(s)
    else
      match Step(prog, s)
      case Err(f) => Failed(f)
      case Ok(s') => Run(prog, s', fuel - 1)
  }

  lemma CallKeepsWellFormed(s1: State, s2: State)
    requires WellFormed(s1)
    requires exists fr: CallFrame, name: string, pc: nat ::
      s2 == s1.(calls := s1.calls + [fr], fstack := s1.fstack + [name],
                varstack := s1.varstack + [|s1.scopes|], scopes := s1.scopes + [map[]], pc := pc)
    ensures WellFormed(s2)
  {
    var n := |s1.scopes|;
    assert s2.evals == s1.evals;
    forall k, x | 0 <= k < |s2.scopes| && x in s2.scopes[k]
      ensures ValueOk(s2.scopes[k][x], |s2.scopes|)
    {
      assert k < n;
      assert s2.scopes[k] == s1.scopes[k];
    }
    assert forall k :: 0 <= k < |s1.varstack| ==> s2.varstack[k] == s1.varstack[k];
  }
}
