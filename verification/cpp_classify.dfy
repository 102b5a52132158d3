/**
  The classification loop of flinch.cpp's `load_program` (flinch.cpp:477-607):
  each token text becomes a `Token`, names are interned, and variables are
  resolved at compile time against a stack of declaration lists, one per
  open function definition on top of the top-level list.

  The loop is a left fold over the token texts, so the state after a prefix
  of the texts is the fold of that prefix. `isfloat` (which calls `stod`)
  is a parameter; a double literal becomes a `Double` token whose value the
  model does not keep.
 */
module CppClassify {
  import opened Wrappers
  import opened Tokens
  import TokenLog
  import IntLiteral
  import opened MachineInt

  /** What the ordered tests of the loop make of a token text, before any table is consulted. */
  datatype Shape =
    | FuncDecS(name: string)
    | FuncLookupS(name: string)
    | FuncEndS
    | ReturnS
    | DeclLookupS(name: string)
    | DeclS(name: string)
    | LookupS(name: string)
    | LabelUseS(name: string)
    | LabelDecS(name: string)
    | TrivialS(kind: Kind)
    | StrLitS(body: string)
    | StrRefS(body: string)
    | BuiltinS(name: string)
    /** An integer, a double, a bare variable name, or an invalid token. */
    | LiteralS

  /** The `trivial_ops` table. */
  function TrivialOp(t: string): (r: Option<Kind>)
    ensures r.Some? ==> !UsesLabel(r.value) && r.value != Exit
  {
    match t
    case "call" => Some(Call)
    case "call_eval" => Some(CallEval)
    case "if_goto" => Some(IfGoto)
    case "goto" => Some(Goto)
    case "inc_goto_until" => Some(ForLoop)
    case "<-" => Some(Assign)
    case "[" => Some(ScopeOpen)
    case "]~" => Some(ScopeClose)
    case "]" => Some(ArrayBuild)
    case "+" => Some(Bin(ArithOp(Add)))
    case "-" => Some(Bin(ArithOp(Sub)))
    case "*" => Some(Bin(ArithOp(Mul)))
    case "/" => Some(Bin(ArithOp(Div)))
    case "%" => Some(Bin(ArithOp(Mod)))
    case "+=" => Some(OpAssign(Add))
    case "-=" => Some(OpAssign(Sub))
    case "*=" => Some(OpAssign(Mul))
    case "/=" => Some(OpAssign(Div))
    case "%=" => Some(OpAssign(Mod))
    case "&" => Some(Bin(And))
    case "|" => Some(Bin(Or))
    case "^" => Some(Bin(Xor))
    case "<<" => Some(Bin(Shl))
    case ">>" => Some(Bin(Shr))
    case "and" => Some(Bin(BoolAnd))
    case "or" => Some(Bin(BoolOr))
    case "==" => Some(Bin(CmpOp(EQ)))
    case "!=" => Some(Bin(CmpOp(NE)))
    case "<=" => Some(Bin(CmpOp(LE)))
    case ">=" => Some(Bin(CmpOp(GE)))
    case "<" => Some(Bin(CmpOp(LT)))
    case ">" => Some(Bin(CmpOp(GT)))
    case "::" => Some(Clone)
    case "@" => Some(ArrayIndex)
    case "@?" => Some(ArrayLen)
    case "@?-" => Some(ArrayLenMinusOne)
    case "@+" => Some(ArrayPushIn)
    case "@-" => Some(ArrayPopOut)
    case _ => None
  }

  /** The tests of the classification loop, in the order the source makes them. */
  function ShapeOf(t: string): Shape
    requires |t| > 0
  {
    var last := t[|t| - 1];
    if t != "^^" && last == '^' && |t| >= 2 then FuncDecS(t[..|t| - 1])
    else if t != "^^" && t[0] == '^' && |t| >= 2 then FuncLookupS(t[1..])
    else if t == "^^" then FuncEndS
    else if t == "return" then ReturnS
    else if t[0] == '$' && last == '$' && |t| >= 3 then DeclLookupS(t[1..|t| - 1])
    else if last == '$' && |t| >= 2 then DeclS(t[..|t| - 1])
    else if t[0] == '$' && |t| >= 2 then LookupS(t[1..])
    else if t[0] == ':' && |t| >= 2 && t != "::" then LabelUseS(t[1..])
    else if last == ':' && |t| >= 2 && t != "::" then LabelDecS(t[..|t| - 1])
    else if TrivialOp(t).Some? then TrivialS(TrivialOp(t).value)
    else if |t| >= 2 && t[0] == DQuote && last == DQuote then StrLitS(t[1..|t| - 1])
    else if |t| >= 3 && t[0] == DQuote && last == '&' then StrRefS(t[1..|t| - 2])
    else if |t| >= 2 && t[0] == '!' then BuiltinS(t[1..])
    else LiteralS
  }

  // ----- the declaration stack -----

  /** `var_defs`: the top-level list, then one list per open function definition. */
  type Scopes = seq<seq<string>>

  /**
    What a token does to `var_defs`: `name^` pushes an empty list, `^^`
    pops one, and a declaration appends to the innermost list. Popping or
    appending to an empty stack is undefined behaviour.
   */
  function ScopeStep(s: Scopes, sh: Shape): (r: Result<Scopes, Fault>)
    ensures r.Err? ==> |s| == 0 && r.error.Undefined?
    ensures r.Ok? && sh.FuncDecS? ==> r.value == s + [[]]
    ensures r.Ok? && sh.FuncEndS? ==> |s| > 0 && r.value == s[..|s| - 1]
    ensures r.Ok? && (sh.DeclS? || sh.DeclLookupS?) ==>
              |s| > 0 && |r.value| == |s| && r.value[..|s| - 1] == s[..|s| - 1] && r.value[|s| - 1] == s[|s| - 1] + [sh.name]
    ensures r.Ok? && !(sh.FuncDecS? || sh.FuncEndS? || sh.DeclS? || sh.DeclLookupS?) ==> r.value == s
  {
    match sh
    case FuncDecS(_) => Ok(s + [[]])
    case FuncEndS => if |s| == 0 then Err(Undefined(PopOfEmpty)) else Ok(s[..|s| - 1])
    case DeclLookupS(x) => AppendDecl(s, x)
    case DeclS(x) => AppendDecl(s, x)
    case _ => Ok(s)
  }

  function AppendDecl(s: Scopes, x: string): (r: Result<Scopes, Fault>)
    ensures r.Err? <==> |s| == 0
  {
    if |s| == 0 then Err(Undefined(BackOfEmpty))
    else Ok(s[..|s| - 1] + [s[|s| - 1] + [x]])
  }

  /** `var_defs` after the tokens of `sh`, folded from the left. */
  function ScopesAfter(sh: seq<Shape>): (r: Result<Scopes, Fault>)
    decreases |sh|
  {
    if |sh| == 0 then Ok([[]])
    else
      var s :- ScopesAfter(sh[..|sh| - 1]);
      ScopeStep(s, sh[|sh| - 1])
  }

  /**
    The reference definition, read backwards from the end of `sh`: the
    declarations of the `d`-th enclosing open definition (0 is the
    innermost; past the outermost is the top level), skipping `c` closed
    definitions that are still being walked over.
   */
  function Level(sh: seq<Shape>, d: nat, c: nat): seq<string>
    decreases |sh|
  {
    if |sh| == 0 then []
    else
      var init, last := sh[..|sh| - 1], sh[|sh| - 1];
      match last
      case FuncEndS => Level(init, d, c + 1)
      case FuncDecS(_) =>
        if c > 0 then Level(init, d, c - 1)
        else if d == 0 then []
        else Level(init, d - 1, 0)
      case DeclLookupS(x) => if d == 0 && c == 0 then Level(init, 0, 0) + [x] else Level(init, d, c)
      case DeclS(x) => if d == 0 && c == 0 then Level(init, 0, 0) + [x] else Level(init, d, c)
      case _ => Level(init, d, c)
  }

  /** The number of `name^` minus the number of `^^`. */
  function OpenCount(sh: seq<Shape>): int
    decreases |sh|
  {
    if |sh| == 0 then 0
    else OpenCount(sh[..|sh| - 1]) + (if sh[|sh| - 1].FuncDecS? then 1 else if sh[|sh| - 1].FuncEndS? then -1 else 0)
  }

  /** Closing one walked-over definition is the same as passing one more open one. */
  lemma {:induction false} LevelShift(sh: seq<Shape>, d: nat, c: nat)
    ensures Level(sh, d, c + 1) == Level(sh, d + 1, c)
    decreases |sh|
  {
    if |sh| > 0 {
      var init, last := sh[..|sh| - 1], sh[|sh| - 1];
      match last
      case FuncEndS => LevelShift(init, d, c + 1);
      case FuncDecS(_) =>
        if c > 0 {
          LevelShift(init, d, c - 1);
        }
      case DeclLookupS(x) => LevelShift(init, d, c);
      case DeclS(x) => LevelShift(init, d, c);
      case _ => LevelShift(init, d, c);
    }
  }

  /**
    The declaration stack the loop keeps is the backward reading: its
    `d`-th list from the top holds the declarations of the `d`-th enclosing
    open definition, and it has one list more than there are open
    definitions.
   */
  lemma {:induction false} ScopesAreLevels(sh: seq<Shape>)
    requires ScopesAfter(sh).Ok?
    ensures |ScopesAfter(sh).value| == OpenCount(sh) + 1
    ensures forall d :: 0 <= d < |ScopesAfter(sh).value| ==>
              ScopesAfter(sh).value[|ScopesAfter(sh).value| - 1 - d] == Level(sh, d, 0)
    decreases |sh|
  {
    if |sh| > 0 {
      var init, last := sh[..|sh| - 1], sh[|sh| - 1];
      ScopesAreLevels(init);
      var s := ScopesAfter(init).value;
      var s2 := ScopesAfter(sh).value;
      assert s2 == ScopeStep(s, last).value;
      forall d | 0 <= d < |s2|
        ensures s2[|s2| - 1 - d] == Level(sh, d, 0)
      {
        StepLevel(init, last, s, s2, d);
      }
    }
  }

  /** The innermost and the outermost list of the declaration stack. */
  lemma ScopeEnds(sh: seq<Shape>)
    requires ScopesAfter(sh).Ok?
    ensures var s := ScopesAfter(sh).value;
            |s| == OpenCount(sh) + 1
            && (|s| > 0 ==> s[|s| - 1] == Level(sh, 0, 0) && s[0] == Level(sh, |s| - 1, 0))
  {
    var s := ScopesAfter(sh).value;
    ScopesAreLevels(sh);
    if |s| > 0 {
      var top := |s| - 1;
      assert s[|s| - 1 - 0] == Level(sh, 0, 0);
      assert s[|s| - 1 - top] == Level(sh, top, 0);
    }
  }

  /** One step of `ScopesAreLevels`, for one list of the stack. */
  lemma StepLevel(init: seq<Shape>, last: Shape, s: Scopes, s2: Scopes, d: nat)
    requires forall d :: 0 <= d < |s| ==> s[|s| - 1 - d] == Level(init, d, 0)
    requires ScopeStep(s, last) == Ok(s2) && d < |s2|
    ensures s2[|s2| - 1 - d] == Level(init + [last], d, 0)
  {
    var sh := init + [last];
    assert sh[..|sh| - 1] == init && sh[|sh| - 1] == last;
    match last
    case FuncEndS =>
      LevelShift(init, d, 0);
    case FuncDecS(_) =>
      if d > 0 {
        assert s2[|s2| - 1 - d] == s[|s| - 1 - (d - 1)];
      }
    case DeclLookupS(x) =>
      if d > 0 {
        assert s2[|s2| - 1 - d] == s2[..|s| - 1][|s| - 1 - d];
      }
    case DeclS(x) =>
      if d > 0 {
        assert s2[|s2| - 1 - d] == s2[..|s| - 1][|s| - 1 - d];
      }
    case _ =>
  }

  // ----- classification -----

  /** The interned tables `load_program` fills. */
  datatype Tables = Tables(
    labels: seq<string>,
    funcNames: seq<string>,
    varNames: seq<string>,
    ints: seq<Int64>,
    strVals: seq<seq<Int64>>,
    strRefs: seq<seq<Int64>>)

  /** The tables once `get_token_func_num` of the empty string has reserved function name 0. */
  const INITIAL_TABLES: Tables := Tables([], [""], [], [], [], [])

  datatype FrontState = FrontState(scopes: Scopes, tables: Tables, program: seq<Token>)

  const INITIAL_STATE: FrontState := FrontState([[]], INITIAL_TABLES, [])

  /** A `char` of the token, widened to `int64_t` (C `char` is signed). */
  function SignedByte(c: char): Int64 {
    if c as int >= 128 then c as int - 256 else c as int
  }

  function Bytes(s: string): (r: seq<Int64>)
    ensures |r| == |s|
    ensures forall k :: 0 <= k < |s| ==> r[k] == SignedByte(s[k])
  {
    seq(|s|, k requires 0 <= k < |s| => SignedByte(s[k]))
  }

  predicate IsAlpha(c: char) {
    'a' <= c <= 'z' || 'A' <= c <= 'Z'
  }

  /** `isname`: a letter or `_`, then letters, digits or `_`. */
  predicate IsName(t: string) {
    |t| > 0 && (IsAlpha(t[0]) || t[0] == '_')
    && forall k :: 1 <= k < |t| ==> IsAlpha(t[k]) || IntLiteral.IsDigit(t[k]) || t[k] == '_'
  }

  /**
    `var_is_local` then `var_is_global`: the innermost list when a function
    is open, else the top-level list, else the "Undefined variable"
    exception.
   */
  function LookupKind(s: Scopes, x: string, local: Kind, global: Kind): (r: Result<Kind, Fault>)
    requires local != global
    ensures r.Err? && r.error.Undefined? <==> |s| == 0
    ensures r == Ok(local) <==> |s| > 1 && x in s[|s| - 1]
    ensures r == Ok(global) <==> |s| > 0 && !(|s| > 1 && x in s[|s| - 1]) && x in s[0]
    ensures r.Err? && r.error.Thrown? <==> |s| > 0 && !(|s| > 1 && x in s[|s| - 1]) && x !in s[0]
    ensures r.Ok? ==> r.value == local || r.value == global
  {
    if |s| == 0 then Err(Undefined(BackOfEmpty))
    else if |s| > 1 && x in s[|s| - 1] then Ok(local)
    else if x in s[0] then Ok(global)
    else Err(Thrown(UndefinedVariable))
  }

  /** The token an integer literal becomes. */
  function IntToken(l: IntLiteral.Lit): Token {
    match l
    case Inline(n) => Make(IntegerInline, n)
    case BigDec(n) => Make(IntegerInlineBigDec, n)
    case BigBin(n) => Make(IntegerInlineBigBin, n)
    case Table(n) => Make(Integer, n)
  }

  /** The token the final `else` of the loop makes of `t`, and the tables after it. */
  function LiteralToken(isFloat: string -> bool, t: string, s: Scopes, tabs: Tables): (r: Result<(Token, Tables), Fault>)
  {
    if IntLiteral.IsIntToken(t) then
      match IntLiteral.Stoll(t)
      case Err(_) => Err(Thrown(Stoll))
      case Ok(num) =>
        var (l, ints) := IntLiteral.Encode(tabs.ints, num);
        Ok((IntToken(l), tabs.(ints := ints)))
    else if isFloat(t) then Ok((Make(Double, 0), tabs))
    else if IsName(t) then
      var (vs, n) := TokenLog.Intern(tabs.varNames, t);
      var k :- LookupKind(s, t, LocalVar, GlobalVar);
      Ok((Make(k, n), tabs.(varNames := vs)))
    else Err(Thrown(InvalidToken))
  }

  /** A variable use: local or global by the declaration stack, unknown names rejected. */
  function LookupToken(x: string, scopes: Scopes, tabs: Tables): (r: Result<(Token, Tables), Fault>)
    ensures r.Ok? <==> LookupKind(scopes, x, LocalVarLookup, GlobalVarLookup).Ok?
    ensures r.Ok? ==> r.value.0.kind == LookupKind(scopes, x, LocalVarLookup, GlobalVarLookup).value
    ensures r.Ok? ==> r.value.0.n == TokenLog.Intern(tabs.varNames, x).1
  {
    var (vs, n) := TokenLog.Intern(tabs.varNames, x);
    var k :- LookupKind(scopes, x, LocalVarLookup, GlobalVarLookup);
    Ok((Make(k, n), tabs.(varNames := vs)))
  }

  /** `print` and `printstr` are builtins 0 and 1; any other name is rejected. */
  function BuiltinToken(x: string, tabs: Tables): (r: Result<(Token, Tables), Fault>)
    ensures r.Ok? <==> x == "print" || x == "printstr"
    ensures r.Ok? ==> r.value.0.kind == BuiltinCall && r.value.1 == tabs
    ensures r.Ok? ==> (r.value.0.n == 0 <==> x == "print")
  {
    if x == "print" then Ok((Make(BuiltinCall, 0), tabs))
    else if x == "printstr" then Ok((Make(BuiltinCall, 1), tabs))
    else Err(Thrown(UnknownBuiltin))
  }

  /** The token for the text `t` of shape `sh`, given the declaration stack after it. */
  function TokenFor(isFloat: string -> bool, t: string, sh: Shape, scopes: Scopes, tabs: Tables): (r: Result<(Token, Tables), Fault>)
    ensures r.Ok? ==> r.value.0.kind != Exit
    ensures sh.LookupS? ==> r == LookupToken(sh.name, scopes, tabs)
  {
    match sh
    case FuncDecS(x) =>
      var (fs, n) := TokenLog.Intern(tabs.funcNames, x);
      Ok((Make(FuncDec, n), tabs.(funcNames := fs)))
    case FuncLookupS(x) =>
      var (fs, n) := TokenLog.Intern(tabs.funcNames, x);
      Ok((Make(FuncLookup, n), tabs.(funcNames := fs)))
    case FuncEndS => Ok((Make(FuncEnd, 0), tabs))
    case ReturnS => Ok((Make(Return, 0), tabs))
    case DeclLookupS(x) =>
      var (vs, n) := TokenLog.Intern(tabs.varNames, x);
      Ok((Make(if |scopes| > 1 then LocalVarDecLookup else GlobalVarDecLookup, n), tabs.(varNames := vs)))
    case DeclS(x) =>
      var (vs, n) := TokenLog.Intern(tabs.varNames, x);
      Ok((Make(if |scopes| > 1 then LocalVarDec else GlobalVarDec, n), tabs.(varNames := vs)))
    case LookupS(x) => LookupToken(x, scopes, tabs)
    case LabelUseS(x) =>
      var (ls, n) := TokenLog.Intern(tabs.labels, x);
      Ok((Make(LabelLookup, n), tabs.(labels := ls)))
    case LabelDecS(x) =>
      var (ls, n) := TokenLog.Intern(tabs.labels, x);
      Ok((Make(LabelDec, n), tabs.(labels := ls)))
    case TrivialS(k) => if k == Exit then Err(Undefined(NotTrivialOp)) else Ok((Make(k, 0), tabs))
    case StrLitS(body) =>
      var (vals, n) := TokenLog.Intern(tabs.strVals, Bytes(body));
      Ok((Make(StringLiteral, n), tabs.(strVals := vals)))
    case StrRefS(body) =>
      Ok((Make(StringLitReference, |tabs.strRefs|), tabs.(strRefs := tabs.strRefs + [Bytes(body)])))
    case BuiltinS(x) => BuiltinToken(x, tabs)
    case LiteralS => LiteralToken(isFloat, t, scopes, tabs)
  }

  /** One iteration of the loop: the token for `t`, appended to the program. */
  function Classify(isFloat: string -> bool, t: string, st: FrontState): (r: Result<FrontState, Fault>)
    requires |t| > 0
    ensures r.Ok? ==> ScopeStep(st.scopes, ShapeOf(t)) == Ok(r.value.scopes)
    ensures r.Ok? ==> |r.value.program| == |st.program| + 1
    ensures r.Ok? ==> r.value.program == st.program + [r.value.program[|st.program|]]
    ensures r.Ok? ==> r.value.program[|st.program|].kind != Exit
  {
    var sh := ShapeOf(t);
    var scopes :- ScopeStep(st.scopes, sh);
    var (tok, tabs) :- TokenFor(isFloat, t, sh, scopes, st.tables);
    Ok(FrontState(scopes, tabs, st.program + [tok]))
  }

  /** The texts the loop visits: it stops at the first empty text. */
  function UntilEmpty(texts: seq<string>): (r: seq<string>)
    ensures |r| <= |texts| && r == texts[..|r|]
    ensures forall k :: 0 <= k < |r| ==> |r[k]| > 0
    ensures |r| < |texts| ==> texts[|r|] == ""
  {
    if |texts| == 0 || texts[0] == "" then []
    else [texts[0]] + UntilEmpty(texts[1..])
  }

  /** The shapes of a list of non-empty texts. */
  function Shapes(texts: seq<string>): (r: seq<Shape>)
    requires forall k :: 0 <= k < |texts| ==> |texts[k]| > 0
    ensures |r| == |texts|
    ensures forall k :: 0 <= k < |texts| ==> r[k] == ShapeOf(texts[k])
  {
    seq(|texts|, k requires 0 <= k < |texts| => ShapeOf(texts[k]))
  }

  /** The state after classifying `texts`, folded from the left. */
  function ClassifyAll(isFloat: string -> bool, texts: seq<string>): (r: Result<FrontState, Fault>)
    requires forall k :: 0 <= k < |texts| ==> |texts[k]| > 0
    ensures r.Ok? ==> |r.value.program| == |texts|
    ensures r.Ok? ==> forall k :: 0 <= k < |texts| ==> r.value.program[k].kind != Exit
    decreases |texts|
  {
    if |texts| == 0 then Ok(INITIAL_STATE)
    else
      var st :- ClassifyAll(isFloat, texts[..|texts| - 1]);
      Classify(isFloat, texts[|texts| - 1], st)
  }

  /** The declaration stack of the loop is the fold of `ScopeStep`. */
  lemma {:induction false} ClassifyScopes(isFloat: string -> bool, texts: seq<string>)
    requires forall k :: 0 <= k < |texts| ==> |texts[k]| > 0
    requires ClassifyAll(isFloat, texts).Ok?
    ensures ScopesAfter(Shapes(texts)) == Ok(ClassifyAll(isFloat, texts).value.scopes)
    decreases |texts|
  {
    if |texts| > 0 {
      var init := texts[..|texts| - 1];
      var sh := Shapes(texts);
      ClassifyScopes(isFloat, init);
      var st := ClassifyAll(isFloat, init).value;
      assert sh[..|texts| - 1] == Shapes(init);
      assert ScopesAfter(sh) == ScopeStep(st.scopes, ShapeOf(texts[|texts| - 1]));
    }
  }

  /** Earlier tokens are never rewritten by later iterations. */
  lemma {:induction false} ClassifyPrefix(isFloat: string -> bool, texts: seq<string>, k: nat)
    requires forall j :: 0 <= j < |texts| ==> |texts[j]| > 0
    requires k <= |texts| && ClassifyAll(isFloat, texts).Ok?
    ensures ClassifyAll(isFloat, texts[..k]).Ok?
    ensures ClassifyAll(isFloat, texts).value.program[..k] == ClassifyAll(isFloat, texts[..k]).value.program
    decreases |texts|
  {
    if k < |texts| {
      var init := texts[..|texts| - 1];
      var p := ClassifyAll(isFloat, texts).value.program;
      ClassifyLast(isFloat, texts);
      ClassifyPrefix(isFloat, init, k);
      assert init[..k] == texts[..k];
      assert p[..k] == p[..|init|][..k];
    } else {
      assert texts[..k] == texts;
    }
  }

  /** The last iteration only appends. */
  lemma ClassifyLast(isFloat: string -> bool, texts: seq<string>)
    requires forall j :: 0 <= j < |texts| ==> |texts[j]| > 0
    requires |texts| > 0 && ClassifyAll(isFloat, texts).Ok?
    ensures ClassifyAll(isFloat, texts[..|texts| - 1]).Ok?
    ensures ClassifyAll(isFloat, texts).value.program[..|texts| - 1]
            == ClassifyAll(isFloat, texts[..|texts| - 1]).value.program
  {
    var st := ClassifyAll(isFloat, texts[..|texts| - 1]).value;
    var p := ClassifyAll(isFloat, texts).value.program;
    assert p == st.program + [p[|st.program|]];
  }

  /**
    The reference reading of variable resolution, on the shapes before the
    lookup: a local when a definition is open and declared `x` before this
    point, else a global when the top level declared it, else the
    "Undefined variable" exception; a stack popped empty is undefined.
   */
  function Resolved(sh: seq<Shape>, x: string, local: Kind, global: Kind): Result<Kind, Fault> {
    var open := OpenCount(sh);
    if open < 0 then Err(Undefined(BackOfEmpty))
    else if open > 0 && x in Level(sh, 0, 0) then Ok(local)
    else if x in Level(sh, open, 0) then Ok(global)
    else Err(Thrown(UndefinedVariable))
  }

  /** `LookupKind` on a stack that is the backward reading of `sh` is `Resolved`. */
  lemma LookupLevels(sh: seq<Shape>, s: Scopes, x: string, local: Kind, global: Kind)
    requires local != global
    requires |s| == OpenCount(sh) + 1
    requires |s| > 0 ==> s[|s| - 1] == Level(sh, 0, 0) && s[0] == Level(sh, |s| - 1, 0)
    ensures LookupKind(s, x, local, global) == Resolved(sh, x, local, global)
  {
  }

  /** Looking a name up in the declaration stack after `sh` is `Resolved`. */
  lemma ScopesResolve(sh: seq<Shape>, x: string, local: Kind, global: Kind)
    requires local != global
    requires ScopesAfter(sh).Ok?
    ensures LookupKind(ScopesAfter(sh).value, x, local, global) == Resolved(sh, x, local, global)
  {
    ScopeEnds(sh);
    LookupLevels(sh, ScopesAfter(sh).value, x, local, global);
  }

  /**
    A `$x` token compiles to the kind `Resolved` gives for the tokens
    before it, or fails the way `Resolved` says.
   */
  lemma LookupResolution(isFloat: string -> bool, texts: seq<string>, t: string)
    requires forall j :: 0 <= j < |texts| ==> |texts[j]| > 0
    requires ClassifyAll(isFloat, texts).Ok?
    requires |t| > 0 && ShapeOf(t).LookupS?
    ensures var r := Classify(isFloat, t, ClassifyAll(isFloat, texts).value);
      var want := Resolved(Shapes(texts), ShapeOf(t).name, LocalVarLookup, GlobalVarLookup);
      && (r.Ok? <==> want.Ok?)
      && (r.Ok? ==> r.value.program[|texts|].kind == want.value)
  {
    var sh := Shapes(texts);
    var st := ClassifyAll(isFloat, texts).value;
    ClassifyScopes(isFloat, texts);
    ScopesResolve(sh, ShapeOf(t).name, LocalVarLookup, GlobalVarLookup);
    assert ScopeStep(st.scopes, ShapeOf(t)) == Ok(st.scopes);
  }
}
