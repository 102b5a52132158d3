/**
  The classification loop of flinch.hpp's `load_program`
  (flinch.hpp:523-669). Unlike flinch.cpp's loop it is not a fold over a
  fixed list: a `(` text runs the shunting-yard rewrite on the texts still
  ahead and the loop looks at the same position again, and the texts `((`,
  `))` and `;` produce no token and only drop an entry of `lines`.

  `stod` (through `isfloat`) and `builtins_lookup` are parameters: the
  first gives the bit pattern of the parsed `double`, the second the index
  of a builtin. Token fields are `iword_t` (`uint32_t`).
 */
module HppClassify {
  import opened Wrappers
  import opened Tokens
  import TokenLog
  import IntLiteral
  import opened MachineInt
  import C = CppClassify
  import ShuntingYard
  import ShuntingYardProps

  /** What the ordered tests of the loop make of a text that is neither `(` nor a skipped text. */
  datatype Shape =
    | FuncDecS(name: string)
    | FuncCallS(name: string)
    | FuncLookupS(name: string)
    | FuncEndS
    | ReturnS
    | DeclLookupS(name: string)
    | DeclS(name: string)
    | LookupS(name: string)
    | LabelUseS(name: string)
    | LabelDecS(name: string)
    | TrivialS(kind: Kind)
    | StrLitS(body: string)
    | StrRefS(body: string)
    | BuiltinS(name: string)
    | CharS
    /** An integer, a double, a bare variable name, or an invalid token. */
    | LiteralS

  /** The `trivial_ops` table of flinch.hpp. */
  function TrivialOp(t: string): (r: Option<Kind>)
    ensures r.Some? ==> !UsesLabel(r.value) && r.value != Exit
  {
    match t
    case "call" => Some(Call)
    case "if_goto" => Some(IfGoto)
    case "goto" => Some(Goto)
    case "inc_goto_until" => Some(ForLoop)
    case "punt" => Some(Punt)
    case "punt_n" => Some(PuntN)
    case "->" => Some(Assign)
    case "[" => Some(ScopeOpen)
    case "]~" => Some(ScopeClose)
    case "]" => Some(ArrayBuild)
    case "[]" => Some(ArrayEmptyLit)
    case "+" => Some(Bin(ArithOp(Add)))
    case "-" => Some(Bin(ArithOp(Sub)))
    case "*" => Some(Bin(ArithOp(Mul)))
    case "/" => Some(Bin(ArithOp(Div)))
    case "%" => Some(Bin(ArithOp(Mod)))
    case "+=" => Some(OpAssign(Add))
    case "-=" => Some(OpAssign(Sub))
    case "*=" => Some(OpAssign(Mul))
    case "/=" => Some(OpAssign(Div))
    case "%=" => Some(OpAssign(Mod))
    case "&" => Some(Bin(And))
    case "|" => Some(Bin(Or))
    case "^" => Some(Bin(Xor))
    case "<<" => Some(Bin(Shl))
    case ">>" => Some(Bin(Shr))
    case "neg" => Some(Unary(Neg))
    case "~" => Some(Unary(BitNot))
    case "!" => Some(Unary(BoolNot))
    case "and" => Some(Bin(BoolAnd))
    case "or" => Some(Bin(BoolOr))
    case "==" => Some(Bin(CmpOp(EQ)))
    case "!=" => Some(Bin(CmpOp(NE)))
    case "<=" => Some(Bin(CmpOp(LE)))
    case ">=" => Some(Bin(CmpOp(GE)))
    case "<" => Some(Bin(CmpOp(LT)))
    case ">" => Some(Bin(CmpOp(GT)))
    case "::" => Some(Clone)
    case "::!" => Some(CloneDeep)
    case "@" => Some(ArrayIndex)
    case "@?" => Some(ArrayLen)
    case "@?-" => Some(ArrayLenMinusOne)
    case "@+" => Some(ArrayPushIn)
    case "@-" => Some(ArrayPopOut)
    case "@++" => Some(ArrayPushBack)
    case "@--" => Some(ArrayPopBack)
    case "@@" => Some(ArrayConcat)
    case "@~" => Some(ArrayDelete)
    case _ => None
  }

  /** The texts the loop steps over without emitting a token. */
  predicate IsSkip(t: string) {
    t == "((" || t == "))" || t == ";"
  }

  /** A text the loop turns into one token. */
  predicate Classified(t: string) {
    |t| > 0 && t != "(" && !IsSkip(t)
  }

  /** The tests of the loop after `(` and the skipped texts, in the order the source makes them. */
  function ShapeOf(t: string): (r: Shape)
    requires |t| > 0
    ensures r.CharS? ==> |t| == 3 || |t| == 4
  {
    var last := t[|t| - 1];
    if t != "^^" && |t| >= 2 && last == '^' then FuncDecS(t[..|t| - 1])
    else if |t| >= 2 && t[0] == '.' then FuncCallS(t[1..])
    else if t != "^^" && |t| >= 2 && t[0] == '^' then FuncLookupS(t[1..])
    else if t == "^^" then FuncEndS
    else if t == "return" then ReturnS
    else if t[0] == '$' && last == '$' && |t| >= 3 then DeclLookupS(t[1..|t| - 1])
    else if last == '$' && |t| >= 2 then DeclS(t[..|t| - 1])
    else if t[0] == '$' && |t| >= 2 then LookupS(t[1..])
    else if t[0] == ':' && |t| >= 2 && t != "::" && t != "::!" then LabelUseS(t[1..])
    else if last == ':' && |t| >= 2 && t != "::" && t != "::!" then LabelDecS(t[..|t| - 1])
    else if TrivialOp(t).Some? then TrivialS(TrivialOp(t).value)
    else if |t| >= 3 && t[0] == DQuote && last == '*' then StrLitS(t[1..|t| - 2])
    else if |t| >= 2 && t[0] == DQuote && last == DQuote then StrRefS(t[1..|t| - 1])
    else if |t| >= 2 && t[0] == '!' then BuiltinS(t[1..])
    else if (|t| == 3 || |t| == 4) && t[0] == Apostrophe && last == Apostrophe then CharS
    else LiteralS
  }

  /**
    What a shape does to `var_defs`, in the terms of flinch.cpp's loop,
    whose declaration stack works the same way: `name^` pushes a list,
    `^^` pops one, a declaration appends to the innermost list.
   */
  function ScopeShape(sh: Shape): (r: C.Shape)
    ensures r.FuncDecS? || r.FuncEndS? || r.DeclS? || r.DeclLookupS? || r.LiteralS?
  {
    match sh
    case FuncDecS(x) => C.FuncDecS(x)
    case FuncEndS => C.FuncEndS
    case DeclLookupS(x) => C.DeclLookupS(x)
    case DeclS(x) => C.DeclS(x)
    case _ => C.LiteralS
  }

  // ----- tokens -----

  /** The interned tables flinch.hpp's `load_program` fills. */
  datatype Tables = Tables(
    labels: seq<string>,
    funcNames: seq<string>,
    varNames: seq<string>,
    ints: seq<Int64>,
    doubles: seq<nat>,
    strVals: seq<seq<Int64>>,
    strRefs: seq<seq<Int64>>)

  /** The tables once `get_token_func_num("")` has reserved function name 0. */
  const INITIAL_TABLES: Tables := Tables([], [""], [], [], [], [], [])

  /** `b` starts with `a`. */
  predicate Grows<T(==)>(a: seq<T>, b: seq<T>) {
    |a| <= |b| && b[..|a|] == a
  }

  /** Every table of `b` starts with the table of `a`: entries are only ever appended. */
  predicate Extends(a: Tables, b: Tables) {
    && Grows(a.labels, b.labels) && Grows(a.funcNames, b.funcNames) && Grows(a.varNames, b.varNames)
    && Grows(a.ints, b.ints) && Grows(a.doubles, b.doubles) && Grows(a.strVals, b.strVals) && Grows(a.strRefs, b.strRefs)
  }

  lemma ExtendsSelf(a: Tables)
    ensures Extends(a, a)
  {
  }

  /** What the loop is given from outside: `stod`'s bit pattern (`None` when it throws) and `builtins_lookup`. */
  datatype Env = Env(parseDouble: string -> Option<nat>, builtinNum: string -> Option<nat>)

  /** The value `'x'` or `'\x'` stands for: `\n`, `\r`, `\t` and `\\` are escapes, any other character is itself. */
  function CharValue(t: string): (v: Int64)
    requires |t| == 3 || |t| == 4
  {
    if |t| == 3 then C.SignedByte(t[1])
    else if t[2] == 'n' then 10
    else if t[2] == 'r' then 13
    else if t[2] == 't' then 9
    else if t[2] == Backslash then 92
    else C.SignedByte(t[2])
  }

  /** A character literal: an `IntegerInline` of the character's value, cast to `iword_t`. */
  function CharToken(t: string): (r: Result<Token, Fault>)
    requires |t| == 3 || |t| == 4
    ensures r.Err? <==> |t| == 4 && t[1] != Backslash
    ensures r.Err? ==> r.error == Thrown(BadCharLiteral)
    ensures r.Ok? ==> r.value.kind == IntegerInline && r.value.n < TWO_32 && SignExtend32(r.value.n) == CharValue(t)
  {
    if |t| == 4 && t[1] != Backslash then Err(Thrown(BadCharLiteral))
    else
      var v := CharValue(t);
      SignExtendToU32(v);
      Ok(Make(IntegerInline, ToU32(v)))
  }

  /**
    A `double` literal: when the low 32 bits of its pattern are zero the
    high half is the immediate of a `DoubleInline`, else the pattern is
    interned (by pattern, see the README).
   */
  function DoubleToken(bits: nat, tabs: Tables): (r: (Token, Tables))
    ensures r.0.kind == DoubleInline ==> r.0.n * TWO_32 == ToU64(bits) && r.1 == tabs
    ensures r.0.kind == Double ==> r.0.n < |r.1.doubles| && r.1.doubles[r.0.n] == ToU64(bits)
    ensures r.0.kind == DoubleInline || r.0.kind == Double
    ensures Extends(tabs, r.1)
  {
    var dec := ToU64(bits);
    if dec % TWO_32 == 0 then (Make(DoubleInline, dec / TWO_32), tabs)
    else
      var (ds, n) := TokenLog.Intern(tabs.doubles, dec);
      (Make(Double, n), tabs.(doubles := ds))
  }

  /** The final `else` of the loop: an integer, a double, a variable, or an invalid token. */
  function LiteralToken(env: Env, t: string, s: C.Scopes, tabs: Tables): (r: Result<(Token, Tables), Fault>)
    ensures r.Ok? ==> Extends(tabs, r.value.1)
  {
    if IntLiteral.IsIntToken(t) then
      match IntLiteral.Stoll(t)
      case Err(_) => Err(Thrown(Stoll))
      case Ok(num) =>
        var (l, ints) := IntLiteral.HppEncode(tabs.ints, num);
        Ok((C.IntToken(l), tabs.(ints := ints)))
    else if env.parseDouble(t).Some? then Ok(DoubleToken(env.parseDouble(t).value, tabs))
    else if C.IsName(t) then UseToken(LocalVar, GlobalVar, t, s, tabs)
    else Err(Thrown(InvalidToken))
  }

  /** `name^`, `.name` and `^name`: the function name, interned. */
  function FuncToken(k: Kind, x: string, tabs: Tables): (r: (Token, Tables))
    ensures r.0.kind == k && r.0.n < |r.1.funcNames| && r.1.funcNames[r.0.n] == x
    ensures r.1 == tabs.(funcNames := r.1.funcNames) && Extends(tabs, r.1)
  {
    var (fs, n) := TokenLog.Intern(tabs.funcNames, x);
    (Make(k, n), tabs.(funcNames := fs))
  }

  /** `:name` and `name:`: the label name, interned. */
  function LabelToken(k: Kind, x: string, tabs: Tables): (r: (Token, Tables))
    ensures r.0.kind == k && r.0.n < |r.1.labels| && r.1.labels[r.0.n] == x
    ensures r.1 == tabs.(labels := r.1.labels) && Extends(tabs, r.1)
  {
    var (ls, n) := TokenLog.Intern(tabs.labels, x);
    (Make(k, n), tabs.(labels := ls))
  }

  /**
    `$name$` and `name$`: the variable name, interned; local exactly when
    a function definition is open, that is when the stack after the
    declaration has more than the top-level list.
   */
  function DeclToken(local: Kind, global: Kind, x: string, scopes: C.Scopes, tabs: Tables): (r: (Token, Tables))
    ensures r.0.kind == (if |scopes| > 1 then local else global)
    ensures r.0.n < |r.1.varNames| && r.1.varNames[r.0.n] == x
    ensures r.1 == tabs.(varNames := r.1.varNames) && Extends(tabs, r.1)
  {
    var (vs, n) := TokenLog.Intern(tabs.varNames, x);
    (Make(if |scopes| > 1 then local else global, n), tabs.(varNames := vs))
  }

  /** `$name` and a bare name: interned, then resolved against the declaration stack. */
  function UseToken(local: Kind, global: Kind, x: string, scopes: C.Scopes, tabs: Tables): (r: Result<(Token, Tables), Fault>)
    requires local != global
    ensures r.Ok? <==> C.LookupKind(scopes, x, local, global).Ok?
    ensures r.Ok? ==> r.value.0.kind == C.LookupKind(scopes, x, local, global).value
    ensures r.Ok? ==> r.value.0.n < |r.value.1.varNames| && r.value.1.varNames[r.value.0.n] == x
    ensures r.Ok? ==> Extends(tabs, r.value.1)
    ensures r.Err? ==> r.error == C.LookupKind(scopes, x, local, global).error
  {
    var (vs, n) := TokenLog.Intern(tabs.varNames, x);
    var k :- C.LookupKind(scopes, x, local, global);
    Ok((Make(k, n), tabs.(varNames := vs)))
  }

  /** `"..."*`: a string value, interned by its bytes. */
  function StrLitToken(body: string, tabs: Tables): (r: (Token, Tables))
    ensures r.0.kind == StringLiteral && r.0.n < |r.1.strVals| && r.1.strVals[r.0.n] == C.Bytes(body)
    ensures Extends(tabs, r.1)
  {
    var (vals, n) := TokenLog.Intern(tabs.strVals, C.Bytes(body));
    (Make(StringLiteral, n), tabs.(strVals := vals))
  }

  /** `"..."`: a fresh shared array, so never equal to an earlier entry. */
  function StrRefToken(body: string, tabs: Tables): (r: (Token, Tables))
    ensures r.0.kind == StringLitReference && r.0.n == |tabs.strRefs|
    ensures r.1.strRefs == tabs.strRefs + [C.Bytes(body)] && Extends(tabs, r.1)
  {
    (Make(StringLitReference, |tabs.strRefs|), tabs.(strRefs := tabs.strRefs + [C.Bytes(body)]))
  }

  /** The token for the text `t` of shape `sh`, given the declaration stack after it. */
  function TokenFor(env: Env, t: string, sh: Shape, scopes: C.Scopes, tabs: Tables): (r: Result<(Token, Tables), Fault>)
    requires sh.CharS? ==> |t| == 3 || |t| == 4
    ensures r.Ok? ==> r.value.0.kind != Exit && Extends(tabs, r.value.1)
  {
    match sh
    case TrivialS(k) => if k == Exit then Err(Undefined(NotTrivialOp)) else ExtendsSelf(tabs); Ok((Make(k, 0), tabs))
    case StrLitS(body) => Ok(StrLitToken(body, tabs))
    case StrRefS(body) => Ok(StrRefToken(body, tabs))
    case BuiltinS(x) =>
      if env.builtinNum(x).None? then Err(Thrown(UnknownBuiltin))
      else ExtendsSelf(tabs); Ok((Make(BuiltinCall, env.builtinNum(x).value), tabs))
    case CharS =>
      var tok :- CharToken(t);
      ExtendsSelf(tabs);
      Ok((tok, tabs))
    case LiteralS => LiteralToken(env, t, scopes, tabs)
    case _ => NamedToken(sh, scopes, tabs)
  }

  /** The shapes `NamedToken` handles. */
  predicate IsNamed(sh: Shape) {
    || sh.FuncDecS? || sh.FuncCallS? || sh.FuncLookupS? || sh.FuncEndS? || sh.ReturnS?
    || sh.DeclLookupS? || sh.DeclS? || sh.LookupS? || sh.LabelUseS? || sh.LabelDecS?
  }

  /** `TokenFor` for the shapes that carry a function, variable or label name, and `FuncEnd` and `Return`. */
  function NamedToken(sh: Shape, scopes: C.Scopes, tabs: Tables): (r: Result<(Token, Tables), Fault>)
    requires IsNamed(sh)
    ensures r.Ok? ==> r.value.0.kind != Exit && Extends(tabs, r.value.1)
  {
    if sh.FuncEndS? || sh.ReturnS? then
      ExtendsSelf(tabs);
      Ok((Make(if sh.FuncEndS? then FuncEnd else Return, 0), tabs))
    else if sh.FuncDecS? || sh.FuncCallS? || sh.FuncLookupS? then
      Ok(FuncToken(if sh.FuncDecS? then FuncDec else if sh.FuncCallS? then FuncCall else FuncLookup, sh.name, tabs))
    else if sh.DeclLookupS? || sh.DeclS? || sh.LookupS? then VarToken(sh, scopes, tabs)
    else Ok(LabelToken(if sh.LabelUseS? then LabelLookup else LabelDec, sh.name, tabs))
  }

  /** `TokenFor` for a variable declaration or use. */
  function VarToken(sh: Shape, scopes: C.Scopes, tabs: Tables): (r: Result<(Token, Tables), Fault>)
    requires sh.DeclLookupS? || sh.DeclS? || sh.LookupS?
    ensures r.Ok? ==> r.value.0.kind != Exit && Extends(tabs, r.value.1)
  {
    if sh.DeclLookupS? then Ok(DeclToken(LocalVarDecLookup, GlobalVarDecLookup, sh.name, scopes, tabs))
    else if sh.DeclS? then Ok(DeclToken(LocalVarDec, GlobalVarDec, sh.name, scopes, tabs))
    else UseToken(LocalVarLookup, GlobalVarLookup, sh.name, scopes, tabs)
  }

  /** One classified text: the declaration stack after it, its token, and the tables after it. */
  function ClassifyText(env: Env, t: string, scopes: C.Scopes, tabs: Tables): (r: Result<(C.Scopes, Token, Tables), Fault>)
    requires |t| > 0
    ensures r.Ok? ==> C.ScopeStep(scopes, ScopeShape(ShapeOf(t))) == Ok(r.value.0)
    ensures r.Ok? ==> TokenFor(env, t, ShapeOf(t), r.value.0, tabs) == Ok((r.value.1, r.value.2))
    ensures r.Ok? ==> r.value.1.kind != Exit && Extends(tabs, r.value.2)
    ensures r.Err? ==> r.error != Undefined(LinesIndex)
  {
    var sh := ShapeOf(t);
    var s2 :- C.ScopeStep(scopes, ScopeShape(sh));
    var (tok, tabs2) :- TokenFor(env, t, sh, s2, tabs);
    Ok((s2, tok, tabs2))
  }

  // ----- the loop -----

  /**
    What a skipped text does to the texts and lines. As written the loop
    erases `lines[i]` only, though `i` counts texts and `lines` has lost
    one entry per earlier skip; the corrected loop erases the text as
    well, so the two stay parallel.
   */
  datatype SkipRule = EraseLine | EraseTextAndLine

  /** The loop's result: the rewritten texts and lines, the declaration stack, the tables and the program. */
  datatype Loaded = Loaded(texts: seq<string>, lines: seq<int>, scopes: C.Scopes, tables: Tables, program: seq<Token>)

  /** The loop from text `i` on, with `p` the program so far; `Exit` is appended when it stops. */
  function LoadFrom(env: Env, rule: SkipRule, texts: seq<string>, lines: seq<int>, i: nat,
                    scopes: C.Scopes, tabs: Tables, p: seq<Token>): (r: Result<Loaded, Fault>)
    requires i <= |texts|
    decreases |texts| - i
  {
    if i == |texts| || texts[i] == "" then Ok(Loaded(texts, lines, scopes, tabs, p + [Make(Exit, 0)]))
    else if texts[i] == "(" then
      match ShuntingYard.Rewrite(texts, lines, i)
      case Err(e) => Err(e)
      case Ok((t2, l2)) =>
        ShuntingYardProps.RewriteSpec(texts, lines, i);
        LoadFrom(env, rule, t2, l2, i, scopes, tabs, p)
    else if IsSkip(texts[i]) then
      if i >= |lines| then Err(Undefined(LinesIndex))
      else if rule == EraseLine then LoadFrom(env, rule, texts, ShuntingYard.Erase(lines, i), i + 1, scopes, tabs, p)
      else LoadFrom(env, rule, ShuntingYard.Erase(texts, i), ShuntingYard.Erase(lines, i), i, scopes, tabs, p)
    else
      match ClassifyText(env, texts[i], scopes, tabs)
      case Err(e) => Err(e)
      case Ok((s2, tok, tabs2)) =>
        LoadFrom(env, rule, texts, lines, i + 1, s2, tabs2, p + [tok])
  }

  /** One classified text: the loop goes on after it, or stops with the classifier's fault. */
  lemma LoadClassifyStep(env: Env, rule: SkipRule, texts: seq<string>, lines: seq<int>, i: nat,
                         scopes: C.Scopes, tabs: Tables, p: seq<Token>)
    requires i < |texts| && Classified(texts[i])
    ensures var c := ClassifyText(env, texts[i], scopes, tabs);
            var r := LoadFrom(env, rule, texts, lines, i, scopes, tabs, p);
            (c.Err? ==> r == Err(c.error))
            && (c.Ok? ==> r == LoadFrom(env, rule, texts, lines, i + 1, c.value.0, c.value.2, p + [c.value.1]))
  {
  }

  /** A `(` hands the loop the rewritten texts, two shorter, at the same index. */
  lemma LoadParenStep(env: Env, rule: SkipRule, texts: seq<string>, lines: seq<int>, i: nat,
                      scopes: C.Scopes, tabs: Tables, p: seq<Token>)
    requires i < |texts| && texts[i] == "(" && LoadFrom(env, rule, texts, lines, i, scopes, tabs, p).Ok?
    ensures ShuntingYard.Rewrite(texts, lines, i).Ok?
    ensures var (t2, l2) := ShuntingYard.Rewrite(texts, lines, i).value;
            |t2| + 2 == |texts| && i <= |t2|
            && LoadFrom(env, rule, texts, lines, i, scopes, tabs, p) == LoadFrom(env, rule, t2, l2, i, scopes, tabs, p)
  {
    ShuntingYardProps.RewriteSpec(texts, lines, i);
  }

  /** A skipped text erases its line, and with the corrected rule its text too. */
  lemma LoadSkipStep(env: Env, rule: SkipRule, texts: seq<string>, lines: seq<int>, i: nat,
                     scopes: C.Scopes, tabs: Tables, p: seq<Token>)
    requires i < |texts| && texts[i] != "" && texts[i] != "(" && IsSkip(texts[i])
    requires LoadFrom(env, rule, texts, lines, i, scopes, tabs, p).Ok?
    ensures i < |lines|
    ensures rule == EraseLine ==> LoadFrom(env, rule, texts, lines, i, scopes, tabs, p)
                                  == LoadFrom(env, rule, texts, ShuntingYard.Erase(lines, i), i + 1, scopes, tabs, p)
    ensures rule != EraseLine ==> LoadFrom(env, rule, texts, lines, i, scopes, tabs, p)
                                  == LoadFrom(env, rule, ShuntingYard.Erase(texts, i), ShuntingYard.Erase(lines, i), i, scopes, tabs, p)
  {
  }

  /** Every path out of the loop appends `Exit` to the program built so far. */
  lemma {:induction false} LoadFromEnds(env: Env, rule: SkipRule, texts: seq<string>, lines: seq<int>, i: nat,
                                        scopes: C.Scopes, tabs: Tables, p: seq<Token>)
    requires i <= |texts| && LoadFrom(env, rule, texts, lines, i, scopes, tabs, p).Ok?
    ensures var q := LoadFrom(env, rule, texts, lines, i, scopes, tabs, p).value.program;
            |q| > |p| && q[|q| - 1] == Make(Exit, 0)
    decreases |texts| - i, 1
  {
    if i == |texts| || texts[i] == "" {
    } else if texts[i] == "(" {
      LoadEndsParen(env, rule, texts, lines, i, scopes, tabs, p);
    } else if IsSkip(texts[i]) {
      LoadEndsSkip(env, rule, texts, lines, i, scopes, tabs, p);
    } else {
      LoadEndsClassify(env, rule, texts, lines, i, scopes, tabs, p);
    }
  }

  lemma {:induction false} LoadEndsParen(env: Env, rule: SkipRule, texts: seq<string>, lines: seq<int>, i: nat,
                                         scopes: C.Scopes, tabs: Tables, p: seq<Token>)
    requires i < |texts| && texts[i] == "(" && LoadFrom(env, rule, texts, lines, i, scopes, tabs, p).Ok?
    ensures var q := LoadFrom(env, rule, texts, lines, i, scopes, tabs, p).value.program;
            |q| > |p| && q[|q| - 1] == Make(Exit, 0)
    decreases |texts| - i, 0
  {
    hide LoadFrom, ShuntingYard.Rewrite;
    LoadParenStep(env, rule, texts, lines, i, scopes, tabs, p);
    var (t2, l2) := ShuntingYard.Rewrite(texts, lines, i).value;
    LoadFromEnds(env, rule, t2, l2, i, scopes, tabs, p);
  }

  lemma {:induction false} LoadEndsSkip(env: Env, rule: SkipRule, texts: seq<string>, lines: seq<int>, i: nat,
                                        scopes: C.Scopes, tabs: Tables, p: seq<Token>)
    requires i < |texts| && texts[i] != "" && texts[i] != "(" && IsSkip(texts[i])
    requires LoadFrom(env, rule, texts, lines, i, scopes, tabs, p).Ok?
    ensures var q := LoadFrom(env, rule, texts, lines, i, scopes, tabs, p).value.program;
            |q| > |p| && q[|q| - 1] == Make(Exit, 0)
    decreases |texts| - i, 0
  {
    hide LoadFrom, ShuntingYard.Erase;
    LoadSkipStep(env, rule, texts, lines, i, scopes, tabs, p);
    if rule == EraseLine {
      LoadFromEnds(env, rule, texts, ShuntingYard.Erase(lines, i), i + 1, scopes, tabs, p);
    } else {
      LoadFromEnds(env, rule, ShuntingYard.Erase(texts, i), ShuntingYard.Erase(lines, i), i, scopes, tabs, p);
    }
  }

  lemma {:induction false} LoadEndsClassify(env: Env, rule: SkipRule, texts: seq<string>, lines: seq<int>, i: nat,
                                            scopes: C.Scopes, tabs: Tables, p: seq<Token>)
    requires i < |texts| && Classified(texts[i]) && LoadFrom(env, rule, texts, lines, i, scopes, tabs, p).Ok?
    ensures var q := LoadFrom(env, rule, texts, lines, i, scopes, tabs, p).value.program;
            |q| > |p| && q[|q| - 1] == Make(Exit, 0)
    decreases |texts| - i, 0
  {
    hide LoadFrom, ClassifyText, TokenFor, ShapeOf, ScopeShape, Extends, C.ScopeStep;
    LoadClassifyStep(env, rule, texts, lines, i, scopes, tabs, p);
    var (s2, tok, tabs2) := ClassifyText(env, texts[i], scopes, tabs).value;
    LoadFromEnds(env, rule, texts, lines, i + 1, s2, tabs2, p + [tok]);
  }

  /** flinch.hpp's loop as written. */
  function LoadAsWritten(env: Env, texts: seq<string>, lines: seq<int>): (r: Result<Loaded, Fault>)
    ensures r.Ok? ==> |r.value.program| > 0 && r.value.program[|r.value.program| - 1] == Make(Exit, 0)
  {
    if LoadFrom(env, EraseLine, texts, lines, 0, [[]], INITIAL_TABLES, []).Ok? then
      LoadFromEnds(env, EraseLine, texts, lines, 0, [[]], INITIAL_TABLES, []);
      LoadFrom(env, EraseLine, texts, lines, 0, [[]], INITIAL_TABLES, [])
    else LoadFrom(env, EraseLine, texts, lines, 0, [[]], INITIAL_TABLES, [])
  }

  /** The corrected loop. */
  function Load(env: Env, texts: seq<string>, lines: seq<int>): (r: Result<Loaded, Fault>)
    ensures r.Ok? ==> |r.value.program| > 0 && r.value.program[|r.value.program| - 1] == Make(Exit, 0)
  {
    if LoadFrom(env, EraseTextAndLine, texts, lines, 0, [[]], INITIAL_TABLES, []).Ok? then
      LoadFromEnds(env, EraseTextAndLine, texts, lines, 0, [[]], INITIAL_TABLES, []);
      LoadFrom(env, EraseTextAndLine, texts, lines, 0, [[]], INITIAL_TABLES, [])
    else LoadFrom(env, EraseTextAndLine, texts, lines, 0, [[]], INITIAL_TABLES, [])
  }
}
