/**
  The compiled token format shared by flinch.cpp and flinch.hpp (`TKind`,
  `Token`), and the ways compiling or running a program can fail.

  The C++ enumerations are flat lists; here the families that the source
  treats uniformly (the five arithmetic operators, the six comparisons) are
  factored out, so that `TKind(IfGotoLabelEQ + (kind - CmpEQ))` becomes
  `IfGotoLabelCmp(c)` for the comparison `c`. The two enumerations list each
  family in the same order, so this loses nothing. The union of both files'
  kinds is listed; each front end produces only its own.
 */
module Tokens {

  /** `+ - * / %`, in `TKind` order. */
  datatype Arith = Add | Sub | Mul | Div | Mod

  /** `== != <= >= < >`, in `TKind` order. */
  datatype Cmp = EQ | NE | LE | GE | LT | GT

  /** The binary operators of `DynamicType`. */
  datatype BinOp =
    | ArithOp(a: Arith)
    | And | Or | Xor | Shl | Shr
    | BoolAnd | BoolOr
    | CmpOp(c: Cmp)

  /** The unary operators of flinch.hpp's `DynamicType`. */
  datatype UnOp = Neg | BoolNot | BitNot

  datatype Kind =
    | Exit
    | GlobalVar | GlobalVarDec | GlobalVarLookup | GlobalVarDecLookup
    | LocalVar | LocalVarDec | LocalVarLookup | LocalVarDecLookup
    | FuncDec | FuncLookup | FuncEnd | FuncCall
    | LabelDec | LabelLookup
    | Integer | IntegerInline | IntegerInlineBigDec | IntegerInlineBigBin
    | Double | DoubleInline
    | Bin(op: BinOp)
    | Unary(u: UnOp)
    /** `+=` and friends: pop a reference, then a value. */
    | OpAssign(a: Arith)
    /** flinch.hpp's fused `LocalVarLookup n; OpAssign`. */
    | OpAsLocal(a: Arith)
    /** flinch.hpp's fused `IntegerInline k; Bin(ArithOp)`. */
    | OpIntInline(a: Arith)
    /** flinch.hpp's fused `DoubleInline k; Bin(ArithOp)`. */
    | OpDubInline(a: Arith)
    | Assign
    /** flinch.cpp's fused `LocalVarLookup n; Assign`. */
    | AssignVar
    /** flinch.hpp's fused `LocalVarLookup n; Assign`. */
    | AsLocal
    | Return | Call | CallEval | BuiltinCall
    | IfGoto | IfGotoLabel | IfGotoLabelCmp(c: Cmp)
    | Goto | GotoLabel
    | ForLoop | ForLoopLabel
    /** flinch.cpp's fused `LocalVarLookup; IntegerInline; ForLoopLabel`. */
    | ForLoopFull
    /** flinch.hpp's version of the same fusion. */
    | ForLoopLocal
    | ScopeOpen | ScopeClose
    | ArrayBuild | ArrayEmptyLit | ArrayIndex | Clone | CloneDeep
    | ArrayLen | ArrayLenMinusOne | ArrayPushIn | ArrayPopOut
    | ArrayPushBack | ArrayPopBack | ArrayConcat | ArrayDelete
    | Punt | PuntN
    | StringLiteral | StringLitReference

  /** `Token { kind, n, extra_1, extra_2 }`. */
  datatype Token = Token(kind: Kind, n: nat, x1: nat, x2: nat)

  /** The double quote, apostrophe and backslash characters. */
  const DQuote: char := '\U{22}'
  const Apostrophe: char := '\U{27}'
  const Backslash: char := '\U{5C}'

  /** `make_token(kind, n)`. */
  function Make(kind: Kind, n: nat): Token {
    Token(kind, n, 0, 0)
  }

  /** The kinds whose `n` names a label until label resolution rewrites it to an index. */
  predicate UsesLabel(k: Kind) {
    k.LabelLookup? || k.GotoLabel? || k.ForLoopLabel? || k.ForLoopFull? || k.ForLoopLocal?
    || k.IfGotoLabel? || k.IfGotoLabelCmp?
  }

  /**
    Why compiling or running stops: an exception the source throws (with
    the gist of its message), a failing `assert`, behaviour the C++ standard
    leaves undefined, or a computation on a `double`, whose value the model
    does not track.
   */
  datatype Fault = Thrown(msg: Cause) | Aborted(what: Cause) | Undefined(what: Cause) | Unmodelled(what: Cause)

  /**
    What went wrong, one name per distinct message or failure site. Those
    under `Thrown` and `Aborted` stand for the source's own messages; the
    others name the C++ operation whose precondition fails, or the
    `double` computation the model does not track.
   */
  datatype Cause =
    // messages of `runtime_error`s and failing asserts
    | InvalidToken | BadCharLiteral | TrailingAfterString | Stoll
    | UndefinedVariable | UnknownLabelUsage | RedefinedFunction
    | NotARef | NotALabel | NotAFunc | NotNumeric
    | NonNumericOperand | NonNumericOperands
    | ForLoopNonInteger | IndexNonArray | LengthNonArray | UnknownBuiltin
    | UnknownOpcode | DeletedOpcode | ShortStringCapacity
    | UnclosedParen | TooManyOperations | TooManyVariables
    | NotEnoughValues | EmptyBuffer | PastEndOfArray | NotAnArray | PuntAtBottom
    // undefined behaviour: the operation whose precondition fails
    | BackOfEmpty | PopOfEmpty | NoLines
    | SignedOverflow | DivisionByZero | ShiftCount
    | IndexOutOfRange | VariableIndex | BadReference | DanglingArray
    | FuncsIndex | LabelsIndex | RootLabelsIndex | LinesIndex | SlotIndex | BuiltinIndex
    | IntsIndex | StringValIndex | StringRefIndex | LiteralPastEnd
    | TokenIndex | TokenPastEnd | NextTokenPastEnd | SecondTokenPastEnd | TokenBelowZero
    | NotTrivialOp | SelfConcat | CloneCycle
    // values the model does not compute
    | DoubleOperator | DoubleTruth | DoubleToInteger
}
