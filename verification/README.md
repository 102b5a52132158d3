# Flinch, modelled in Dafny

Flinch is a tiny stack language whose token list is itself the program.
The repository has three interpreters for it and a path-finding benchmark.
This project models their sequential core as pure functions over immutable
data, and proves properties of that model.

- **Reference interpreter** (`etc/flinch.py`): `PyLexer` models the `next`
  tokenizer. `PyInterp` models the dispatch loop as a state record and a
  `Step` that returns `Result<State, Fault>`. `PyProps` states the call
  protocol, scoping, `<-`, jumps, frames and arithmetic over it.
- **Compiled interpreter** (`flinch.cpp`):
  - `CLexer` models the lexer (the `flinch.hpp` lexer is modelled there too);
  - `TokenLog` models the interning tables;
  - `IntLiteral` models the packing of integer literals into 32-bit immediates;
  - `CppClassify` models token classification and compile-time variable resolution;
  - `CppLink` models the peephole fuser, function registration and label resolution;
  - `DynValue` models the `DynamicType` integer operations and truthiness;
  - `CppInterp` and `CppInterpProps` model `interpret` and its handlers.
- **Containers** (`types.hpp`): `ShortStr` (`ShortString`), `PodVec`
  (`PODVec`) and `ListMap` (`bsearch_up` and `PODListMap`).
- **Benchmark** (`etc/pf.py`, `etc/pf.c`): `LcgGrid` (the 32-bit LCG and
  the walled grid), `FlagHeap` (the flag-alternating min-heap, in its
  Python and C flavours) and `GridDijkstra`.
- **Shared modules**: `Wrappers` (`Result`, `Option`), `MachineInt`
  (64- and 32-bit wrap-around, C truncating and Python floor division,
  bitwise operations done bit by bit) and `Tokens` (token kinds, and the
  `Cause`/`Fault` datatypes that name each failure site of the source).

The failure modes are kept apart:

- `Thrown` is an exception the source throws.
- `Aborted` is a failed `assert`.
- `Undefined` is behaviour that C++ leaves undefined: popping an empty
  vector, signed overflow, division by zero, an index out of range.
- `Unmodelled` marks an outcome that depends on a floating-point value,
  which the model keeps opaque.

The model follows the code where its behaviour is easy to misread:

- In `etc/flinch.py`, `^^` and `return` pop the call stack and the
  function stack, but never the scope stack (etc/flinch.py:106-116).
- Because of the unconditional `i += 1` at the end of the loop, a call or
  jump resumes one token past the recorded index (etc/flinch.py:180).
- The end-of-program token exists only when the text ends in whitespace.
  Otherwise the loop reads past the token list (etc/flinch.py:26-38, 91).
- In `flinch.cpp`, root labels are erased after functions are registered
  (flinch.cpp:699-711). A function defined after a root label therefore
  keeps a `loc` that is off by one. `CppLink.RootLabelStalesLoc` states
  this on a concrete program.

## Model

| member | source | states |
|---|---|---|
| PyLexer.NewlinesSplit | etc/flinch.py:15-25 | the line count over a span is the sum of the counts over its two halves |
| PyLexer.CommentEnd | etc/flinch.py:21-22 | a comment runs to the first CR or LF (or the end) and contains none |
| PyLexer.NewlineRun | etc/flinch.py:23-25 | the run after a comment consists only of CR/LF and bumps `line` once per character |
| PyLexer.SkipGap | etc/flinch.py:15-25 | skipping stops at the end or at a non-skip character, and `line` grows by exactly the CR/LF characters skipped |
| PyLexer.TokenEnd | etc/flinch.py:26-28 | a token is a maximal run of characters outside " \t\r\n#" |
| PyLexer.Next | etc/flinch.py:11-31 | `next` returns a token with no space, tab, CR, LF or `#`, advances past it, counts every CR/LF skipped, and returns the empty token only at the end of the text |
| PyLexer.NewlinesNoneInToken | etc/flinch.py:26-28 | no token character bumps the line counter |
| PyLexer.HeadLexemeSpec | etc/flinch.py:36-38 | the lexeme recorded at a boundary is a maximal run tagged with one more than the CR/LF characters before it |
| PyLexer.TokenizeFromSpec | etc/flinch.py:36-38 | from any token boundary the loop yields maximal runs in text order, each tagged `line + 1`, only the last possibly empty |
| PyLexer.Tokenize | etc/flinch.py:33-38 | the whole token list is faithful to the text in that sense: maximal runs in text order, each tagged with one more than the line breaks before it, only the last possibly empty and then at the end of the text |
| PyLexer.EndMarkerWhenTextEndsInSkip | etc/flinch.py:26-38 | a text ending in a skip character yields the empty token last, and only then |
| PyLexer.RunEndsInToken | etc/flinch.py:26-28 | a non-empty token ends on a character that is not skipped |
| PyLexer.TokenizeFromReachesEnd | etc/flinch.py:36-38 | the loop stops exactly when the last token ends at the end of the text |
| PyInterp.InitWellFormed | etc/flinch.py:60-65 | the initial state (one global scope, one evaluation frame, empty stacks) satisfies the state invariant |
| PyInterp.SubstringIsArith | etc/flinch.py:152 | every non-empty substring of "+-*/%" passes the `token in "+-*/%"` test |
| PyInterp.ArithIsSubstring | etc/flinch.py:152 | every token passing that test is a non-empty substring of "+-*/%" |
| PyInterp.ArithTokensAreSubstrings | etc/flinch.py:152 | the arithmetic branch is taken exactly for the non-empty substrings of "+-*/%" |
| PyInterp.Arith | etc/flinch.py:153-163 | a non-number operand is a type error, and a success is an int or a float |
| PyInterp.LessEq | etc/flinch.py:164-167 | `<=` yields a bool or fails |
| PyInterp.OnlyTopChangedKeepsWellFormed | etc/flinch.py:67-70 | changing only the top evaluation frame, with values that name existing scopes, keeps the invariant |
| PyInterp.Push | etc/flinch.py:67-68 | `valpush` fails only without a frame and otherwise appends to the top frame, changing nothing else |
| PyInterp.Pop | etc/flinch.py:69-70 | `valpop` fails on a missing or empty top frame and otherwise removes and returns its last value, changing nothing else |
| PyInterp.Resolve | etc/flinch.py:121 | a name binds to `varstack[-1]` when that scope holds it and to `varstack[0]` otherwise |
| PyInterp.Store | etc/flinch.py:118-139 | a write changes exactly one entry of one scope and keeps the invariant |
| PyInterp.LabelIndex | etc/flinch.py:98-102 | the label table entry for a name is its last definition in the scanned range, or absent when none |
| PyInterp.ScanDef | etc/flinch.py:98-102 | the scan stops at the next `^^`, passes no empty token, and records every label at its own index |
| PyInterp.ExecDef | etc/flinch.py:93-103 | the definition branch touches only `i`, `funcs` and `labels` |
| PyInterp.Unwind | etc/flinch.py:107-114 | dropping one call record and one function name keeps the invariant |
| PyInterp.ExecEnd | etc/flinch.py:106-110 | `^^` keeps the invariant and never removes a scope |
| PyInterp.ExecReturn | etc/flinch.py:111-116 | `return` keeps the invariant and never removes a scope |
| PyInterp.ExecCall | etc/flinch.py:128-134 | a call keeps the invariant and adds exactly one fresh scope |
| PyInterp.ExecAssign | etc/flinch.py:135-139 | `<-` keeps the invariant and adds no scope |
| PyInterp.ExecIfGoto | etc/flinch.py:144-148 | `if_goto` keeps the invariant and adds no scope |
| PyInterp.ExecGoto | etc/flinch.py:149-151 | `goto` keeps the invariant and adds no scope |
| PyInterp.ExecArith | etc/flinch.py:152-163 | the arithmetic branch keeps the invariant and adds no scope |
| PyInterp.ExecLessEq | etc/flinch.py:164-167 | `<=` keeps the invariant and adds no scope |
| PyInterp.ExecOther | etc/flinch.py:168-178 | literals and variable reads keep the invariant and add no scope |
| PyInterp.ExecLabelRef | etc/flinch.py:124-125 | `:x` keeps the invariant and adds no scope |
| PyInterp.Exec | etc/flinch.py:91-178 | every branch of the dispatch keeps the invariant, and only a call adds a scope |
| PyInterp.OpenFrame | etc/flinch.py:72-73 | `<<<` pushes one empty frame and keeps the frames below |
| PyInterp.Step | etc/flinch.py:91-180 | one iteration keeps the invariant and the scope discipline, and `varstack` keeps listing every scope ever created |
| PyInterp.Run | etc/flinch.py:89-180 | a finished run stops on the empty token in a well-formed state whose scopes kept all their bindings |
| PyInterp.CallKeepsWellFormed | etc/flinch.py:128-134 | pushing a call record, a function name and a fresh scope keeps the invariant |
| PyProps.NameShape | etc/flinch.py:93-167 | an identifier fails every marker test of the dispatch chain |
| PyProps.PlainNameClassify | etc/flinch.py:168-175 | a plain name reaches the variable-read fallback and is not an integer literal |
| PyProps.IntSpellingClassify | etc/flinch.py:168-170 | an integer's decimal spelling reaches the literal fallback |
| PyProps.DefScanSpec | etc/flinch.py:93-103 | a top-level `name^` registers `Func(loc, ^^ index - loc, name)`, records exactly the body's labels at their own indices (last definition wins), executes nothing and resumes after the `^^` |
| PyProps.DefStepIs | etc/flinch.py:93-103 | at top level a definition header registers its function and labels from the scan and resumes just past the closing `^^`, or fails as the scan fails |
| PyProps.ScanDefFindsEnd | etc/flinch.py:98-102 | the scan succeeds whenever a `^^` follows with no empty token before it |
| PyProps.DefScanOnlyIf | etc/flinch.py:93-103 | conversely, a definition step succeeds only at top level and only when such a `^^` follows |
| PyProps.NestedDefFaults | etc/flinch.py:94 | a definition header met inside a call fails the `call_stack` assertion |
| PyProps.CallSpec | etc/flinch.py:128-134 | a call succeeds exactly when the popped value is a function, pushes `(i, isEval)`, the name and a fresh empty scope, and next executes the token after the name token |
| PyProps.CallThenEnd | etc/flinch.py:106-110 | the `^^` ending a call restores the call and name stacks, resumes after the call token, pushes 0 exactly for `call_eval`, and leaves `varstack` as it was |
| PyProps.ReturnStep | etc/flinch.py:111 | a `return` token takes the `return` branch |
| PyProps.ReturnSpec | etc/flinch.py:111-116 | `return` needs a value to pop, pops one call record and one name, and re-pushes the value exactly for `call_eval` |
| PyProps.CallThenReturn | etc/flinch.py:111-134 | after a call, `return` hands the popped value back exactly for `call_eval` and restores the control stacks |
| PyProps.AllScopesStackedInit | etc/flinch.py:63 | initially `varstack` lists every scope that exists |
| PyProps.ReadOther | etc/flinch.py:173-175 | a name reads from the scope the resolution rule picks, failing when it is unbound there |
| PyProps.ReadFallback | etc/flinch.py:173-175 | a token reaching the fallback as a name pushes the value it is bound to |
| PyProps.ReadSpec | etc/flinch.py:173-175 | a plain name pushes its binding in `varstack[-1]` if present, else in `varstack[0]` |
| PyProps.DeclareSpec | etc/flinch.py:117-123 | `$x$` and `x$` bind `x` to 0 in `varstack[-1]`, and only `$x$` pushes a reference to it |
| PyProps.RefSpec | etc/flinch.py:120-121 | `$x` pushes a reference to `varstack[-1]` if it holds `x`, else to `varstack[0]`, reading no value |
| PyProps.AssignSpec | etc/flinch.py:135-139 | `<-` pops the reference then the value, fails unless the reference is a `Var`, and changes only that binding, current scope or not: no other binding changes, appears or disappears, and the top frame loses both operands |
| PyProps.AssignKeepsResolve | etc/flinch.py:135-174 | writing through the reference a name resolves to keeps the name resolving to the same scope |
| PyProps.AssignThenRead | etc/flinch.py:135-175 | writing through a name's reference and then reading the name yields the value written |
| PyProps.BindingsOutliveCalls | etc/flinch.py:106-133 | no step deletes a binding, so a reference captured in a call still reaches it after the call returns |
| PyProps.GotoSpec | etc/flinch.py:149-180 | `goto` continues at the token after the destination's index, and non-locations fail |
| PyProps.IfGotoSpec | etc/flinch.py:144-180 | `if_goto` pops destination then condition, falls through on a false condition without reading the destination, and otherwise jumps like `goto` |
| PyProps.LabelRefSpec | etc/flinch.py:124-125 | `:x` pushes the label the scan recorded for `x` in the current function |
| PyProps.LabelJump | etc/flinch.py:124-125 | `:x goto` resumes at the token right after the label definition |
| PyProps.DivModAgree | etc/flinch.py:158-163 | on ints `/` floors and `%` takes the divisor's sign, with `a == b * (a / b) + a % b` |
| PyProps.DivByZeroFaults | etc/flinch.py:158-163 | division or remainder by zero (or `False`) fails |
| PyProps.BoolOperandTrueDivision | etc/flinch.py:159-162 | a `bool` operand makes `/` true division, since the test is `type(a) is int` |
| PyProps.ArithStep | etc/flinch.py:152 | an operator token takes the arithmetic branch |
| PyProps.ArithPops | etc/flinch.py:153-154 | the arithmetic branch pops `b`, then `a`, and pushes only for a one-character operator |
| PyProps.SubtractStep | etc/flinch.py:153-156 | `-` pushes `a - b` in place of `a, b` |
| PyProps.OperatorSubstringDropsTwo | etc/flinch.py:152-163 | a multi-character operator substring such as `+-` pops two values and pushes nothing |
| PyProps.ArithTokenEnds | etc/flinch.py:152 | an operator token begins and ends with an operator character |
| PyProps.OperatorEndsClassify | etc/flinch.py:93-152 | such a token fails every test before the arithmetic one |
| PyProps.ArithTokenClassify | etc/flinch.py:93-152 | every operator token is classified as arithmetic |
| PyProps.FrameRoundTrip | etc/flinch.py:72-75 | `<<<` then `>>>` restores the frames exactly |
| PyProps.CloseFrameSpec | etc/flinch.py:74-75 | `>>>` fails only without a frame and otherwise discards the whole top frame |
| PyProps.ShowNatValue | etc/flinch.py:169-170 | a natural number's spelling is a digit run denoting it |
| PyProps.IntLiteralRoundTrip | etc/flinch.py:169-170 | every integer's spelling passes `isint` and `int` gives it back |
| PyProps.IntOther | etc/flinch.py:169-170 | the fallback pushes an integer literal's value |
| PyProps.IntLiteralStep | etc/flinch.py:169-180 | executing an integer's spelling pushes that integer and changes nothing else |
| TokenLog.GetNum | flinch.cpp:128-140 | returns the index of the first equal entry and leaves the table alone, or appends the value and returns the new index |
| TokenLog.Get | flinch.cpp:141-144 | `get_token_X(n)` returns an entry of the table |
| TokenLog.Intern | flinch.cpp:128-140 | the returned index holds the value, and the old entries are kept in place |
| TokenLog.IndexOf | flinch.cpp:132-137 | the index returned for a present value is its first occurrence |
| TokenLog.GetNumIsIntern | flinch.cpp:128-140 | the loop's result is the functional interning |
| TokenLog.FirstAtUnique | flinch.cpp:132-137 | a value has only one first index |
| TokenLog.InternKeepsNoDups | flinch.cpp:128-140 | interning keeps a table duplicate-free, and the returned index is the value's first occurrence |
| TokenLog.InternSameIffEqual | flinch.cpp:128-144 | two interned values get the same index exactly when they are equal, and `get_token_X` of the index gives the value back |
| TokenLog.InternAll | flinch.cpp:128-140 | interning a list returns one index per name, each naming that name |
| TokenLog.InternAllFaithful | flinch.cpp:128-144 | two positions of an interned list get the same index exactly when they hold the same name |
| IntLiteral.EncodeWith | flinch.cpp:561-580 | the packing picks the first tier that applies: inline exactly for the 32-bit range, the table only when no immediate tier fits, and only the table tier grows the table |
| IntLiteral.Encode | flinch.cpp:561-580 | the flinch.cpp packing yields a token its handler can decode |
| IntLiteral.RoundTripWith | flinch.cpp:561-580 | decoding with the encoder's own constants gives back the literal on every tier |
| IntLiteral.RoundTrip | flinch.cpp:561-580 | every 64-bit flinch.cpp literal executes as the value it spells |
| IntLiteral.CppTiers | flinch.cpp:565-579 | outside the 32-bit range, `BigDec` is chosen exactly for multiples of 10000 with an in-range quotient, which is the immediate |
| IntLiteral.HppEncode | flinch.hpp:624-644 | the flinch.hpp packing yields a token its handler can decode |
| IntLiteral.HppRoundTripIff | flinch.hpp:624-644 | as written, a flinch.hpp literal round-trips exactly when it is stored inline or in the table |
| IntLiteral.HppDecimalMismatch | flinch.hpp:627-643 | `3000000000` is stored as `IntegerInlineBigDec 3` and executes as 30000 |
| IntLiteral.HppBinaryMismatch | flinch.hpp:630-643 | `2^33` is stored as `IntegerInlineBigBin 4` and executes as 131072 |
| IntLiteral.HppFixedRoundTrip | flinch.hpp:624-644 | with the decoder using the encoder's constants, every flinch.hpp literal round-trips |
| IntLiteral.InlineAgrees | flinch.cpp:574-575 | a 32-bit literal is inline in both files and executes as itself |
| IntLiteral.Stoll | flinch.cpp:364-374 | `stoll` on an `isint` token yields a 64-bit value, and fails with `invalid_argument` exactly on a lone sign |
| IntLiteral.DigitsAppend | flinch.cpp:367-371 | appending a digit scales the value by ten and adds the digit |
| IntLiteral.LeadingZero | flinch.cpp:367-371 | leading zeros do not change the value |
| IntLiteral.DecodeWith | flinch.cpp:1053-1060 | with positive scales, an inline literal decodes to a 32-bit value, a scaled literal to a multiple of its scale whose quotient is 32-bit, and a table literal to its table entry |
| IntLiteral.Decode | flinch.cpp:1053-1060 | flinch.cpp decodes inline literals to 32-bit values, `BigDec` to multiples of 10000 and `BigBin` to multiples of 32768 with 32-bit quotients, and `Integer` to its table entry |
| IntLiteral.HppDecode | flinch.hpp:1104-1107 | as written, flinch.hpp decodes with the same scales as flinch.cpp: multiples of 10000 and 32768 with 32-bit quotients |
| IntLiteral.HppDecodeFixed | flinch.hpp:627-643 | the corrected decoder scales by the encoder's own constants: `BigDec` gives multiples of 1000000000 and `BigBin` multiples of 2^31, each with a 32-bit quotient |
| CLexer.LinesSplit | flinch.cpp:293-298 | the newline count over a span is the sum over its two halves |
| CLexer.SkipSpace | flinch.cpp:293-298 | the whitespace loop stops at the end or at a non-space, bumping `line` once per `\n` skipped |
| CLexer.CommentEnd | flinch.cpp:300-303 | a comment runs to the first `\n`, which it leaves for the whitespace loop |
| CLexer.PlainEnd | flinch.cpp:346-347 | a plain token is a maximal run of non-space characters |
| CLexer.HexDigit | flinch.cpp:317-318 | a hexadecimal digit's value is below 16, and -1 marks a non-digit |
| CLexer.HexPair | flinch.cpp:317-319 | `strtol` of the two characters after `\x` converts to one byte |
| CLexer.HexQuote | flinch.cpp:315-333 | the only `\x` escape that yields a double quote is `\x22` |
| CLexer.CppScan | flinch.cpp:311-335 | the string loop stops, if at all, inside the text at the character whose appended byte is a double quote |
| CLexer.HppScan | flinch.hpp:327-345 | the same loop in flinch.hpp, where overflowing the scratch `ShortString` fails an assert |
| CLexer.AfterQuote | flinch.cpp:336-342 | after the closing quote and optional suffix, whitespace, NUL or the end must follow, otherwise the literal throws |
| CLexer.SuffixEnd | flinch.cpp:338-339 | the reference suffix takes at most one character |
| CLexer.TokenEnd | flinch.cpp:306-348 | a token is a plain maximal run unless it opens with a quote, and only a quoted token can fail |
| CLexer.CppStringEnd | flinch.cpp:307-342 | a flinch.cpp string literal ends before whitespace, NUL or the end of the text |
| CLexer.HppStringEnd | flinch.hpp:323-352 | a flinch.hpp string literal ends before whitespace, NUL or the end of the text |
| CLexer.HppCharEnd | flinch.hpp:317-321 | a character literal is accepted exactly when its closing apostrophe is in place and a character follows it |
| CLexer.CharEnd | flinch.hpp:319 | a character literal takes three characters, or four after a backslash |
| CLexer.LexFaithful | flinch.cpp:291-353 | every token of a successful lex is well placed, in text order, tagged `line + 1`, and only the last can be empty |
| CLexer.CommentFaithful | flinch.cpp:300-303 | skipping a comment keeps the tokens faithful |
| CLexer.TokenFaithful | flinch.cpp:304-352 | recording a token keeps the tokens faithful |
| CLexer.FaithfulCons | flinch.cpp:349-351 | a well-placed head token glued to a faithful rest is faithful |
| CLexer.CppLexemes | flinch.cpp:349 | each token's text is the slice of the source it spans |
| CLexer.CppLex | flinch.cpp:291-355 | the flinch.cpp lexer yields one token per span, and a text without tokens makes `lines.back()` undefined |
| CLexer.CPrefix | flinch.hpp:358 | a C string is the text before the first NUL |
| CLexer.HppLexemes | flinch.hpp:358 | a flinch.hpp token is its slice cut at the first NUL, and a slice that does not fit a `ShortString` fails |
| CLexer.HppLex | flinch.hpp:303-361 | the flinch.hpp lexer yields one token per span |
| CLexer.CppLexShape | flinch.cpp:291-355 | flinch.cpp tokens: only the last can be empty, none starts with whitespace or `#`, a non-string token holds no whitespace, and line tags start at 1 and never decrease |
| CLexer.HppLexShape | flinch.hpp:303-361 | flinch.hpp tokens fit a `ShortString`, hold no NUL, never start with whitespace or `#`, and carry non-decreasing line tags |
| CLexer.CppCommentOnly | flinch.cpp:300-303 | a text holding only a comment leaves no token, and `lines.back()` is then undefined |
| CLexer.HppCharLiteralAtEnd | flinch.hpp:319-321 | a character literal is accepted before whitespace but refused at the end of the text |
| CppClassify.TrivialOp | flinch.cpp:426-475 | the `trivial_ops` table maps no name to a label-using kind or to `Exit` |
| CppClassify.ScopeStep | flinch.cpp:481-514 | `name^` pushes an empty declaration list, `^^` pops one, a declaration appends to the innermost list, and popping or appending on an empty stack is undefined |
| CppClassify.AppendDecl | flinch.cpp:499-509 | appending a declaration fails exactly on an empty stack |
| CppClassify.LevelShift | flinch.cpp:481-514 | closing one walked-over definition is the same as passing one more open one |
| CppClassify.ScopesAreLevels | flinch.cpp:403-404 | the `d`-th declaration list from the top holds exactly the declarations of the `d`-th enclosing open definition, with one list more than there are open definitions |
| CppClassify.ScopeEnds | flinch.cpp:403-404 | the innermost list holds the innermost open definition's declarations and the outermost list the top level's |
| CppClassify.StepLevel | flinch.cpp:481-514 | one classification step keeps each list equal to its backward reading |
| CppClassify.Bytes | flinch.cpp:532-546 | a string literal's body becomes one signed byte per character |
| CppClassify.LookupKind | flinch.cpp:406-424 | a name is local when a function is open and its list declares it, else global when the top level declares it, else "Undefined variable"; an empty stack is undefined |
| CppClassify.LookupToken | flinch.cpp:515-525 | `$x` compiles to the kind the lookup picks, carrying `x`'s interned number, and fails exactly when the lookup fails |
| CppClassify.BuiltinToken | flinch.cpp:548-558 | `!print` and `!printstr` are builtins 0 and 1, and any other name throws |
| CppClassify.TokenFor | flinch.cpp:481-604 | no source text classifies to `Exit`, and a variable use follows the lookup |
| CppClassify.Classify | flinch.cpp:479-605 | one iteration appends exactly one non-`Exit` token and updates the declaration stack by `ScopeStep` |
| CppClassify.UntilEmpty | flinch.cpp:477 | the loop visits the longest prefix of non-empty texts and stops at the first empty one |
| CppClassify.Shapes | flinch.cpp:481-604 | every text gets the shape the loop's tests give it |
| CppClassify.ClassifyAll | flinch.cpp:477-606 | classification emits one token per text, none of them `Exit` |
| CppClassify.ClassifyScopes | flinch.cpp:477-606 | the declaration stack after the loop is the fold of `ScopeStep` over the shapes |
| CppClassify.ClassifyPrefix | flinch.cpp:477-606 | later iterations never rewrite an earlier token |
| CppClassify.ClassifyLast | flinch.cpp:477-606 | the last iteration only appends |
| CppClassify.LookupLevels | flinch.cpp:406-424 | the lookup on the backward-read stack is the reference resolution |
| CppClassify.ScopesResolve | flinch.cpp:406-424 | looking a name up in the stack after any token sequence is the reference resolution |
| CppClassify.LookupResolution | flinch.cpp:515-525 | a `$x` token compiles to a local lookup exactly when an open definition declared `x` earlier, else to a global one when the top level did, else throws |
| CppLink.Erase | flinch.cpp:609-612 | erasing index `k` shortens the program by one and keeps the tokens on either side in order |
| CppLink.FuseVar | flinch.cpp:619-624 | `LocalVarLookup n; Assign/Goto/IfGoto` becomes one `AssignVar/GotoLabel/IfGotoLabel n` and the index steps back, and nothing changes otherwise |
| CppLink.FuseVarFixed | flinch.cpp:619-624 | the corrected variable fusion: `LocalVarLookup n; Assign` becomes `AssignVar n` and `LabelLookup t; Goto/IfGoto` becomes `GotoLabel/IfGotoLabel t`, the index steps back, and nothing changes otherwise |
| CppLink.FuseAllFixed | flinch.cpp:617-646 | one round of the corrected rewrites moves the index by at most one back or forward and never lengthens the program |
| CppLink.FuseAllAgrees | flinch.cpp:617-646 | on programs without `goto`/`if_goto` the corrected and the as-written rewrites coincide, and the result still has no jumps |
| CppLink.FuseVarAgrees | flinch.cpp:619-624 | without jumps the two variable fusions agree |
| CppLink.GotoFusionFixed | flinch.cpp:619-624 | under the corrected fuser `$x goto` stays unfused while `:t goto` fuses to `GotoLabel t` |
| CppLink.FuseFor | flinch.cpp:625-630 | `LabelLookup n; ForLoop` becomes `ForLoopLabel n` and the index steps back twice, and nothing changes otherwise |
| CppLink.FuseForFull | flinch.cpp:631-639 | `LocalVarLookup v; IntegerInline k; ForLoopLabel t` becomes `ForLoopFull t` carrying `v` and `k`, two tokens shorter |
| CppLink.FuseCmp | flinch.cpp:640-645 | `Cmp<op>; IfGotoLabel t` becomes `IfGotoLabel<op> t`, one token shorter |
| CppLink.FuseAll | flinch.cpp:617-646 | one round of the fuser never lengthens the program and never moves the index forward |
| CppLink.PeepholeFixedSafe | flinch.cpp:617-646 | with the index clamped at 0, the fuser never fails on a program ending in its only `Exit`, keeps that shape and never lengthens it |
| CppLink.PeepholeFixedStep | flinch.cpp:617-646 | one round of the clamped fuser keeps the closing `Exit`, shrinks the termination measure, and the loop continues from the index it leaves |
| CppLink.PeepholeFixedUnfold | flinch.cpp:617 | the clamped loop continues from the index one round leaves |
| CppLink.FuseAllFixedExitLast | flinch.cpp:617-646 | none of the corrected rewrites creates or removes the closing `Exit` |
| CppLink.FuseForExitLast | flinch.cpp:625-630 | the loop-label fusion keeps the closing `Exit` |
| CppLink.FuseForFullExitLast | flinch.cpp:631-639 | the full-loop fusion keeps the closing `Exit` |
| CppLink.FuseCmpExitLast | flinch.cpp:640-645 | the compare fusion keeps the closing `Exit` |
| CppLink.ExitLastStep | flinch.cpp:614-623 | rewriting a valid pair into one non-`Exit` token keeps the closing `Exit` |
| CppLink.ExitLastFull | flinch.cpp:631-639 | rewriting a valid triple into `ForLoopFull` keeps the closing `Exit` |
| CppLink.PeepholeFixedAgrees | flinch.cpp:617-646 | wherever the fuser as written finishes, the clamped one gives the same program |
| CppLink.PeepholeWrapsAtStart | flinch.cpp:617-630 | a program starting `:a inc_goto_until` steps the index below zero and the next loop test reads out of range, while the clamped fuser yields `ForLoopLabel; Exit` |
| CppLink.WrapFusions | flinch.cpp:617-630 | both fusers turn `:a inc_goto_until` at index 0 into `ForLoopLabel` and step the index back to -2 |
| CppLink.WrapFor | flinch.cpp:617-630 | the loop fusion at the head of `:a inc_goto_until; Exit` gives `ForLoopLabel; Exit` and index -2 |
| CppLink.GotoFusionKeepsVarId | flinch.cpp:619-624 | `$x goto` fuses to `GotoLabel` carrying the variable id in the field label resolution reads as a label id |
| CppLink.NoLabels | flinch.cpp:663-701 | a fresh label table has every entry unset |
| CppLink.DropLabelDecs | flinch.cpp:668-675 | dropping label declarations leaves no `LabelDec` and never lengthens |
| CppLink.CollectLabels | flinch.cpp:668-675 | the first body loop stops at the first `FuncEnd`, leaves the tokens before the body alone and never lengthens the program |
| CppLink.CollectLabelsFaithful | flinch.cpp:668-675 | the first body loop erases exactly the body's `LabelDec`s, records every declared label, and each label names the token that follows its declaration |
| CppLink.CollectEndCase | flinch.cpp:668 | at a `FuncEnd` the first body loop stops with nothing recorded |
| CppLink.CollectDropCase | flinch.cpp:670-674 | recording and erasing one `LabelDec` keeps the loop's promise |
| CppLink.CollectKeepCase | flinch.cpp:668-675 | passing over any other token keeps the loop's promise |
| CppLink.CollectLabelStep | flinch.cpp:673 | erasing a `LabelDec` inside the body drops it and keeps the rest in order |
| CppLink.CollectKeepStep | flinch.cpp:668-675 | passing over a kept token extends the kept prefix by it |
| CppLink.ResolveLocal | flinch.cpp:676-687 | the second body loop keeps the length, stops at the first `FuncEnd` and leaves earlier tokens alone |
| CppLink.ResolveLocalFaithful | flinch.cpp:678-687 | the second body loop rewrites only the label fields of label-using tokens before the first `FuncEnd`, each to its recorded index |
| CppLink.ResolveStep | flinch.cpp:680-686 | rewriting one label field keeps the loop's promise |
| CppLink.ResolveLocalUnknown | flinch.cpp:683-685 | a label use in the body whose label was never declared there throws |
| CppLink.RegisterOne | flinch.cpp:657-688 | registering a definition keeps the tokens up to its `FuncDec` and the size of `funcs`, and the new entry's `len` is positive and ends inside the program |
| CppLink.RegisterRedefined | flinch.cpp:660-661 | registering a function whose entry is taken throws "Redefined function" |
| CppLink.RegisterOneShape | flinch.cpp:657-688 | a successful registration found the entry free and set `funcs[n] = {start + 1, FuncEnd index - start, n}`, leaving no `LabelDec` in the body and every other entry unchanged |
| CppLink.RegisterCompose | flinch.cpp:663-688 | the two body loops together give that registration |
| CppLink.Register | flinch.cpp:648-696 | the registration loop keeps the size of `funcs` |
| CppLink.SkipDef | flinch.cpp:704-715 | the root passes jump over a definition by its `len` and stay inside the program |
| CppLink.RootCollect | flinch.cpp:699-711 | the root collecting pass never lengthens the program and keeps the label table's size |
| CppLink.RootResolve | flinch.cpp:713-724 | the root resolving pass keeps the program's length |
| CppLink.RootResolveKinds | flinch.cpp:713-724 | the root resolving pass changes the label fields of label uses only: kinds stay and every other token is untouched |
| CppLink.RootResolveStep | flinch.cpp:713-724 | past the definitions, a label use with a recorded root label gets it and the pass moves on; any other token is passed over |
| CppLink.Link | flinch.cpp:648-726 | linking keeps one `funcs` entry per function name and never lengthens the program |
| CppLink.RegisterShrinks | flinch.cpp:653-696 | registration never lengthens the program |
| CppLink.StaleExample | flinch.cpp:699-711 | the example program `a: f^ ^^` |
| CppLink.StaleExampleRegisters | flinch.cpp:653-696 | registering `a: f^ ^^` sets `funcs[f] = {2, 1, 1}` |
| CppLink.StaleExampleCollects | flinch.cpp:699-711 | the root pass then erases `a:`, moving the definition down one |
| CppLink.StaleExampleResolves | flinch.cpp:713-724 | the root resolving pass then leaves the program unchanged |
| CppLink.RootLabelStalesLoc | flinch.cpp:688-711 | after linking `a: f^ ^^`, `funcs[f].loc - 1` no longer holds `f`'s `FuncDec` |
| CppLink.RegisterFixed | flinch.cpp:653-711 | the corrected registration loop, which erases each root `LabelDec` as it meets it and resumes after each body, keeps the sizes of `funcs` and the root label table and never lengthens the program |
| CppLink.LinkFixed | flinch.cpp:648-726 | the corrected link keeps one `funcs` entry per function name and never lengthens the program |
| CppLink.PlacedPrefix | flinch.cpp:704 | whether the bodies before `bound` are placed depends only on the tokens before `bound` |
| CppLink.PlacedRegisterOne | flinch.cpp:657-688 | registering the definition at `i` keeps the bodies before it placed and places the new body up to its `FuncEnd` |
| CppLink.PlacedAdd | flinch.cpp:688 | the new entry `{i + 1, e - i, n}` describes the body from `i` to `e`, and the other entries keep their places |
| CppLink.RegisterFixedPlaced | flinch.cpp:653-711 | after the corrected registration loop every entry with a nonzero `len` has its `FuncDec n` at `loc - 1`, its `FuncEnd` at `loc - 1 + len` and no `LabelDec` between |
| CppLink.PlacedWiden | flinch.cpp:653 | bodies placed before one bound are placed before any later bound inside the program |
| CppLink.FixedStop | flinch.cpp:653 | the corrected loop stops at `Exit` or the end, returning its inputs |
| CppLink.FixedDefStep | flinch.cpp:657-688 | at a `FuncDec` the corrected loop registers it and resumes just after its `FuncEnd` |
| CppLink.FixedLabelStep | flinch.cpp:706-710 | at a root `LabelDec` the corrected loop records its index, erases it and looks at the same index again |
| CppLink.FixedOtherStep | flinch.cpp:653 | any other token is passed over |
| CppLink.PlacedKinds | flinch.cpp:713-724 | rewriting label fields alone keeps every body placed |
| CppLink.LinkFixedPlaced | flinch.cpp:648-726 | after the corrected link every function's `FuncDec` is at `loc - 1`, its `FuncEnd` at `loc - 1 + len`, with no `LabelDec` between |
| CppLink.StaleExampleFixed | flinch.cpp:698-711 | the corrected link on `a: f^ ^^` registers `f` at `{1, 1, 1}`, where its `FuncDec` is |
| CppLink.Peephole | flinch.cpp:616-646 | on a program without `Goto` or `IfGoto`, a successful fuser as written gives what the clamped one gives |
| CppLink.PeepholeFixed | flinch.cpp:616-646 | with the index clamped at 0, the fuser succeeds on every program ending in its only `Exit`, keeps that `Exit` last and never lengthens the program |
| CppLink.GotoFusesErase | flinch.cpp:619-624 | writing `GotoLabel n` over a lookup of `n` and erasing the `goto` leaves `GotoLabel n; Exit`, whether the lookup was of a label or a variable |
| CppLink.FixedKeepsVarGoto | flinch.cpp:619-624 | the corrected fuser leaves `$x goto` alone |
| CppLink.FixedFusesLabelGoto | flinch.cpp:619-624 | the corrected fuser turns `:t goto` into `GotoLabel t` |
| CppInterp.Zeros | flinch.cpp:735-737 | `vars_default` holds one zero per interned variable name |
| CppInterp.Start | flinch.cpp:735-747 | `interpret` starts at token 0 with empty stacks, zeroed globals and one shared array per string-reference literal |
| CppInterp.Pop | flinch.cpp:17-22 | `valpop()` fails exactly on an empty stack and otherwise returns the top and the stack below it |
| CppInterp.Push | flinch.cpp:749 | `valpush` puts exactly one value on top |
| CppInterp.AsRef | flinch.cpp:240-247 | `as_ref()` succeeds exactly on a reference and throws otherwise |
| CppInterp.AsLabel | flinch.cpp:240-247 | `as_label()` succeeds exactly on a label and throws otherwise |
| CppInterp.AsFunc | flinch.cpp:240-247 | `as_func()` succeeds exactly on a function value and throws otherwise |
| CppInterp.AsIntoInt | flinch.cpp:254-259 | `as_into_int()` gives an integer operand back and fails on every other value |
| CppInterp.Load | flinch.cpp:944-946 | reading through a reference succeeds exactly when it points into a live frame, the globals or an array |
| CppInterp.Store | flinch.cpp:944-946 | a store through a reference succeeds exactly on a valid place, and that place then reads back the stored value |
| CppInterp.NewArray | flinch.cpp:1078-1081 | a new array is a fresh handle whose elements are the given values, after every older array |
| CppInterp.ArrayOf | flinch.cpp:1086-1098 | an array value or a reference to one names an array that exists |
| CppInterpProps.AfterNoFuel | flinch.cpp:729-1165 | with no fuel left the machine stands still |
| CppInterpProps.ExitStays | flinch.cpp:1163-1164 | `Exit` stops the interpreter: running from it changes nothing |
| CppInterpProps.RunInCalls | flinch.cpp:886-941 | the threaded dispatch runs a call-family token by its handler and goes on from the handler's machine |
| CppInterpProps.RunInVars | flinch.cpp:908-921 | the dispatch runs a variable token by its handler and goes on |
| CppInterpProps.RunInJumps | flinch.cpp:923-926 | the dispatch runs a jump token by its handler and goes on |
| CppInterpProps.RunInOperators | flinch.cpp:966-982 | the dispatch runs an operator token by its handler and goes on |
| CppInterpProps.RunInValues | flinch.cpp:952-956 | the dispatch runs a literal, scope, string or built-in token by its handler and goes on |
| CppInterpProps.RunFuncDec | flinch.cpp:886-889 | `FuncDec n` moves the index forward by `funcs[n].len` |
| CppInterpProps.RunCall | flinch.cpp:928-941 | `Call` and `CallEval` run the call handler, which alone decides what follows |
| CppInterpProps.RunFuncEnd | flinch.cpp:894-899 | `FuncEnd` runs the unwinding handler |
| CppInterpProps.RunReturn | flinch.cpp:900-906 | `Return` runs the unwinding handler with the popped value |
| CppInterpProps.RunLocalVarLookup | flinch.cpp:910-911 | `LocalVarLookup n` pushes a reference to slot `n` of the current frame |
| CppInterpProps.RunAssign | flinch.cpp:943-946 | `Assign` pops the reference, then the value, and stores |
| CppInterpProps.RunAssignVar | flinch.cpp:948-950 | `AssignVar n` pops the value into slot `n` of the current frame |
| CppInterpProps.RunGoto | flinch.cpp:1006-1008 | `Goto` pops a label and continues at its index |
| CppInterpProps.RunGotoLabel | flinch.cpp:1009-1010 | `GotoLabel n` continues at index `n` without touching the stacks |
| CppInterpProps.RunIfGotoLabel | flinch.cpp:962-964 | `IfGotoLabel n` pops a condition and continues at `n` when it is true |
| CppInterpProps.RunIfGotoCmp | flinch.cpp:993-1004 | `IfGotoLabel<op> n` pops two values and jumps to `n` when they compare true |
| CppInterpProps.RunForLoopFull | flinch.cpp:983-991 | `ForLoopFull` runs its handler with the slot and limit from the token's extra fields |
| CppInterpProps.RunBin | flinch.cpp:1012-1051 | an `INFIX` operator token pops `b`, then `a`, and pushes `a OP b` |
| CppInterpProps.RunForLoopLabel | flinch.cpp:975-982 | `ForLoopLabel t` runs the shared `for` tail with destination `t` |
| CppInterpProps.RunIntegerInline | flinch.cpp:1053-1054 | `IntegerInline n` pushes the 32-bit field read as a signed value and never fails |
| CppInterpProps.RunLabelLookup | flinch.cpp:923-924 | `LabelLookup n` pushes the label `n` and never fails |
| CppInterpProps.RunIfGoto | flinch.cpp:958-961 | `IfGoto` pops the destination, then the condition |
| CppInterpProps.FuncDecLands | flinch.cpp:688 | with the entry registration writes, a `FuncDec` skips its body and lands just past its `FuncEnd` |
| CppInterpProps.CallProtocol | flinch.cpp:928-941 | a call throws unless a function value is on top; otherwise it records the return index and the wanted value, saves the caller's frame, starts a zeroed frame and jumps to the body |
| CppInterpProps.FuncEndProtocol | flinch.cpp:894-899 | `FuncEnd` restores the caller's frame, pops the call record, resumes at the recorded index, and pushes 0 exactly for a call that wants a value |
| CppInterpProps.FuncEndAtTopLevel | flinch.cpp:894-899 | `FuncEnd` with no call to return from is undefined |
| CppInterpProps.ReturnProtocol | flinch.cpp:900-906 | `Return` pops the value and unwinds as `FuncEnd` does, pushing the value back exactly for a call that wants one |
| CppInterpProps.CallThenFuncEnd | flinch.cpp:894-899 | a call followed by its callee's `FuncEnd` resumes after the call with the caller's frame and call records, and with a 0 on top exactly for `CallEval` |
| CppInterpProps.StoreOnlyThere | flinch.cpp:944-946 | storing to one place leaves every other valid place reading as before |
| CppInterpProps.StoreKeepsShape | flinch.cpp:944-946 | a store keeps the stacks and the size of every frame and array |
| CppInterpProps.AssignVarHandlers | flinch.cpp:910-950 | the handlers of `LocalVarLookup n; Assign` and of `AssignVar n` fail together and otherwise agree |
| CppInterpProps.AssignVarFusion | flinch.cpp:619-624 | the fused `AssignVar n` and the pair it replaces fail together and otherwise go on from the same machine, each past its own tokens |
| CppInterpProps.CmpJumpHandlers | flinch.cpp:962-964 | the handlers of `Cmp<op>; IfGotoLabel` and of `IfGotoLabel<op>` fail together and otherwise take the same branch |
| CppInterpProps.CmpJumpFusion | flinch.cpp:640-645 | the fused compare-and-jump and the pair it replaces fail together, and otherwise both jump or both fall through from the same machine |
| CppInterpProps.ForLoopFullHandlers | flinch.cpp:910-911 | the handlers of `LocalVarLookup x; IntegerInline k; ForLoopLabel t` and of `ForLoopFull` fail together and otherwise agree |
| CppInterpProps.LookupStep | flinch.cpp:910-911 | `LocalVarLookup n` either fails or goes on with the reference pushed |
| CppInterpProps.InlineStep | flinch.cpp:1053-1054 | `IntegerInline k` never fails |
| CppInterpProps.ForLabelStep | flinch.cpp:975-982 | `ForLoopLabel t` either fails or goes on from the machine the `for` tail leaves |
| CppInterpProps.ForTriple | flinch.cpp:910-911 | the three unfused `for` tokens run the lookup, push the limit and then run the shared tail |
| CppInterpProps.ForLoopFullFusion | flinch.cpp:631-639 | `ForLoopFull` and the three tokens it replaces fail together, and otherwise bump the slot by one and both jump or both fall through |
| CppInterpProps.LookupPushesRef | flinch.cpp:910-911 | `LocalVarLookup n` on a valid slot pushes the reference and goes on |
| CppInterpProps.GotoRefThrows | flinch.cpp:1006-1008 | `Goto` with a reference on top throws |
| CppInterpProps.LookupGotoThrows | flinch.cpp:910-911 | the unfused `$x goto` throws |
| CppInterpProps.GotoFusionChangesMeaning | flinch.cpp:619-624 | the unfused `$x goto` throws while its fused `GotoLabel` jumps to the variable's slot number |
| CppInterpProps.JumpThroughLabel | flinch.cpp:923-924 | `Goto` and `IfGoto` below a pushed label act as `GotoLabel` and `IfGotoLabel` to that label |
| CppInterpProps.LabelGotoFusion | flinch.cpp:923-924 | `:t goto` and `GotoLabel t` both go on at index `t` from the machine they started with |
| CppInterpProps.LabelIfGotoFusion | flinch.cpp:923-924 | `:t if_goto` and `IfGotoLabel t` fail together, and otherwise both jump or both fall through from the same machine |
| CppInterp.OnFuncDec | flinch.cpp:886-889 | `FuncDec n` succeeds exactly for a registered function and moves the index past its body |
| CppInterp.OnFuncLookup | flinch.cpp:891-892 | `FuncLookup n` succeeds exactly for a registered function and pushes it as a value |
| CppInterp.Unwind | flinch.cpp:894-906 | leaving a function succeeds exactly with a saved frame and a call record; it restores the caller's frame, pops the record and resumes at its index |
| CppInterp.OnFuncEnd | flinch.cpp:894-899 | `FuncEnd` succeeds exactly inside a call, resumes at the recorded index with the caller's frame and pushes 0 exactly when the call wants a value |
| CppInterp.OnReturn | flinch.cpp:900-906 | `Return` succeeds exactly inside a call with a value on the stack, and unwinds keeping that value exactly when the call wants one |
| CppInterp.OnCall | flinch.cpp:928-941 | a call succeeds exactly on a function value on top; it pops it, records the return index and whether a value is wanted, saves the caller's frame, starts a zeroed frame and jumps to the body |
| CppInterp.OnVar | flinch.cpp:1072-1076 | reading a variable succeeds exactly on a valid slot and pushes its value, changing nothing else |
| CppInterp.OnVarDec | flinch.cpp:908-916 | declaring a variable succeeds exactly on a valid slot and makes it read back 0, leaving the stack and index alone |
| CppInterp.OnVarLookup | flinch.cpp:910-918 | a lookup succeeds exactly on a valid slot, pushes a reference to it and otherwise reports a bad variable index |
| CppInterp.OnVarDecLookup | flinch.cpp:912-921 | declare-and-lookup succeeds exactly on a valid slot, makes it read back 0 and pushes a reference to it |
| CppInterp.OnAssign | flinch.cpp:943-946 | `Assign` throws when the top value is not a reference, succeeds exactly with two values and a valid reference on top, stores the value below through it and pops both |
| CppInterp.OnAssignVar | flinch.cpp:948-950 | `AssignVar n` succeeds exactly with a value and a valid slot, and moves the value into the slot |
| CppInterp.OnOpAssign | flinch.cpp:1018-1023 | `+=` and the like leave the referenced place holding its old value `OP` the operand, and pop both |
| CppInterp.OnGoto | flinch.cpp:1006-1008 | `Goto` succeeds exactly on a label on top, pops it and jumps to its index |
| CppInterp.OnIfGoto | flinch.cpp:958-961 | `IfGoto` succeeds exactly on a label over a non-double condition, pops both and jumps exactly when the condition is true |
| CppInterp.OnIfGotoLabel | flinch.cpp:962-964 | `IfGotoLabel d` succeeds exactly on a non-double condition, pops it and jumps to `d` exactly when it is true |
| CppInterp.OnIfGotoCmp | flinch.cpp:993-1004 | `IfGotoLabel<op> d` succeeds exactly when two values compare, pops both and jumps exactly when `val1 OP val2` |
| CppInterp.OnForLoop | flinch.cpp:966-973 | `ForLoop` throws on a non-label on top; a success found a reference to an integer and an integer limit, added one, popped all three and jumped exactly while the new value is at most the limit |
| CppInterp.ForStep | flinch.cpp:975-982 | a successful loop step found a reference to an integer under an integer limit, added one, popped both and jumped exactly while the new value is at most the limit |
| CppInterp.ForBump | flinch.cpp:966-973 | the shared loop tail throws on a non-integer limit before reading the variable; a success added one to an integer variable without overflow and jumped exactly while it is at most the limit |
| CppInterp.OnForLoopFull | flinch.cpp:983-991 | `ForLoopFull` adds one to a local integer slot and jumps exactly while it is at most the sign-extended limit from the token, leaving the stack alone |
| CppInterp.OnBin | flinch.cpp:1012-1051 | an infix operator succeeds exactly with two values it applies to and replaces them with `a OP b` |
| CppInterp.OnScopeClose | flinch.cpp:955-956 | `ScopeClose` succeeds exactly when a stack is saved and restores it, changing nothing else |
| CppInterp.OnArrayBuild | flinch.cpp:1078-1081 | `]` succeeds exactly when a stack is saved; the current stack's values become a new array pushed onto the restored stack |
| CppInterp.OnArrayIndex | flinch.cpp:1083-1098 | a successful index had an integer inside an array below it; an array is replaced by its element and a reference to an array by a reference to the element |
| CppInterp.OnClone | flinch.cpp:1100-1106 | a clone of an array (directly or through a reference) is a new array with the same elements; any other value is pushed as it is |
| CppInterp.OnArrayLen | flinch.cpp:1108-1124 | the length operators succeed exactly on an array or a reference to one and replace it with its length, less one for `ArrayLenMinusOne` |
| CppInterp.OnArrayPopOut | flinch.cpp:1126-1138 | a successful `@-` had an index inside the array, removed that element and left it in the array's place |
| CppInterp.OnArrayPushIn | flinch.cpp:1140-1152 | a successful `@+` had an index inside the array, popped all three values and inserted the value at that index |
| CppInterp.OnStringLiteral | flinch.cpp:1154-1155 | a string literal succeeds exactly for a known string and pushes a new array of its characters |
| CppInterp.Run | flinch.cpp:729-1165 | with no fuel left or at `Exit` the machine stays as it is, and an index outside the program is undefined |
| CppInterp.Dispatch | flinch.cpp:868-874 | one dispatch leaves a halted machine alone, is undefined outside the program and throws "unknown opcode" for a token with no handler |
| DynValue.Checked | flinch.cpp:209-211 | an integer result is kept exactly when it fits `int64_t`; signed overflow is undefined |
| DynValue.IntBin | flinch.cpp:196-227 | every integer operator yields an `int64_t` or undefined behaviour, never an exception |
| DynValue.Truthy | flinch.cpp:261-268 | `operator bool` fails only for a double, whose value the model does not keep |
| DynValue.Unary | flinch.hpp:185-194 | the unary operators always yield an integer |
| DynValue.BinaryKinds | flinch.cpp:196-230 | an operator throws exactly when an operand is not a number; two integers give an integer, and arithmetic with a double gives a double |
| DynValue.ArithExact | flinch.cpp:209-211 | `+`, `-` and `*` on integers compute the exact result whenever it fits, and are undefined otherwise |
| DynValue.DivModIdentity | flinch.cpp:212-213 | where both are defined, C's `/` and `%` satisfy quotient times divisor plus remainder equals dividend |
| DynValue.AddSubInverse | flinch.cpp:209-210 | `-` undoes `+` whenever the sum is defined |
| DynValue.XorTwice | flinch.cpp:227 | `^` with the same operand twice gives the first operand back |
| DynValue.BitNotIsNegMinusOne | flinch.hpp:194 | `~` on the `uint64_t` bits is `-x - 1` on every `int64_t` |
| DynValue.ShiftBack | flinch.cpp:222-223 | `<<` multiplies by a power of two when the product fits, and `>>` undoes it |
| DynValue.CompareThroughBinary | flinch.cpp:215-220 | a comparison tested directly agrees with the same comparison pushed as 0 or 1 and tested for truth |
| DynValue.CompareMirror | flinch.cpp:215-220 | swapping operands swaps `<` with `>` and `<=` with `>=`, keeps `==`, and `!=` is the negation of `==` |
| DynValue.TruthyIff | flinch.cpp:261-268 | an integer is true exactly when non-zero, and every non-number is true |
| MachineInt.SignExtend32 | flinch.cpp:1053-1054 | reading a 32-bit field as `iwordsigned_t` gives the `int32_t` congruent to it |
| MachineInt.SignExtendToU32 | flinch.cpp:1053-1054 | an `int32_t` stored in a 32-bit field and read back signed is unchanged |
| MachineInt.FloorMod | etc/flinch.py:163 | Python's `%` has the divisor's sign and completes floor division |
| MachineInt.Wrap64ToU64 | flinch.cpp:225-227 | an `int64_t` survives the trip through `uint64_t` |
| MachineInt.ToU64Wrap64 | flinch.cpp:225-227 | a 64-bit pattern survives the trip through `int64_t` |
| MachineInt.Xor64Twice | flinch.cpp:227 | `^` on the `uint64_t` bits, applied twice with the same operand, restores the first |
| MachineInt.FloorDiv | etc/flinch.py:158-160 | Python's `//` gives the quotient whose product with the divisor lies within one divisor of the dividend, on the dividend's side |
| MachineInt.ToU32 | flinch.cpp:561-580 | storing an integer in a 32-bit field keeps it modulo 2^32 |
| MachineInt.Bitwise64 | flinch.cpp:225-227 | `&`, `|`, `^` on two `int64_t` values give an `int64_t` |
| FlagHeap.PushC | etc/pf.c:45-60 | the pushed tree has the smaller of the two root keys at its root |
| FlagHeap.PushPy | etc/pf.py:29-42 | the pushed tree has the smaller of the two root keys at its root |
| FlagHeap.RootIsMin | etc/pf.py:32-35 | every key of a heap-ordered tree is at least the root's |
| FlagHeap.PushCElems | etc/pf.c:45-60 | the C `pushraw` keeps every pair of both trees and adds none |
| FlagHeap.PushCOrdered | etc/pf.c:45-60 | the C `pushraw` of two heap-ordered trees is heap-ordered |
| FlagHeap.PushPyFillElems | etc/pf.py:36-39 | filling an empty child keeps every pair |
| FlagHeap.PushPyDescends | etc/pf.py:40-42 | with both children present, the flag toggles and picks the child that receives the value |
| FlagHeap.PushPyElems | etc/pf.py:29-42 | the Python `pushraw` keeps every pair of both trees and adds none |
| FlagHeap.PushPyOrdered | etc/pf.py:29-42 | the Python `pushraw` of two heap-ordered trees is heap-ordered |
| FlagHeap.PushRawSpec | etc/pf.py:29-42 | either flavour of `pushraw` keeps the pairs of both trees and heap order |
| FlagHeap.Push | etc/pf.c:61-67 | `push` puts the smaller of the old root key and the new key at the root |
| FlagHeap.PushSpec | etc/pf.py:44-45 | `push` adds exactly the one pair and keeps heap order |
| FlagHeap.Pop | etc/pf.c:68-81 | `pop` fails exactly on an empty heap and otherwise returns the root pair |
| FlagHeap.PopSpec | etc/pf.py:47-52 | `pop` removes exactly the root pair and keeps heap order |
| FlagHeap.PopMin | etc/pf.c:68-81 | on a heap-ordered tree, `pop` yields a stored pair with the least key |
| FlagHeap.PushThenPop | etc/pf.py:44-52 | popping what was pushed onto an empty heap gives the pair back and leaves the heap empty |
| FlagHeap.FlavoursAgreeOnContents | etc/pf.py:29-42 | the Python and C `pushraw` store the same pairs and put the same key at the root |
| LcgGrid.PyLcg | etc/pf.py:6-9 | the Python generator's masked product is a 32-bit value |
| LcgGrid.CLcg | etc/pf.c:10-14 | the C generator's `uint32_t` arithmetic yields a 32-bit value |
| LcgGrid.LcgAgree | etc/pf.py:6-9 | the Python and C generators agree on every 32-bit seed |
| LcgGrid.GridOf | etc/pf.py:11-21 | the generated grid has `size * size` cells, each as `Cell` describes |
| LcgGrid.RowCol | etc/pf.py:17-21 | cell `r * size + c` is exactly the cell in row `r`, column `c` |
| LcgGrid.ClearedStep | etc/pf.py:17-21 | round `m` of the border loop clears column `m` of the outer rows and row `m` of the outer columns |
| LcgGrid.ClearedAll | etc/pf.py:17-21 | after all rounds a cell is cleared exactly when it is on the border |
| LcgGrid.FillRandom | etc/pf.c:18-19 | the first loop stores one draw per cell, in index order, and advances the seed once per cell |
| LcgGrid.ClearBorder | etc/pf.c:23-29 | the second loop zeroes exactly the border cells and leaves the rest |
| LcgGrid.GenerateGrid | etc/pf.c:16-30 | `generate_grid` fails exactly for size 0 and otherwise produces the grid `GridOf` describes, drawing `size * size` times |
| LcgGrid.StartEndInGrid | etc/pf.py:15-16 | the start and end cells are cells of every non-empty grid |
| LcgGrid.CellShape | etc/pf.py:11-21 | every cell is 0 or 1 and every border cell is 0 |
| LcgGrid.StartEndInterior | etc/pf.py:15-16 | from size 3 on, the start and end cells lie inside the border |
| LcgGrid.StartEndOpen | etc/pf.py:15-21 | from size 3 on, the start and end cells are open |
| LcgGrid.TinyGridIsWall | etc/pf.py:17-21 | with one or two cells a side, every cell is a wall |
| FlagHeap.PushRaw | etc/pf.py:29-42 | merging a node into a heap in either flavour gives a node whose key is the smaller of the two roots' keys |
| GridDijkstra.Index | etc/pf.py:76-81 | a list index names a cell exactly when it is in range, and in Python also when it counts back from the end |
| GridDijkstra.Relax | etc/pf.py:74-82 | relaxing one neighbour fails exactly on an index outside the list, and keeps one distance per cell |
| GridDijkstra.RelaxAll | etc/pf.c:114-125 | the neighbour loop keeps one distance per cell |
| GridDijkstra.Step | etc/pf.py:64-82 | one iteration stops with -1 exactly on an empty heap and otherwise keeps one distance per cell |
| GridDijkstra.Init | etc/pf.c:85-94 | the search starts with every distance infinite but the start's, which is 0, and only `(0, start)` in the heap |
| GridDijkstra.ReachStep | etc/pf.py:23-27 | a walk extends by one move to an open neighbour |
| GridDijkstra.EntriesReachAdd | etc/pf.py:82 | adding one reached entry to a heap of reached entries keeps every entry reached |
| GridDijkstra.EntriesReachPush | etc/pf.py:82 | pushing a reached entry keeps every entry reached |
| GridDijkstra.PushNeighborReach | etc/pf.py:78-82 | pushing an open neighbour of a reached cell at one more move keeps every entry reached |
| GridDijkstra.RelaxReach | etc/pf.py:75-82 | relaxing a neighbour of a reached cell pushes only reached entries |
| GridDijkstra.RelaxAllReach | etc/pf.py:74-82 | the neighbour loop pushes only reached entries |
| GridDijkstra.PopEntries | etc/pf.py:65 | a pop returns a stored entry and keeps only stored entries |
| GridDijkstra.PopReach | etc/pf.py:65 | popping a heap of reached entries yields a reached entry and leaves reached entries |
| GridDijkstra.NeighborsAdjacent | etc/pf.py:23-27 | `get_neighbors` lists only the four neighbours |
| GridDijkstra.StepReach | etc/pf.py:64-82 | an iteration keeps every heap entry reached, and a cost it returns is the length of a walk to the end |
| GridDijkstra.RunReach | etc/pf.py:64-84 | whatever the loop returns as a cost is the length of some walk from the start to the end |
| GridDijkstra.DijkstraSound | etc/pf.py:54-84 | `dijkstra` returns -1 or the length of a walk from the start to the end through open cells, in both flavours |
| GridDijkstra.LowerOne | etc/pf.py:80-81 | lowering one open cell's distance only lowers distances |
| GridDijkstra.LowerNone | etc/pf.py:70-71 | leaving the distances alone lowers nothing |
| GridDijkstra.RelaxSpec | etc/pf.py:75-82 | relaxing lowers only that neighbour, only to `k + 1`, only on a strict improvement of an open cell, and then pushes exactly `(k + 1, nb)` |
| GridDijkstra.RelaxAllLowers | etc/pf.c:114-125 | the neighbour loop only lowers distances, and never at a wall |
| GridDijkstra.StepLowers | etc/pf.c:97-125 | an iteration only lowers distances, and a stale entry is dropped with the distances untouched |
| GridDijkstra.RelaxAllOrdered | etc/pf.c:114-125 | the neighbour loop keeps the heap ordered |
| GridDijkstra.StepOrdered | etc/pf.c:97-125 | an iteration keeps the heap ordered, so every pop takes an entry of least distance |
| GridDijkstra.InteriorNeighbors | etc/pf.c:109-113 | the four neighbours of an interior cell are cells of the grid |
| GridDijkstra.GeneratedIsWalled | etc/pf.c:23-29 | the generated grid has walls all round its border |
| GridDijkstra.EntriesInteriorPush | etc/pf.c:123 | pushing an interior cell keeps every entry interior |
| GridDijkstra.RelaxAllInterior | etc/pf.c:114-125 | on a walled grid the neighbour loop never faults and pushes only interior cells |
| GridDijkstra.StepInterior | etc/pf.c:97-125 | on a walled grid an iteration from interior entries never faults and keeps the entries interior |
| GridDijkstra.RunInterior | etc/pf.c:97-126 | on a walled grid the loop never indexes outside the grid |
| GridDijkstra.DijkstraSafe | etc/pf.c:83-131 | from size 3 on, `dijkstra` on a walled grid never indexes outside the grid: Python never wraps a negative index and C never reads past the buffer |
| GridDijkstra.GeneratedGridSafe | etc/pf.c:83-131 | in particular on every grid `generate_grid` makes |
| GridDijkstra.StartIsEndAtSize3 | etc/pf.py:55-68 | on a 3 by 3 grid the start is the end, so the first pop returns 0 |
| GridDijkstra.Run | etc/pf.py:64-84 | the loop returns -1 as soon as the heap is empty, and with no steps left the model reports running out rather than a cost |
| GridDijkstra.Dijkstra | etc/pf.py:54-68 | a start cell outside the grid faults; otherwise the first pop is the start at distance 0, so a start that is the end returns 0 |
| ShortStr.Eq | types.hpp:55-65 | `operator==` is true exactly when the byte strings are equal |
| ShortStr.CommonPrefix | types.hpp:80-88 | the result is the length of the longest common prefix: the prefixes agree and the next bytes differ |
| ShortStr.CommonPrefixUnique | types.hpp:80-88 | any position where the prefixes agree and then stop agreeing is the common prefix |
| ShortStr.Lt | types.hpp:80-88 | `operator<` is lexicographic order: the first differing byte decides, else the shorter string comes first |
| ShortStr.LexLessIrreflexive | types.hpp:80-88 | no string is below itself |
| ShortStr.LexLessTrichotomy | types.hpp:80-88 | exactly one of `a < b`, `a == b`, `b < a` holds |
| ShortStr.LexLessTransitive | types.hpp:80-88 | `operator<` is transitive |
| ShortStr.CLength | types.hpp:139-143 | the length is the index of the first NUL, with no NUL before it |
| ShortStr.FromCStr | types.hpp:139-146 | construction from a C string succeeds exactly when the length passes the assertion, and copies the bytes up to the NUL |
| ShortStr.AppendBytes | types.hpp:90-98 | the append loop fails exactly when the assertion trips, and otherwise concatenates |
| ShortStr.Append | types.hpp:90-98 | `+=` fails exactly when the result would not fit, and otherwise concatenates |
| ShortStr.AppendChar | types.hpp:99-105 | appending NUL appends nothing; any other byte is appended when it fits |
| ShortStr.DropNulAppend | types.hpp:99-130 | dropping NULs distributes over appending one byte |
| ShortStr.CopyChars | types.hpp:128-130 | the copy loop of `substr` appends the bytes of the range with NULs dropped |
| ShortStr.SizeMinus | types.hpp:121-122 | `size - pos` in `size_t` is the difference, or wraps once below zero |
| ShortStr.NegativeStart | types.hpp:123-124 | a `pos` with its sign bit set is moved forward by `size` in `size_t` |
| ShortStr.Substr | types.hpp:119-132 | `substr` never returns more bytes than the string has |
| ShortStr.SubstrForward | types.hpp:119-132 | a forward `substr` returns the bytes `[pos, pos + min(len, size - pos))`, or nothing from a start at or past the end |
| ShortStr.SubstrToEnd | types.hpp:121-122 | with the default `len`, a forward `substr` runs to the end |
| ShortStr.FromEndStart | types.hpp:121-124 | a `pos` of `-k` starts `size - k` bytes in, or stays negative when `k > size` |
| ShortStr.SubstrCopies | types.hpp:119-132 | from a start inside the string, `substr` copies `min(len, size - start)` bytes |
| ShortStr.SubstrFromEnd | types.hpp:123-126 | a `pos` of `-k` starts `k` bytes before the end, or gives nothing when `k > size` |
| ShortStr.SubstrFromEndToEnd | types.hpp:121-126 | with the default `len`, a `pos` of `-k` gives the last `k` bytes |
| ShortStr.SubstrPrefix | types.hpp:119-132 | cutting the first `|a|` bytes of `a + b` gives `a` back |
| ShortStr.SubstrSuffix | types.hpp:119-132 | cutting from `|a|` to the end of `a + b` gives `b` back |
| ShortStr.AppendThenSubstr | types.hpp:90-132 | on strings without NUL, appending and then cutting gives both parts back |
| PodVec.New | types.hpp:162-166 | a new vector is empty and its buffer consistent |
| PodVec.Filled | types.hpp:167-173 | `PODVec(count, value)` holds `count` copies of the value |
| PodVec.Grow | types.hpp:243-247 | the capacity stays while the length fits, and otherwise grows to at least the length by the growth factor |
| PodVec.PushBack | types.hpp:241-254 | `push_back` appends exactly the item, never shrinks the capacity, and keeps it while the length fits |
| PodVec.PopBack | types.hpp:271-277 | `pop_back` fails exactly on an empty vector and otherwise removes and returns the last element, keeping the buffer |
| PodVec.InsertAt | types.hpp:279-297 | `insert_at` puts the item at the index and shifts the tail up by one |
| PodVec.EraseAt | types.hpp:298-303 | `erase_at` removes exactly the element at the index, keeping the capacity |
| PodVec.At | types.hpp:238-239 | `at` succeeds exactly in range and returns that element |
| PodVec.PushThenPop | types.hpp:241-277 | popping right after pushing gives back the element and the elements from before |
| PodVec.InsertThenErase | types.hpp:279-303 | erasing the element just inserted restores the elements, and reading it back yields it |
| PodVec.GrowthIsGeometric | types.hpp:159 | with a growth factor of at least 11, a capacity that must grow grows by at least one tenth |
| PodVec.CopyAssignAsWritten | types.hpp:192-202 | copy assignment copies the elements and the capacity field |
| PodVec.CopyConstructAsWritten | types.hpp:174-182 | the copy constructor fails exactly when the source holds more elements than its capacity |
| PodVec.Copy | types.hpp:174-202 | the intended copy holds the same elements and capacity in a buffer that fits both |
| PodVec.CopyThenPush | types.hpp:174-202 | pushing onto a correct copy behaves like pushing onto the original |
| PodVec.CopyAssignOverflows | types.hpp:192-202 | copy assignment is safe exactly when there is no spare capacity; otherwise the next push writes past the new buffer |
| PodVec.CopyConstructEmptyOverflows | types.hpp:174-182 | copying an emptied vector that kept its capacity, then pushing, writes through no buffer |
| PodVec.CopyConstructFilledOverflows | types.hpp:167-182 | copying a vector made by `PODVec(count, value)` copies `count` elements into an empty buffer |
| PodVec.CopyConstructNonEmptySafe | types.hpp:174-182 | the copy constructor is safe on every non-empty vector within its capacity |
| PodVec.CapacityAsWritten | types.hpp:213 | `capacity()` as written returns the length |
| PodVec.Capacity | types.hpp:164 | the capacity the vector keeps |
| PodVec.CapacityReportsLength | types.hpp:213 | whenever the buffer has spare room, `capacity()` as written under-reports it |
| ListMap.Search | types.hpp:322-331 | the search result lies in `[a, b]` |
| ListMap.BsearchUp | types.hpp:322-331 | `bsearch_up` ends where `f` holds just before and fails at the result; on a true-then-false `f` that is the boundary |
| ListMap.SearchBelow | types.hpp:325-328 | whatever `f` is, it holds just before a result past `a` |
| ListMap.SearchAt | types.hpp:325-329 | whatever `f` is, it fails at a result before `b` |
| ListMap.SearchSplits | types.hpp:322-331 | on a true-then-false `f`, the result splits the range into the true part and the false part |
| ListMap.SearchMonotone | types.hpp:322-331 | the recursion respects a true-then-false comparator |
| ListMap.ShortStringOrder | types.hpp:80-88 | `ShortString::operator<` is a strict total order, as the map's search needs |
| ListMap.GetAt | types.hpp:333-334 | the first entry with a key is the one the map denotes |
| ListMap.GetAbsent | types.hpp:333-334 | a key on no entry is absent |
| ListMap.GetPresent | types.hpp:333-334 | a key that is found sits on some entry |
| ListMap.GetNone | types.hpp:333-334 | a key that is missed sits on no entry |
| ListMap.SortedGet | types.hpp:333-334 | in a sorted list, the entry at any index is found |
| ListMap.Slot | types.hpp:350-351 | on any list, the slot is at most the list's length, the key just before it is below `k` and the key at it is not |
| ListMap.SlotSpec | types.hpp:350-351 | on a sorted list, the slot splits the keys below `k` from the rest |
| ListMap.SlotFinds | types.hpp:352 | `k` is present exactly when the entry at its slot carries it |
| ListMap.Count | types.hpp:358-363 | `count` is at most 1 |
| ListMap.CountSpec | types.hpp:358-363 | on a sorted list, `count(k)` is 1 exactly when `k` is present |
| ListMap.Place | types.hpp:373-378 | `insert` adds at most one entry |
| ListMap.Insert | types.hpp:367-379 | `insert` adds at most one entry |
| ListMap.PlaceLayout | types.hpp:373-378 | the new entry sits at the slot or at the end, and every other entry moves up by one or stays |
| ListMap.InsertSorted | types.hpp:367-379 | insertion keeps the keys strictly sorted |
| ListMap.PlaceSorted | types.hpp:373-378 | placing an entry at the boundary keeps a sorted list sorted |
| ListMap.InsertFrame | types.hpp:367-379 | insertion leaves the lookup of every other key unchanged |
| ListMap.InsertSpec | types.hpp:367-379 | insertion updates the denoted map at `k` and nowhere else, adding an entry exactly when `k` was absent |
| ListMap.IndexSpec | types.hpp:348-357 | `operator[]` keeps the list sorted and the returned value is what the map now holds for `k` |
| PodVec.Realloc | types.hpp:249-250 | the buffer after a capacity update is the old one or one of the new capacity, and it holds the new capacity whenever the old buffer held the old one |
| ListMap.Index | types.hpp:348-357 | `operator[]` either returns a value already stored under `k`, leaving the map alone, or inserts `k` with the default |
| ShuntingYard.GroupEnd | flinch.hpp:425-431 | the inner loop entered at an opening paren consumes at least that paren and stops inside the texts |
| ShuntingYard.Unstack | flinch.hpp:438-439 | exactly the top run of stacked operators that bind at least as tightly as the incoming one moves to the output, top first; the operator left on top, if any, binds strictly looser; the output plus the reversed stack is unchanged |
| ShuntingYard.Scan | flinch.hpp:423-446 | the loop fails only with the missing-closing-paren exception, and when it succeeds it stops at a `)` at or after where it started |
| ShuntingYard.Erase | flinch.hpp:407-408 | `erase_at` removes exactly index `k`: the elements before it stay and the ones after it move down by one |
| ShuntingYard.Order | flinch.hpp:405-446 | the `)` the scan stops at, in the texts with the `(` erased, is the text one place later in the original texts |
| ShuntingYard.Permute | flinch.hpp:449-460 | the parallel move puts the text at `nums[j]` at position `start + j` and leaves everything outside the group alone |
| ShuntingYard.ScanPermutes | flinch.hpp:423-443 | the output is the earlier output, the stacked operators and the indices scanned up to the `)`, each exactly once |
| ShuntingYard.UnstackMultiset | flinch.hpp:438-439 | moving operators from the stack to the output neither loses nor duplicates one |
| ShuntingYard.OrderPermutes | flinch.hpp:421-443 | the order holds each index between the `(` and the `)` exactly once |
| ShuntingYardProps.ScanOperandOrder | flinch.hpp:423-443 | operands, and the texts of nested groups, are emitted in increasing index order from any state that keeps the scan's invariant |
| ShuntingYardProps.OrderOperandsInOrder | flinch.hpp:425-434 | operands, and the texts of nested groups, leave the group in the order they came in |
| ShuntingYardProps.PushKeepsRising | flinch.hpp:438-440 | after unstacking, pushing the incoming operator keeps the stack strictly rising in precedence, so equal precedence pops first (left associativity) |
| ShuntingYardProps.RewriteShape | flinch.hpp:456-463 | erasing the `(`, permuting the group and erasing the `)` keeps the prefix, puts the picked texts in the group and moves the suffix down by two |
| ShuntingYardProps.RewriteOk | flinch.hpp:405-464 | the rewrite fails exactly when the scan fails or `lines` is too short to erase the group's ends |
| ShuntingYardProps.RewriteSpec | flinch.hpp:449-463 | the texts before the `(` stay, the group's texts and their lines appear in the scan's order where the `(` was, and everything after the `)` moves down by two |
| ShuntingYardProps.RewriteParallel | flinch.hpp:448-463 | with `lines` as long as the texts, the rewrite throws only for a missing `)` and keeps texts and lines the same length |
| ShuntingYardProps.NoCloseThrows | flinch.hpp:445-446 | without a `)` after the `(` the rewrite throws the missing-paren exception |
| ShuntingYardProps.RewritePermutesGroup | flinch.hpp:449-460 | the rewritten group holds the same texts as before, each as often |
| ShuntingYardProps.ScanFirstPair | flinch.hpp:433-440 | an operand followed by an operator on an empty stack: the operand goes out and the operator waits |
| ShuntingYardProps.ScanNextPair | flinch.hpp:433-440 | with an operator waiting, the next operand goes out, and the waiting operator goes out before the new one unless the new one binds strictly tighter |
| ShuntingYardProps.ScanLast | flinch.hpp:433-443 | a last operand and the `)`: the operand goes out, then the whole stack from the top down |
| ShuntingYardProps.TighterFirst | flinch.hpp:410-443 | `( a + b * c )` is emitted as `a b c * +` |
| ShuntingYardProps.LeftAssociative | flinch.hpp:438-439 | `( a - b + c )` is emitted as `a b - c +` |
| ShuntingYardProps.RewriteFive | flinch.hpp:449-463 | with the order known, the five texts of `( a o b o c )` and their lines land in that order |
| HppClassify.TrivialOp | flinch.hpp:466-525 | every text in the `trivial_ops` table maps to an operation token that carries no label and is not `Exit` |
| HppClassify.ScopeShape | flinch.hpp:536-581 | each text acts on the declaration stack as a push, a pop, a declaration, a declaring lookup, or not at all |
| HppClassify.CharToken | flinch.hpp:612-622 | a character literal fails exactly when it has four characters and no backslash; otherwise it is an `IntegerInline` whose sign-extended immediate is the character's value, escapes decoded |
| HppClassify.DoubleToken | flinch.hpp:646-656 | a `double` whose low 32 bits are zero becomes `DoubleInline` of the high half without touching the tables; any other becomes `Double` indexing its interned bit pattern |
| HppClassify.LiteralToken | flinch.hpp:622-668 | the final branch only ever adds entries to the interning tables |
| HppClassify.FuncToken | flinch.hpp:536-543 | `name^`, `.name` and `^name` give the requested kind with the index of the interned function name, changing no other table |
| HppClassify.LabelToken | flinch.hpp:583-586 | `:name` and `name:` give the requested kind with the index of the interned label name, changing no other table |
| HppClassify.DeclToken | flinch.hpp:552-571 | a declaration is local exactly when a function definition is open, and carries the index of the interned variable name |
| HppClassify.UseToken | flinch.hpp:572-581 | a variable use succeeds exactly when the name resolves on the declaration stack, gets the kind the resolution picks and the interned name's index, and fails with the resolution's error otherwise |
| HppClassify.StrLitToken | flinch.hpp:591-598 | `"..."*` gives a `StringLiteral` indexing the interned bytes of its body |
| HppClassify.StrRefToken | flinch.hpp:599-606 | `"..."` gives a `StringLitReference` to a freshly appended entry holding its body's bytes |
| HppClassify.TokenFor | flinch.hpp:536-668 | a classified text never yields `Exit`, and the tables only grow |
| HppClassify.ClassifyText | flinch.hpp:536-668 | one text updates the declaration stack as its shape says, yields the token `TokenFor` gives, never `Exit`, and never faults on `lines` |
| HppClassifyProps.PlainCharLiteral | flinch.hpp:614 | a plain literal of an ASCII character is that character's code |
| HppClassifyProps.EscapedCharLiteral | flinch.hpp:616-620 | `\n`, `\r`, `\t` and `\\` mean 10, 13, 9 and 92; a backslash before any other ASCII character means that character |
| HppClassifyProps.UnescapedPairRejected | flinch.hpp:615 | a four-character literal without the backslash throws |
| HppClassifyProps.IntLiteralValue | flinch.hpp:624-644 | an integer literal compiles to the encoder's token, and reading it with the decoder that uses the encoder's constants gives back the value `stoll` read |
| HppClassifyProps.DoubleInlineHalf | flinch.hpp:651-652 | a `double` whose low 32 bits are zero is inline, with the high half as immediate |
| HppClassifyProps.ScopeShapes | flinch.hpp:527-668 | the shapes the declaration stack sees, one per classified text |
| HppClassifyProps.CompiledStep | flinch.hpp:527-668 | classifying one more text keeps the invariant: one token per text, none `Exit`, the declaration stack the fold over the texts builds, and each `$x` resolved against the texts before it |
| HppClassifyProps.LookupStep | flinch.hpp:572-581 | the token of a `$x` text is the lookup the declaration stack of the texts before it resolves to |
| HppClassifyProps.LoadSync | flinch.hpp:527-670 | the corrected loop keeps `lines` parallel to the texts, never faults on `lines`, and on success has compiled the texts before where it stopped, one token each, followed by `Exit` |
| HppClassifyProps.LoadWell | flinch.hpp:527-670 | the corrected loop from the start with parallel `lines` never faults on `lines`, and its result is well formed |
| HppClassifyProps.TwoSkipsAtEnd | flinch.hpp:533-534 | as written, two skipped texts at the end erase past the end of `lines`; the corrected loop compiles the empty program |
| HppClassify.NamedToken | flinch.hpp:536-586 | a name, `FuncEnd` or `Return` never classifies to `Exit`, and the tables only grow |
| HppClassify.Load | flinch.hpp:527-670 | a successful corrected load yields a program whose last token is `Exit` |
| HppClassify.LoadAsWritten | flinch.hpp:527-670 | a successful load as written yields a program whose last token is `Exit` |
| HppClassify.LoadFromEnds | flinch.hpp:527-670 | from any point of the loop, a success extends the program built so far and ends it with `Exit` |
| HppClassify.LoadEndsParen | flinch.hpp:531-532 | after a `(` is rewritten, the rest of the loop still ends the program with `Exit` |
| HppClassify.LoadEndsSkip | flinch.hpp:533-534 | after a skipped text, the rest of the loop still ends the program with `Exit` |
| HppClassify.LoadEndsClassify | flinch.hpp:536-668 | after a classified text, the rest of the loop still ends the program with `Exit` |
| HppClassify.LoadClassifyStep | flinch.hpp:536-668 | a classified text either stops the loop with the classifier's fault or appends its token and goes on with the next text |
| HppClassify.LoadParenStep | flinch.hpp:531-532 | a `(` that the loop gets past was rewritten into texts two shorter, and the loop goes on at the same index |
| HppClassify.LoadSkipStep | flinch.hpp:533-534 | a skipped text that the loop gets past has a line; as written its line is erased and the index moves on, and corrected its text and line are both erased |
| HppClassify.VarToken | flinch.hpp:552-581 | a variable declaration or use never classifies to `Exit`, and the tables only grow |
| HppLink.FuseIntInline | flinch.hpp:685-690 | the rewrite fires only on a still-valid `IntegerInline; <arith>` pair and then steps the index back by one; otherwise the program and index are unchanged |
| HppLink.FuseDubInline | flinch.hpp:691-696 | the rewrite fires only on a still-valid `DoubleInline; <arith>` pair and then steps the index back by one; otherwise nothing changes |
| HppLink.FuseOpAssign | flinch.hpp:697-702 | the rewrite fires only on a still-valid `LocalVarLookup; <arith>=` pair and then steps the index back by one; otherwise nothing changes |
| HppLink.FuseVar | flinch.hpp:703-708 | the rewrite fires only on a still-valid pair starting with `LocalVarLookup` and then steps the index back by one; otherwise nothing changes |
| HppLink.FuseVarFixed | flinch.hpp:703-708 | the corrected pair rewrite: it fires only on a still-valid pair and then steps back by one; otherwise nothing changes |
| HppLink.FuseForLocal | flinch.hpp:716-724 | the triple rewrite fires only on a still-valid position with two tokens after it and then steps back by one; otherwise nothing changes |
| HppLink.FuseArith | flinch.hpp:685-702 | the three arithmetic fusions, tried in order, either leave program and index alone or remove one token and step back by one |
| HppLink.FuseFlow | flinch.hpp:703-731 | the jump, loop and compare fusions, tried in order, either leave the program alone or shorten it with the index stepping back |
| HppLink.FuseAll | flinch.hpp:683-731 | one pass of the fuser's loop body either leaves program and index alone or shortens the program with the index stepping back |
| HppLink.Declare | flinch.hpp:761-762 | a local declaration whose name has no slot yet gets the next slot number, and every earlier slot is kept |
| HppLink.CollectBody | flinch.hpp:754-763 | the first body loop stops at a `FuncEnd` at or after its start, never lengthens the program, keeps the tokens before the body and never takes slots back |
| HppLink.Slot | flinch.hpp:772 | `varnames_set[v]` is the slot of a declared name, and 0 for a name never declared |
| HppLink.Relocate | flinch.hpp:769-783 | a token keeps its kind; slot fields become slots; a label use gets the recorded location, and throws exactly when the label was never declared in the body |
| HppLink.ResolveBody | flinch.hpp:766-784 | the second body loop stops at a `FuncEnd`, keeps the program length and changes nothing outside the body |
| HppLink.RegisterOne | flinch.hpp:744-790 | registering a definition keeps everything up to its `FuncDec`, returns a `FuncEnd` index after it, and keeps the function table's size |
| HppLink.Register | flinch.hpp:742-796 | the registration loop never lengthens the program and keeps the sizes of the function and root-label tables |
| HppLink.SkipDef | flinch.hpp:802 | the root pass jumps from a `FuncDec` to its last body token by the function's `len`, and stays put on other tokens |
| HppLink.RootResolve | flinch.hpp:800-811 | the root pass keeps the program length |
| HppLink.Link | flinch.hpp:733-811 | linking yields one function entry per function name and never lengthens the program |
| HppLinkProps.ExitLastTriple | flinch.hpp:716-724 | replacing three tokens by one non-`Exit` token keeps the program ending in its only `Exit` |
| HppLinkProps.FuseArithExitLast | flinch.hpp:685-702 | the arithmetic fusions keep the program ending in its only `Exit` |
| HppLinkProps.FuseFlowExitLast | flinch.hpp:703-731 | the jump, loop and compare fusions keep the program ending in its only `Exit` |
| HppLinkProps.PeepholeSafe | flinch.hpp:683-731 | on a program that ends in its only `Exit`, the fuser as written or corrected never fails, keeps that shape and never lengthens the program |
| HppLinkProps.FuseArithNoJumps | flinch.hpp:685-702 | the arithmetic fusions never introduce a `Goto` or `IfGoto` |
| HppLinkProps.FuseVarAgrees | flinch.hpp:703-708 | on a program without jumps the corrected pair fusion is the one as written, and leaves no jump behind |
| HppLinkProps.FuseFlowAgrees | flinch.hpp:703-731 | on a program without jumps the corrected and as-written flow fusions coincide and leave no jump behind |
| HppLinkProps.PeepholeAgrees | flinch.hpp:683-731 | on a program without `Goto` or `IfGoto` the corrected fuser gives what the fuser as written gives |
| HppLinkProps.GotoFusionKeepsVarId | flinch.hpp:703-708 | as written, `$x goto` fuses to `GotoLabel x`, carrying a variable id where label resolution expects a label id |
| HppLinkProps.GotoFusionFixed | flinch.hpp:703-708 | the corrected fuser leaves `$x goto` unfused and fuses `:t goto` into `GotoLabel t` |
| HppLinkProps.LoopFusionAtStart | flinch.hpp:709-724 | `$i 10 :top inc_goto_until` at the very start fuses to a single `ForLoopLocal`, the index passing through -1 |
| HppLinkProps.LoopExampleFuses | flinch.hpp:709-724 | at index 2 the loop fusion fires and steps back twice, then the triple fusion fires at index 0 |
| HppLinkProps.DeclareDense | flinch.hpp:761-762 | declaring keeps the slot numbering dense: distinct names, distinct slots, all below the count |
| HppLinkProps.NumberDense | flinch.hpp:754-763 | numbering a whole body keeps the slots already handed out and keeps the numbering dense |
| HppLinkProps.NumberKeys | flinch.hpp:761-762 | the numbering gives a slot to every name the body declares and to no other name |
| HppLinkProps.ResolveBodyFaithful | flinch.hpp:766-784 | the second body loop stops at the first `FuncEnd` and relocates every token before it |
| HppLinkProps.ResolveBodyUnknown | flinch.hpp:777-783 | a label use before the first `FuncEnd` whose label the body never declared makes the pass throw |
| HppLinkProps.RegisterOneValue | flinch.hpp:744-790 | a successful registration found the entry free and both body loops succeeded, and the new entry is `{i + 1, e - i, vn}` |
| HppLinkProps.RegisterBody | flinch.hpp:754-784 | after both body loops, no `LabelDec` is left in the body, every label use points inside it, and every local declaration has a slot below the count |
| HppLinkProps.RegisterRedefined | flinch.hpp:746-747 | registering a definition whose entry is already taken throws "Redefined function" |
| HppLinkProps.PlacedRegisterOne | flinch.hpp:744-790 | the `FuncDec` branch: after registering the definition at `i`, every earlier function is still placed, the new entry `{i + 1, e - i}` has its `FuncDec` at `i` and its `FuncEnd` at `e` with no `LabelDec` between, and every jump in a registered body lands inside that body |
| HppLinkProps.RegisterPlaced | flinch.hpp:742-796 | the registration loop places every function where its entry says and keeps every jump inside its body |
| HppLinkProps.RegisterLabelStep | flinch.hpp:791-795 | a root `LabelDec` records its own index as the root label and is erased, and the loop goes on at the same index |
| HppLinkProps.RegisterOtherStep | flinch.hpp:742-796 | any other token is stepped over unchanged |
| HppLinkProps.RootResolveKeeps | flinch.hpp:800-811 | the root pass changes only the label fields of label uses |
| HppLinkProps.LinkPlaced | flinch.hpp:733-811 | after linking, each function's `FuncDec` is at `loc - 1` and its `FuncEnd` at `loc - 1 + len`, its body holds no `LabelDec`, and each local declaration has a slot below `vars` |
| HppLinkProps.PlacedKinds | flinch.hpp:800-811 | rewriting label fields only keeps every function placed |
| HppLink.Peephole | flinch.hpp:682-731 | the fuser as written only ever removes tokens |
| HppLink.PeepholeFixed | flinch.hpp:682-731 | the corrected fuser only ever removes tokens |
| HppLink.Triple | flinch.hpp:716-724 | the triple rewrite puts the fused token at `i`, keeps what precedes it and moves what follows the triple down by two |
| HppLink.FuseJump | flinch.hpp:703-708 | either jump fusion, as written or corrected, never lengthens the program and never moves the index forward |
| HppInterp.Start | flinch.hpp:863-885 | the machine starts at token 0 with empty stacks, the globals and the top-level frame each holding one zero per variable name, and as many arrays as there are string-reference literals |
| HppInterp.Pop | flinch.hpp:889 | `valpop()` fails exactly on an empty stack, and otherwise returns the top value and the stack below it |
| HppInterp.Back | flinch.hpp:890 | `valback()` fails exactly on an empty stack, and otherwise is the top value |
| HppInterp.SetBack | flinch.hpp:890 | assigning to `valback()` replaces the top value and keeps everything below |
| HppInterp.Need | flinch.hpp:887 | `valreq(k)` throws exactly when fewer than `k` values are on the stack |
| HppInterp.AsIntoInt | flinch.hpp:217-222 | `as_into_int()` succeeds on an integer with its value; a double is not computed and anything else throws |
| HppInterp.Load | flinch.hpp:110-116 | reading through a reference succeeds exactly on a live frame's slot, a global or an array element in range |
| HppInterp.Store | flinch.hpp:1001 | writing through a reference succeeds exactly where reading does, makes the place read back the value, and leaves every other place and the stacks unchanged |
| HppInterp.Slot | flinch.hpp:1116 | `varstack_raw[n]` is the read of the current frame's slot `n`, undefined past the frame |
| HppInterp.SetSlot | flinch.hpp:1004 | `varstack_raw[n] = v` is the write of the current frame's slot `n`, undefined past the frame |
| HppInterp.ArrayOf | flinch.hpp:224-229 | `as_array_ptr_thru_ref()` gives an array's own handle, or the array a reference points at; any other value throws |
| HppInterp.At | flinch.hpp:1156 | `items.at(n)` succeeds exactly for an index inside the array, and aborts otherwise |
| HppInterp.OnFuncDec | flinch.hpp:942-945 | a `FuncDec` jumps forward by its function's `len` |
| HppInterp.CalleeOf | flinch.hpp:947-948 | the function value of entry `n` carries its `loc` and `varcount` |
| HppInterp.Enter | flinch.hpp:983-988 | a call pushes the return index and the current frame, installs a fresh frame of `varcount` zeros and jumps to the body, leaving the value stacks, globals and arrays alone |
| HppInterp.OnFuncEnd | flinch.hpp:950-955 | returning fails exactly when there is no saved frame or return index to pop |
| HppInterp.ForBump | flinch.hpp:1018-1025 | a successful loop step found integers, added one to the variable, and jumped exactly when the new value is below the limit |
| HppInterp.OnForLoopLocal | flinch.hpp:1035-1042 | a successful local loop step added one to the slot and jumped exactly when the new value is below the sign-extended immediate |
| HppInterp.DecodedFits | flinch.hpp:1104-1107 | every literal the handlers decode, with either scaling, is an `int64_t` |
| HppInterp.LitValue | flinch.hpp:1104-1107 | a literal token decodes exactly when its immediate or table index is in range, to the value the literal codec gives with the interpreter's scaling |
| HppInterp.OnScopeClose | flinch.hpp:1009-1010 | `]~` fails exactly when no evaluation stack is saved |
| HppInterp.Reversed | flinch.hpp:1204 | the values popped one at a time come off in reverse order |
| HppInterp.Clone | flinch.hpp:244-252 | cloning only ever adds arrays, keeps every existing array as it was and changes nothing else |
| HppInterp.CloneAll | flinch.hpp:250 | deep-cloning the items keeps their number, only adds arrays and changes nothing else |
| HppInterpProps.ExecTwo | flinch.hpp:927-932 | two tokens run as the first one's handler, then the second's from where the first left off |
| HppInterpProps.IntInlineFusion | flinch.hpp:685-690 | `IntegerInline k; <arith>` and the fused `<arith>IntInline k` both fail or both leave the same machine |
| HppInterpProps.DubInlineFusion | flinch.hpp:691-696 | `DoubleInline k; <arith>` and the fused `<arith>DubInline k` both fail or both leave the same machine |
| HppInterpProps.OpAsLocalFusion | flinch.hpp:697-702 | `LocalVarLookup v; <arith>=` and the fused `<arith>AsLocal v` both fail or both leave the same machine |
| HppInterpProps.AsLocalFusion | flinch.hpp:703-708 | `LocalVarLookup v; Assign` and the fused `AsLocal v` both fail or both leave the same machine |
| HppInterpProps.LabelGotoFusion | flinch.hpp:703-708 | the corrected fusion of `LabelLookup d; Goto` into `GotoLabel d` jumps to the same place |
| HppInterpProps.LabelIfGotoFusion | flinch.hpp:703-708 | the corrected fusion of `LabelLookup d; IfGoto` into `IfGotoLabel d` jumps or falls through alike |
| HppInterpProps.VarGotoFusion | flinch.hpp:703-708 | as written, `$x goto` fails, since `Goto` refuses a reference as a label, while the fused `GotoLabel x` jumps: the fusion changes the program's meaning |
| HppInterpProps.ForStepPc | flinch.hpp:1027-1033 | the loop tail depends on `pc` only through where it falls through to |
| HppInterpProps.ForLabelFusion | flinch.hpp:709-715 | `LabelLookup d; ForLoop` and the fused `ForLoopLabel d` both fail or both leave the same machine, jumping alike |
| HppInterpProps.CmpFusion | flinch.hpp:725-730 | `Cmp<op>; IfGotoLabel d` and the fused `IfGotoLabel<op> d` both fail or both leave the same machine, jumping alike |
| HppInterpProps.ForBumpLocal | flinch.hpp:1035-1042 | the local loop step is the general loop step on the slot's reference with the sign-extended immediate as limit |
| HppInterpProps.ForLocalFusion | flinch.hpp:716-724 | `LocalVarLookup v; IntegerInline k; ForLoopLabel d` and the fused `ForLoopLocal d` both fail or both leave the same machine, jumping alike |
| HppInterpProps.EnterKeepsFrames | flinch.hpp:983-988 | a call keeps the current and every saved frame in range, one saved frame per return index |
| HppInterpProps.ReturnResumes | flinch.hpp:950-961 | whatever the body did, if it left the call and frame stacks as the call made them, returning resumes the caller after the call with the caller's frame current |
| HppInterpProps.CallThenReturn | flinch.hpp:950-996 | calling then returning at once gives back the caller's machine, with only the dead frame added |
| HppInterpProps.ReturnedFrameDangles | flinch.hpp:950-955 | after the return the callee's frame is neither current nor saved, so reading through a reference into it is undefined, while the caller's frame is live again |
| HppInterpProps.FuncDecSkips | flinch.hpp:942-945 | on a linked program, a `FuncDec` met in straight-line code jumps to the token after its function's `FuncEnd` |
| HppInterpProps.FuncCallEnters | flinch.hpp:994-996 | `FuncCall k` enters function `k` at its body with a fresh frame, and on a linked program every local the body declares has a slot in that frame |
| HppInterpProps.LiteralRuns | flinch.hpp:1104-1107 | with the decoder scaled as the encoder scales, the token the encoder makes of any `int64_t` pushes that number |
| HppInterpProps.LiteralAsWritten | flinch.hpp:1105 | as written, the literal `3000000000` is encoded as `IntegerInlineBigDec 3` and pushes 30000 |
| HppInterpProps.TextLiteralRuns | flinch.hpp:624-644 | an integer literal classified from the source text and run with the matching decoder pushes the value `stoll` read |
| HppInterpProps.PuntTimesMoves | flinch.hpp:1195-1197 | `count` punts move the top `count` values to the stack below, top first, or throw when there are fewer |
| HppInterpProps.PuntNMoves | flinch.hpp:1199-1204 | `punt_n` with a non-negative count moves that many values below, top first, or throws `valreq` when there are fewer |
| HppInterpProps.PuntNIsPunts | flinch.hpp:1199-1204 | `punt_n c` succeeds exactly when `c` single punts do, and then leaves the same machine; its only failure is `valreq` |
| HppInterpProps.PuntNNegative | flinch.hpp:1201-1203 | a negative count is read as a huge `size_t` and fails `valreq` |
| HppInterpProps.ArrayLiteralBuilds | flinch.hpp:1119-1122 | `[`, then whatever pushes the elements, then `]` restores the outer stack and pushes a new array holding exactly those elements |
| HppInterpProps.EmptyArrayLiteral | flinch.hpp:477-480 | `[ ]` run as `ScopeOpen; ArrayBuild` does what `[]` does |
| HppInterpProps.PushBackPopBack | flinch.hpp:1161-1170 | `@++` appends the value, and `@--` on the same array takes it off again, restoring the array and leaving the value in its place |
| HppInterpProps.PushInInserts | flinch.hpp:1144-1150 | `@+` at an index up to the length inserts the value at that index |
| HppInterpProps.PopOutRemoves | flinch.hpp:1152-1159 | `@-` at an index inside the array removes that element and leaves it where the array was |
| HppInterpProps.PushInPopOut | flinch.hpp:1144-1159 | `@+` then `@-` at the same index restores the array and leaves the inserted value in its place |
| HppInterpProps.PushInPastEnd | flinch.hpp:1146-1149 | inserting past the end, or at a negative index read as a huge `size_t`, throws |
| HppInterpProps.ConcatAppends | flinch.hpp:1172-1179 | `@@` appends the right array's elements to the left one, which stays on the stack; an array concatenated with itself is the undefined self-append |
| HppInterpProps.PushBackGrows | flinch.hpp:1136-1165 | `@?` after `@++` counts one more element than before |
| HppInterpProps.CloneIsFresh | flinch.hpp:244-249 | a shallow clone of an array is a new array with the same elements, and storing into the clone leaves the original's elements as they were |
| HppInterpProps.CloneThroughRefShares | flinch.hpp:246 | cloning a reference gives the value it points at, uncopied, so an array behind a reference stays shared |
| HppInterpProps.CloneAllFlat | flinch.hpp:250 | deep-cloning items that are neither arrays nor references gives them back unchanged |
| HppInterpProps.DeepCloneOfFlat | flinch.hpp:244-252 | a deep clone of an array of plain values is the shallow clone |
| HppInterpProps.HaltedStays | flinch.hpp:1206-1207 | at `Exit` a step leaves the machine where it is |
| HppInterpProps.RunSplit | flinch.hpp:924-932 | running `a + c` tokens is running `a`, then `c` more from where that stopped |
| HppInterp.OnCall | flinch.hpp:990-992 | `Call` succeeds exactly when the top value is a function; it pops it, pushes the return index, installs a fresh frame of `varcount` zeros and jumps to the body |
| HppInterp.OnVar | flinch.hpp:1116-1117 | reading a variable succeeds exactly on a valid slot, which it pushes, and throws the slot's fault otherwise |
| HppInterp.OnVarDec | flinch.hpp:963-971 | declaring a variable succeeds exactly on a valid slot and makes it read back 0, leaving the stack and index alone |
| HppInterp.OnVarLookup | flinch.hpp:965-973 | a variable lookup succeeds exactly on a valid slot and pushes a reference to it, changing nothing else |
| HppInterp.OnVarDecLookup | flinch.hpp:967-976 | declare-and-lookup succeeds exactly on a valid slot, makes it read back 0 and pushes a reference to it |
| HppInterp.OnAssign | flinch.hpp:998-1001 | `Assign` needs two values and a reference on top; it stores the value below through the reference and pops both |
| HppInterp.OnAsLocal | flinch.hpp:1003-1004 | `AsLocal n` succeeds exactly with a value on the stack and slot `n` in the frame, and moves the top value into the slot |
| HppInterp.OnGoto | flinch.hpp:1101 | `Goto` succeeds exactly on a label on top, pops it and jumps to its location |
| HppInterp.OnIfGoto | flinch.hpp:1012-1014 | `IfGoto` needs two values, a label on top and a condition with a truth value; it pops both and jumps exactly when the condition is true |
| HppInterp.OnIfGotoLabel | flinch.hpp:1015-1016 | `IfGotoLabel d` succeeds exactly when the top value has a truth value, pops it and jumps to `d` exactly when it is true |
| HppInterp.OnIfGotoCmp | flinch.hpp:1045-1049 | `IfGotoLabel<op> d` needs two values, succeeds exactly when they compare, pops both and jumps exactly when `val1 OP val2` |
| HppInterp.OnForLoop | flinch.hpp:1018-1025 | `ForLoop` needs three values, a label on top, then an integer limit and a reference to an integer; it adds one to the variable, pops all three and jumps exactly when the new value is below the limit |
| HppInterp.OnForLoopLabel | flinch.hpp:1027-1033 | `ForLoopLabel d` needs two values and then runs the loop step with destination `d` |
| HppInterp.ForStep | flinch.hpp:1027-1033 | a successful loop step found a reference to an integer under an integer limit, added one, popped both and jumped exactly when the new value is below the limit |
| HppInterp.OnBin | flinch.hpp:1052-1056 | a binary operator needs two values, succeeds exactly when the operation does, and replaces them with `x OP b` |
| HppInterp.OnTop | flinch.hpp:1059-1072 | an inline operand `b` replaces the top value `x` with `x OP b`, exactly when there is one and the operation succeeds |
| HppInterp.OnUnary | flinch.hpp:1098-1099 | a unary operator succeeds exactly when there is a top value it applies to, and replaces that value |
| HppInterp.OnOpAssign | flinch.hpp:1075-1079 | `+=` and the like need two values and a reference on top; the place then holds its old value `OP` the operand and both values are popped |
| HppInterp.OnOpAsLocal | flinch.hpp:1082-1085 | `<op>AsLocal n` pops the operand and leaves slot `n` holding its old value `OP` the operand |
| HppInterp.OnArrayBuild | flinch.hpp:1119-1122 | `]` succeeds exactly when a stack is saved; the current stack's values become a new array, pushed onto the restored stack |
| HppInterp.OnPunt | flinch.hpp:1195-1197 | `punt` succeeds exactly with a saved stack and a value, and moves the top value onto the saved stack |
| HppInterp.OnPuntN | flinch.hpp:1199-1204 | `punt_n` throws with no saved stack; a success popped an integer count that, read as a `size_t`, is below the stack's height, and that many values more |
| HppInterp.OnArrayIndex | flinch.hpp:1126-1131 | indexing needs two values, an integer index inside the array below; an array is replaced by its element and a reference to an array by a reference to the element |
| HppInterp.OnClone | flinch.hpp:1133-1134 | cloning throws on an empty stack, replaces the top value only, and keeps every existing array |
| HppInterp.OnArrayLen | flinch.hpp:1136-1142 | `@?` succeeds exactly on an array or a reference to one on top, and replaces it with the length, less one for `ArrayLenMinusOne` |
| HppInterp.OnArrayPushIn | flinch.hpp:1144-1150 | `@+` needs three values; a success read the index as a `size_t` no greater than the length, popped all three and inserted the value at that index |
| HppInterp.OnArrayPopOut | flinch.hpp:1152-1159 | `@-` needs two values; a success had an index inside the array, removed that element and left it in the array's place |
| HppInterp.OnArrayPushBack | flinch.hpp:1161-1165 | `@++` needs two values, succeeds exactly on an array below the value, pops both and appends the value |
| HppInterp.OnArrayPopBack | flinch.hpp:1167-1170 | `@--` succeeds exactly on a non-empty array on top, removes its last element and leaves it in the array's place |
| HppInterp.OnArrayConcat | flinch.hpp:1172-1179 | `@@` needs two values; a success had two distinct arrays, popped the right one and appended its elements to the left |
| HppInterp.OnArrayDelete | flinch.hpp:1181-1184 | `@~` succeeds exactly on an array on top and pops it |
| HppInterp.OnStringLiteral | flinch.hpp:1186-1187 | a string literal succeeds exactly for a known string and pushes a new array of its characters |
| HppInterp.Step | flinch.hpp:927-932 | reading past the program is undefined, and a token with no handler throws "unknown opcode" |
| HppInterp.Run | flinch.hpp:924-940 | with no fuel left or at `Exit` the machine stays as it is, and an index outside the program is undefined |
| HppInterpProps.HandleExit | flinch.hpp:1206-1207 | `Exit` stops on its own token |
| HppInterpProps.HandleFuncDec | flinch.hpp:942-945 | `FuncDec` runs the function-skipping handler |
| HppInterpProps.HandleFuncCall | flinch.hpp:994-996 | `FuncCall k` enters function `k` when it is registered |
| HppInterpProps.HandleLocalVarLookup | flinch.hpp:965-966 | `LocalVarLookup n` pushes a reference to slot `n` of the current frame |
| HppInterpProps.HandleAssign | flinch.hpp:998-1001 | `Assign` runs the assignment handler |
| HppInterpProps.HandleAsLocal | flinch.hpp:1003-1004 | `AsLocal n` runs the slot store |
| HppInterpProps.HandleLabelLookup | flinch.hpp:978-979 | `LabelLookup n` pushes the label `n` |
| HppInterpProps.HandleGoto | flinch.hpp:1101 | `Goto` runs the jump through a popped label |
| HppInterpProps.HandleGotoLabel | flinch.hpp:1102 | `GotoLabel n` jumps to `n` |
| HppInterpProps.HandleIfGoto | flinch.hpp:1012-1014 | `IfGoto` runs the conditional jump through a popped label |
| HppInterpProps.HandleIfGotoLabel | flinch.hpp:1015-1016 | `IfGotoLabel n` runs the conditional jump to `n` |
| HppInterpProps.HandleIfGotoLabelCmp | flinch.hpp:1045-1049 | `IfGotoLabel<op> n` runs the compare-and-jump to `n` with its operator |
| HppInterpProps.HandleForLoop | flinch.hpp:1018-1025 | `ForLoop` runs the loop step through a popped label |
| HppInterpProps.HandleForLoopLabel | flinch.hpp:1027-1033 | `ForLoopLabel n` runs the loop step to `n` |
| HppInterpProps.HandleForLoopLocal | flinch.hpp:1035-1042 | `ForLoopLocal` runs the local loop step with the slot and limit from its token |
| HppInterpProps.HandleBin | flinch.hpp:1087-1091 | each binary opcode runs the binary handler with its operator |
| HppInterpProps.HandleOpIntInline | flinch.hpp:1059-1063 | `<op>IntInline k` applies its operator to the top value and the sign-extended `k` |
| HppInterpProps.HandleOpDubInline | flinch.hpp:1066-1072 | `<op>DubInline` applies its operator to the top value and a double |
| HppInterpProps.HandleOpAssign | flinch.hpp:1075-1079 | `<op>Assign` runs the in-place update through a reference |
| HppInterpProps.HandleOpAsLocal | flinch.hpp:1082-1085 | `<op>AsLocal n` runs the in-place update of slot `n` |
| HppInterpProps.HandleInteger | flinch.hpp:1104-1107 | each integer literal token pushes the value its literal decodes to, or fails as the decoding does |
| HppInterpProps.HandleDoubleInline | flinch.hpp:1109-1113 | `DoubleInline` pushes a double |
| HppInterpProps.HandleScopeOpen | flinch.hpp:1006-1008 | `[` saves the current evaluation stack and starts an empty one |
| HppInterpProps.HandleArrayBuild | flinch.hpp:1119-1122 | `]` runs the array-building handler |
| HppInterpProps.HandleArrayEmptyLit | flinch.hpp:1124 | `[]` pushes a new empty array |
| HppInterpProps.ExecOne | flinch.hpp:927-932 | one token runs as its handler on the machine moved past it |
| HppInterpProps.ExecThree | flinch.hpp:927-932 | three tokens run as the first one's handler, then the other two from where it left off |
| HppInterpProps.AsLocalHandlers | flinch.hpp:965-1004 | pushing a reference to slot `n` and assigning through it succeeds exactly when `AsLocal n` does, with the same result |
| HppInterpProps.OpAsLocalHandlers | flinch.hpp:965-1085 | pushing a reference to slot `n` and updating through it succeeds exactly when `<op>AsLocal n` does, with the same result |
| HppInterpProps.ForBumpPc | flinch.hpp:1022-1025 | the loop step depends on the index only through where it falls through to |
| HppInterpProps.ForLoopOnLabel | flinch.hpp:1018-1033 | `ForLoop` under a pushed label `n` is `ForLoopLabel n` |
| HppInterpProps.ForLoopLabelPc | flinch.hpp:1027-1033 | `ForLoopLabel` depends on the index only through where it falls through to |
| HppInterpProps.ForLabelOnPushed | flinch.hpp:1027-1033 | `ForLoopLabel` under a pushed reference and limit is the loop step on them |
| HppInterpProps.ForLocalTail | flinch.hpp:1035-1042 | after pushing a slot reference, `IntegerInline k; ForLoopLabel d` does what `ForLoopLocal` does, up to where it falls through to |
| HppInterpProps.LitOfToken | flinch.hpp:637-644 | the literal read back from an encoded integer token is the literal encoded |
| HppInterpProps.PuntOnce | flinch.hpp:1195-1197 | one punt throws on an empty stack and otherwise moves the top value onto the saved stack |
| HppInterpProps.PuntTopMoves | flinch.hpp:1204 | moving one value and then `count - 1` more moves the top `count` values in reverse |
| HppInterpProps.ToU64OfNatural | flinch.hpp:1201 | a non-negative count reads as itself as a `size_t` |
| HppInterp.Zeros | flinch.hpp:863-885 | a new frame holds one zero per slot |
| HppInterp.Push | flinch.hpp:887 | `valpush` puts exactly one value on top and changes nothing else |
| HppInterp.AsRef | flinch.hpp:196-201 | `as_ref()` succeeds exactly on a reference |
| HppInterp.AsLabel | flinch.hpp:196-201 | `as_label()` succeeds exactly on a label |
| HppInterp.AsFunc | flinch.hpp:196-201 | `as_func()` succeeds exactly on a function value |
| HppInterp.NewArray | flinch.hpp:1119-1122 | a new array is a fresh handle after every older array, holding the given values |
| HppInterp.Scale | flinch.hpp:1104-1107 | both decoder settings scale by positive amounts no larger than 2^31 |
| HppInterp.ScaledFits | flinch.hpp:1104-1107 | a 32-bit quotient times a scale up to 2^31 stays within 64 bits |
| HppInterp.LoadIgnoresStacks | flinch.hpp:110-116 | validity, reads and array lookups through a place depend only on the frames, globals and arrays, not on the value stacks or the index |
| HppInterpProps.IfGotoAfterLabel | flinch.hpp:1012-1016 | popping a just-pushed label and jumping on the value under it fails or succeeds exactly as `IfGotoLabel` with that label does, and leaves the same machine |
| HppInterpProps.GotoOnRef | flinch.hpp:1101 | `Goto` with a reference on top throws `NotALabel` |
| HppInterpProps.VarGotoPair | flinch.hpp:703-708 | the unfused `$x goto` on a valid slot throws `NotALabel` |
| HppInterpProps.RunUnfold | flinch.hpp:924-932 | a run with fuel left that has not reached `Exit` takes one step and runs on from there |

## Left out

- Console and file I/O: `main` in each program, reading the source file, and final printing. The built-in functions (`!print`, `!printstr`) are a parameter `builtin` of `CppInterp.Run`, acting on the evaluation stack.
- The garbage collector (gc.hpp, gc_os.hpp): a collector thread, mutexes and OS stack scanning are concurrency and OS plumbing. The model never frees anything; `GC_malloc`/`safe_realloc` buffers are `seq`s.
- Floating point: C++ doubles and Python floats are each one opaque value kind. Double literals, `DoubleInline` bit packing, `fmod` and mixed int/double results are not computed, and an outcome that depends on a double's value is an `Unmodelled` fault. `stod`/`stoll` are replaced by decimal scanning, and character classes are fixed to ASCII.
- too_simple.c, etc/too_simple.c, etc/too_simple.py: floating-point series summation, unrelated to the language.
- Dispatch encodings: the `switch` loop, computed `goto` and `musttail` macros of flinch.cpp:756-884 run the same handlers; the model follows the threaded one.
- Raw-pointer aliasing: a `Ref` is a handle (a global slot, a slot of a call frame, or an array element), not a pointer into vector storage. Call frames are never reused, so a reference into a returned frame is reported as the dangling pointer it is.
- CppInterp.AsIntoInt: a double used as an array index or count is refused as `Unmodelled` rather than truncated to an integer, because doubles are opaque.
- HppInterp.AsIntoInt: the same for flinch.hpp's `as_into_int()`: a double is refused as `Unmodelled` rather than truncated.
- DynValue.Truthy: the truth of a double is `Unmodelled`, because doubles are opaque; the source tests it against zero.
- ShortStr.Less: a `char` is taken as signed, as on x86-64; on an ABI with unsigned `char` bytes of 0x80 and above would order after ASCII instead.
- CppLink.RegisterFixed: the corrected loop resumes after each body, as flinch.hpp does, so a `FuncDec` nested inside another body is not registered, where the loop as written would register it.
- CppInterp.Run: runs at most `fuel` tokens; a program that has not reached `Exit` within the fuel stops where it is. Statements about whole runs are stated for every fuel.
- PyInterp.Run: the same fuel bound for the Python loop.
- GridDijkstra.Run: the same fuel bound for the search loop. The model proves that every heap entry and the returned cost are realised by a walk through open cells of that length, and that distances only decrease. That the returned cost is the shortest one is not proved.
- GridDijkstra.Dijkstra: pf.c computes `size * size` in `int` (pf.c:18, pf.c:88-89), which overflows for `size` of 46341 or more; the model takes the product unbounded.
- flinch.hpp's built-in functions and `stod`: the built-ins are the parameter `builtin` of `HppInterp.Step` and `HppInterp.Run`, and double literals are the opaque `Dbl`, as in the C++ interpreter.
- flinch.hpp's error reporting: `rethrow` adds the line and token index to the message; the model keeps only which fault occurred, and the text of messages is not modelled.
- HppInterp.OnArrayDelete and HppInterp.OnArrayConcat: storage is never freed or reallocated, so a reference to an element stays valid after the array grows, where the source's pointer could dangle after a reallocation.
- HppInterp.OnClone: a deep clone follows at most as many nested arrays as exist; deeper nesting revisits an array and the source would recurse forever, which the model reports as `CloneCycle`.
- HppInterpProps.PuntNNegative, HppInterpProps.PushInPastEnd: stated for stacks and arrays shorter than 2^63, where a negative count or index read as a `size_t` is always too large.
- HppInterpProps.PuntNIsPunts: when values run out, `punt_n` fails `valreq` up front while single punts fail on the empty pop; the lemma shows both fail, not that they fail alike.
- HppInterp.Run: runs at most `fuel` tokens, like `CppInterp.Run`.

## Findings

| source | as written | input that shows it | evidently intended | confidence | as-written member | corrected member |
|---|---|---|---|---|---|---|
| flinch.hpp:624-644 | large literals are encoded by dividing by 1000000000 or shifting right by 31, but decoded by multiplying by 10000 or shifting left by 15 | `3000000000` is stored as `IntegerInlineBigDec 3` and executes as 30000 | the decoder uses the encoder's constants, so every literal round-trips | not executed | IntLiteral.HppDecode, IntLiteral.HppRoundTripIff, IntLiteral.HppDecimalMismatch, HppInterpProps.LiteralAsWritten | IntLiteral.HppDecodeFixed, IntLiteral.HppFixedRoundTrip, HppInterpProps.LiteralRuns |
| flinch.cpp:617-630 | after a fusion at index 0 the index steps back to -1, and the next loop test reads `program[-1]` | `:a inc_goto_until` at the start of the program | the index is clamped at 0 | not executed | CppLink.Peephole, CppLink.PeepholeWrapsAtStart | CppLink.PeepholeFixed, CppLink.PeepholeFixedSafe, CppLink.PeepholeFixedAgrees |
| flinch.cpp:619-624 | `LocalVarLookup n; Goto` fuses to `GotoLabel n`, so label resolution reads a variable id as a label id | `$x goto` inside a function | only `:t goto` / `:t if_goto` fuse to `GotoLabel t` / `IfGotoLabel t` | not executed | CppLink.GotoFusionKeepsVarId, CppInterpProps.GotoFusionChangesMeaning | CppLink.FuseVarFixed, CppLink.GotoFusionFixed, CppInterpProps.LabelGotoFusion, CppInterpProps.LabelIfGotoFusion |
| types.hpp:192-202 | copy assignment allocates `mlength` elements but keeps `mcapacity` as the capacity, so the next `push_back` writes past the buffer | a vector of length 1 and capacity 2, copied, then pushed onto | the buffer holds `mcapacity` elements, as in the copy constructor | not executed | PodVec.CopyAssignAsWritten, PodVec.CopyAssignOverflows | PodVec.Copy, PodVec.CopyThenPush |
| types.hpp:167-182 | the copy constructor allocates only when `mlength` is non-zero and allocates `mcapacity` elements, but `PODVec(count, value)` leaves `mcapacity` at 0 | `PODVec(1, v)` copied: one element is copied into a buffer of none; an emptied vector with capacity 2, copied, has no buffer at all | the buffer fits both the length and the capacity | not executed | PodVec.CopyConstructAsWritten, PodVec.CopyConstructEmptyOverflows, PodVec.CopyConstructFilledOverflows | PodVec.Copy, PodVec.CopyThenPush |
| types.hpp:213 | `capacity()` returns `mlength` | a vector of length 1 and capacity 2 reports capacity 1 | `capacity()` returns `mcapacity` | not executed | PodVec.CapacityAsWritten, PodVec.CapacityReportsLength | PodVec.Capacity |
| flinch.hpp:532-534 | `((`, `))` and `;` erase their entry of `lines` but leave their text in place, so `lines` falls out of step with the texts and a second skip near the end erases past the end of `lines` | the texts `;` `;` with two lines | a skipped text is erased together with its line | not executed | HppClassifyProps.TwoSkipsAtEnd | HppClassifyProps.LoadWell |
| flinch.hpp:703-708 | `LocalVarLookup n; Goto` fuses to `GotoLabel n`, so label resolution reads a variable id as a label id | `$x goto` | only `:t goto` / `:t if_goto` fuse to `GotoLabel t` / `IfGotoLabel t` | not executed | HppLinkProps.GotoFusionKeepsVarId, HppInterpProps.VarGotoFusion | HppLinkProps.GotoFusionFixed, HppInterpProps.LabelGotoFusion, HppInterpProps.LabelIfGotoFusion |
| flinch.cpp:698-711 | root `LabelDec`s are erased after every function is registered, so each erasure moves every later definition down one while its `funcs` entry keeps the old `loc` | `a: f^ ^^`: `f` is registered at `{2, 1, 1}`, then erasing `a:` leaves `program[loc - 1]` as `FuncEnd` | root labels are erased in the registration loop, before any later definition is registered, as flinch.hpp:791-795 does | not executed | CppLink.Link, CppLink.RootLabelStalesLoc | CppLink.LinkFixed, CppLink.LinkFixedPlaced, CppLink.StaleExampleFixed |
