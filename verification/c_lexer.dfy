/**
  The lexer at the head of `load_program` in flinch.cpp and flinch.hpp.

  Whitespace (`isspace` in the C locale) separates tokens, and every `\n`
  skipped bumps the line counter. A `#` at the start of a token starts a
  comment that runs to the next `\n`; inside a token it is an ordinary
  character. A plain token is a maximal run of non-space characters. A
  string literal runs to the double quote that closes it, may carry a one-character
  suffix (`&` in flinch.cpp, `*` in flinch.hpp) and must then be followed by
  whitespace, a NUL byte or the end of the text. flinch.hpp also has
  character literals. When the text ends in whitespace, the loop records one
  last, empty token at the end.

  The text is a C++ `std::string`; each Dafny `char` stands for one byte.
  The lexer copies each token out of the text unchanged: the escapes of a
  string literal only decide where the literal ends. That is decided by the
  last character appended to a scratch string. Reading `text[size()]` gives
  NUL; reading further is undefined behaviour.
 */
module CLexer {
  import opened Wrappers
  import opened Tokens
  import ShortStr

  /** The two copies of the lexer. */
  datatype Flavour = Cpp | Hpp

  /** `isspace` in the C locale. */
  predicate IsSpace(c: char) {
    c == ' ' || c == '\t' || c == '\n' || c == '\r' || c as int == 11 || c as int == 12
  }

  /** The characters that open a quoted token. */
  predicate Opens(fl: Flavour, c: char) {
    c == DQuote || (fl == Hpp && c == Apostrophe)
  }

  /** The number of `\n` characters in `text[i..j]`. */
  function Lines(text: string, i: nat, j: nat): nat
    requires i <= j <= |text|
    decreases j - i
  {
    if i == j then 0 else (if text[i] == '\n' then 1 else 0) + Lines(text, i + 1, j)
  }

  lemma {:induction false} LinesSplit(text: string, i: nat, k: nat, j: nat)
    requires i <= k <= j <= |text|
    ensures Lines(text, i, j) == Lines(text, i, k) + Lines(text, k, j)
    decreases k - i
  {
    if i < k {
      LinesSplit(text, i + 1, k, j);
    }
  }

  /** The whitespace loop: the first non-space position and the bumped line counter. */
  function SkipSpace(text: string, i: nat, line: nat): (r: (nat, nat))
    requires i <= |text|
    ensures i <= r.0 <= |text|
    ensures r.0 == |text| || !IsSpace(text[r.0])
    ensures r.1 == line + Lines(text, i, r.0)
    decreases |text| - i
  {
    if i < |text| && IsSpace(text[i]) then
      SkipSpace(text, i + 1, if text[i] == '\n' then line + 1 else line)
    else
      (i, line)
  }

  /** The comment loop: the first `\n` at or after `i`, which it leaves for the whitespace loop. */
  function CommentEnd(text: string, i: nat): (j: nat)
    requires i <= |text|
    ensures i <= j <= |text|
    ensures j == |text| || text[j] == '\n'
    ensures Lines(text, i, j) == 0
    decreases |text| - i
  {
    if i < |text| && text[i] != '\n' then CommentEnd(text, i + 1) else i
  }

  /** The plain-token loop: the end of the run of non-space characters at `i`. */
  function PlainEnd(text: string, i: nat): (j: nat)
    requires i <= |text|
    ensures i <= j <= |text|
    ensures j == |text| || IsSpace(text[j])
    ensures forall k :: i <= k < j ==> !IsSpace(text[k])
    decreases |text| - i
  {
    if i < |text| && !IsSpace(text[i]) then PlainEnd(text, i + 1) else i
  }

  /** The value of a hexadecimal digit, or -1. */
  function HexDigit(c: char): (v: int)
    ensures -1 <= v < 16
  {
    if '0' <= c <= '9' then c as int - '0' as int
    else if 'a' <= c <= 'f' then c as int - 'a' as int + 10
    else if 'A' <= c <= 'F' then c as int - 'A' as int + 10
    else -1
  }

  /**
    `std::strtol` of the two characters after `\x` in base 16: leading
    whitespace, then an optional sign, then digits (a `0x` prefix needs a
    digit after it, which two characters leave no room for). The `char` the
    result converts to is given as its byte, 0 to 255.
   */
  function HexPair(a: char, b: char): (v: int)
    ensures 0 <= v < 256
  {
    var n :=
      if IsSpace(a) || a == '+' then (if HexDigit(b) >= 0 then HexDigit(b) else 0)
      else if a == '-' then (if HexDigit(b) >= 0 then -HexDigit(b) else 0)
      else if HexDigit(a) >= 0 then (if HexDigit(b) >= 0 then 16 * HexDigit(a) + HexDigit(b) else HexDigit(a))
      else 0;
    n % 256
  }

  /** The byte the escape at `text[j]` (a backslash) appends to the scratch string. */
  function EscapeByte(text: string, j: nat): int
    requires j + 1 < |text|
  {
    var e := text[j + 1];
    if e == 'x' && j + 3 < |text| then HexPair(text[j + 2], text[j + 3])
    else if e == 'n' then '\n' as int
    else if e == 'r' then '\r' as int
    else if e == 't' then '\t' as int
    else if e == Backslash then Backslash as int
    else e as int
  }

  /** The only `\x` escape that yields a double quote is `\x22`. */
  lemma HexQuote(a: char, b: char)
    ensures HexPair(a, b) == DQuote as int <==> a == '2' && b == '2'
  {
  }

  /**
    The body of flinch.cpp's string loop from `j`: the position at which
    the character appended to the scratch string is a double quote, or `None` when
    the loop runs off the end.
   */
  function CppScan(text: string, j: nat): (r: Option<nat>)
    requires j <= |text|
    ensures r.Some? ==> j <= r.value < |text|
    decreases |text| - j
  {
    if j >= |text| then None
    else if text[j] == Backslash && j + 1 < |text| then
      if EscapeByte(text, j) == DQuote as int then Some(j + 1) else CppScan(text, j + 2)
    else if text[j] == DQuote then Some(j)
    else CppScan(text, j + 1)
  }

  /**
    The same loop in flinch.hpp, where the scratch string is a
    `ShortString` holding `len` bytes and ending in byte `back`: appending
    NUL appends nothing (so `back` may stay the opening quote), and
    appending once `len + 1` reaches `mcap` fails an `assert`.
   */
  function HppScan(text: string, j: nat, back: int, len: nat): (r: Result<Option<nat>, Fault>)
    requires j <= |text|
    ensures r.Ok? && r.value.Some? ==> j <= r.value.value < |text|
    ensures r.Err? ==> r.error.Aborted?
    decreases |text| - j
  {
    if j >= |text| then Ok(None)
    else
      var esc := text[j] == Backslash && j + 1 < |text|;
      var c := if esc then EscapeByte(text, j) else text[j] as int;
      var at := if esc then j + 1 else j;
      if c != 0 && len + 1 >= ShortStr.MCAP then Err(Aborted(ShortStringCapacity))
      else
        var back2 := if c == 0 then back else c;
        if back2 == DQuote as int then Ok(Some(at))
        else HppScan(text, at + 1, back2, if c == 0 then len else len + 1)
  }

  /**
    After the closing quote at `k`: the optional suffix character, then the
    test that whitespace, NUL or the end follows.
   */
  function AfterQuote(fl: Flavour, text: string, k: nat): (r: Result<nat, Fault>)
    requires k < |text|
    ensures r.Ok? ==> k < r.value <= |text|
    ensures r.Ok? ==> r.value == |text| || IsSpace(text[r.value]) || text[r.value] as int == 0
    ensures r.Err? <==> TrailingText(text, SuffixEnd(fl, text, k + 1))
    ensures r.Err? ==> r.error.Thrown?
  {
    var e := SuffixEnd(fl, text, k + 1);
    if TrailingText(text, e) then
      Err(Thrown(TrailingAfterString))
    else
      Ok(e)
  }

  /** Position `e` holds a character that may not follow a string literal. */
  predicate TrailingText(text: string, e: nat) {
    e < |text| && !IsSpace(text[e]) && text[e] as int != 0
  }

  /** Skips the reference suffix (`&` or `*`) at `e`, if there is one. */
  function SuffixEnd(fl: Flavour, text: string, e: nat): (r: nat)
    requires e <= |text|
    ensures e <= r <= e + 1 && r <= |text|
  {
    var suffix := if fl == Cpp then '&' else '*';
    if e < |text| && text[e] == suffix then e + 1 else e
  }

  /**
    Where the token starting at `i` ends. `i` is at the end of the text or
    at a character that is neither whitespace nor `#`.
   */
  function TokenEnd(fl: Flavour, text: string, i: nat): (r: Result<nat, Fault>)
    requires i <= |text| && (i == |text| || !IsSpace(text[i]))
    ensures r.Ok? ==> i <= r.value <= |text| && (i < |text| <==> i < r.value)
    ensures r.Ok? && (i == |text| || !Opens(fl, text[i])) ==> r.value == PlainEnd(text, i)
    ensures r.Ok? && i < |text| && text[i] == DQuote ==>
              r.value == |text| || IsSpace(text[r.value]) || text[r.value] as int == 0
    ensures r.Err? ==> i < |text| && Opens(fl, text[i])
  {
    if i < |text| && text[i] == DQuote then
      if fl == Cpp then CppStringEnd(text, i) else HppStringEnd(text, i)
    else if i < |text| && fl == Hpp && text[i] == Apostrophe then
      HppCharEnd(text, i)
    else
      Ok(PlainEnd(text, i))
  }

  /** flinch.cpp's string literal at `i`; running off the end reads `text[size() + 1]`. */
  function CppStringEnd(text: string, i: nat): (r: Result<nat, Fault>)
    requires i < |text|
    ensures r.Ok? ==> i < r.value <= |text|
    ensures r.Ok? ==> r.value == |text| || IsSpace(text[r.value]) || text[r.value] as int == 0
  {
    match CppScan(text, i + 1)
    case Some(k) => AfterQuote(Cpp, text, k)
    case None => Err(Undefined(LiteralPastEnd))
  }

  /** flinch.hpp's string literal at `i`; running off the end ends the token at the end of the text. */
  function HppStringEnd(text: string, i: nat): (r: Result<nat, Fault>)
    requires i < |text|
    ensures r.Ok? ==> i < r.value <= |text|
    ensures r.Ok? ==> r.value == |text| || IsSpace(text[r.value]) || text[r.value] as int == 0
  {
    var scan :- HppScan(text, i + 1, DQuote as int, 1);
    match scan
    case Some(k) => AfterQuote(Hpp, text, k)
    case None => Ok(|text|)
  }

  /**
    flinch.hpp's character literal at `i`: three characters, or four when
    the second is a backslash, the last of them a quote. The check is
    `i >= size()` on the position after the literal, so a literal that ends
    the text is refused.
   */
  function HppCharEnd(text: string, i: nat): (r: Result<nat, Fault>)
    requires i < |text|
    ensures r.Ok? <==> r == Ok(CharEnd(text, i)) && CharEnd(text, i) < |text| && text[CharEnd(text, i) - 1] == Apostrophe
    ensures r.Err? ==> r.error.Thrown?
  {
    var e := CharEnd(text, i);
    if e >= |text| || text[e - 1] != Apostrophe then
      Err(Thrown(BadCharLiteral))
    else
      Ok(e)
  }

  /** `i + 3 + (text[i + 1] == Backslash)`. */
  function CharEnd(text: string, i: nat): (e: nat)
    requires i < |text|
    ensures i + 3 <= e <= i + 4
  {
    i + 3 + (if i + 1 < |text| && text[i + 1] == Backslash then 1 else 0)
  }

  /** A token: where it starts and ends in the text, and its line tag. */
  datatype Span = Span(start: nat, end: nat, line: nat)

  /** The main loop from position `i` with line counter `line`. */
  function LexFrom(fl: Flavour, text: string, i: nat, line: nat): (r: Result<seq<Span>, Fault>)
    requires i <= |text|
    decreases |text| - i
  {
    if i == |text| then Ok([])
    else
      var (j, l) := SkipSpace(text, i, line);
      if j < |text| && text[j] == '#' then
        LexFrom(fl, text, CommentEnd(text, j), l)
      else
        var e :- TokenEnd(fl, text, j);
        var rest :- LexFrom(fl, text, e, l);
        Ok([Span(j, e, l + 1)] + rest)
  }

  /** One token is well placed: inside the text, never starting at whitespace or `#`. */
  predicate SpanOk(fl: Flavour, text: string, s: Span) {
    && s.start <= s.end <= |text|
    && (s.start == s.end <==> s.start == |text|)
    && (s.start < |text| ==> !IsSpace(text[s.start]) && text[s.start] != '#')
    && (s.start < |text| && !Opens(fl, text[s.start]) ==> s.end == PlainEnd(text, s.start))
    && (s.start < |text| && text[s.start] == DQuote ==>
          s.end == |text| || IsSpace(text[s.end]) || text[s.end] as int == 0)
  }

  /**
    The tokens from position `i` on, when the line counter there is
    `line`: each well placed, in text order, the first tagged with one more
    than `line` plus the newlines skipped before it, each later one with its
    predecessor's tag plus the newlines between the two, and only the last
    one empty.
   */
  predicate Faithful(fl: Flavour, text: string, i: nat, line: nat, spans: seq<Span>)
    requires i <= |text|
  {
    && (forall k :: 0 <= k < |spans| ==> SpanOk(fl, text, spans[k]))
    && (|spans| > 0 ==> i <= spans[0].start && spans[0].line == line + 1 + Lines(text, i, spans[0].start))
    && (forall k :: 0 <= k < |spans| - 1 ==>
          spans[k].start < spans[k].end <= spans[k + 1].start
          && spans[k + 1].line == spans[k].line + Lines(text, spans[k].end, spans[k + 1].start))
  }

  lemma {:induction false} LexFaithful(fl: Flavour, text: string, i: nat, line: nat)
    requires i <= |text| && LexFrom(fl, text, i, line).Ok?
    ensures Faithful(fl, text, i, line, LexFrom(fl, text, i, line).value)
    decreases |text| - i, 1
  {
    if i < |text| {
      var (j, l) := SkipSpace(text, i, line);
      if j < |text| && text[j] == '#' {
        CommentFaithful(fl, text, i, line, j, l);
      } else {
        TokenFaithful(fl, text, i, line, j, l);
      }
    }
  }

  /** The step over a comment keeps `Faithful`. */
  lemma {:induction false} CommentFaithful(fl: Flavour, text: string, i: nat, line: nat, j: nat, l: nat)
    requires i < |text| && (j, l) == SkipSpace(text, i, line)
    requires j < |text| && text[j] == '#'
    requires LexFrom(fl, text, i, line).Ok?
    ensures Faithful(fl, text, i, line, LexFrom(fl, text, i, line).value)
    decreases |text| - i, 0
  {
    var c := CommentEnd(text, j);
    assert LexFrom(fl, text, i, line) == LexFrom(fl, text, c, l);
    LexFaithful(fl, text, c, l);
    var spans := LexFrom(fl, text, c, l).value;
    if |spans| > 0 {
      LinesSplit(text, i, j, c);
      LinesSplit(text, i, c, spans[0].start);
    }
  }

  /** The step over a token keeps `Faithful`. */
  lemma {:induction false} TokenFaithful(fl: Flavour, text: string, i: nat, line: nat, j: nat, l: nat)
    requires i < |text| && (j, l) == SkipSpace(text, i, line)
    requires !(j < |text| && text[j] == '#')
    requires LexFrom(fl, text, i, line).Ok?
    ensures Faithful(fl, text, i, line, LexFrom(fl, text, i, line).value)
    decreases |text| - i, 0
  {
    var e := TokenEnd(fl, text, j).value;
    var rest := LexFrom(fl, text, e, l).value;
    var spans := [Span(j, e, l + 1)] + rest;
    assert LexFrom(fl, text, i, line).value == spans;
    LexFaithful(fl, text, e, l);
    assert SpanOk(fl, text, spans[0]);
    assert j == |text| ==> rest == [];
    FaithfulCons(fl, text, i, line, spans);
  }

  /** Glues the head token onto the faithful rest. */
  lemma FaithfulCons(fl: Flavour, text: string, i: nat, line: nat, spans: seq<Span>)
    requires i <= |text| && |spans| > 0
    requires SpanOk(fl, text, spans[0])
    requires i <= spans[0].start && spans[0].line == line + 1 + Lines(text, i, spans[0].start)
    requires spans[0].end <= |text|
    requires Faithful(fl, text, spans[0].end, spans[0].line - 1, spans[1..])
    requires |spans| > 1 ==> spans[0].start < spans[0].end
    ensures Faithful(fl, text, i, line, spans)
  {
    forall k | 0 <= k < |spans| - 1
      ensures spans[k].start < spans[k].end <= spans[k + 1].start
      ensures spans[k + 1].line == spans[k].line + Lines(text, spans[k].end, spans[k + 1].start)
    {
      if k > 0 {
        assert spans[1..][k - 1] == spans[k];
        assert spans[1..][k] == spans[k + 1];
      }
    }
    forall k | 0 <= k < |spans|
      ensures SpanOk(fl, text, spans[k])
    {
      if k > 0 {
        assert spans[1..][k - 1] == spans[k];
      }
    }
  }

  // ----- the token lists of the two files -----

  /** A token's text and line tag, as `program_texts` and `lines` hold them. */
  datatype Lexeme = Lexeme(text: string, line: nat)

  /** flinch.cpp copies each token out as a `std::string`. */
  function CppLexemes(text: string, spans: seq<Span>): (r: seq<Lexeme>)
    requires forall k :: 0 <= k < |spans| ==> spans[k].start <= spans[k].end <= |text|
    ensures |r| == |spans|
    ensures forall k :: 0 <= k < |spans| ==> r[k] == Lexeme(text[spans[k].start..spans[k].end], spans[k].line)
  {
    seq(|spans|, k requires 0 <= k < |spans| => Lexeme(text[spans[k].start..spans[k].end], spans[k].line))
  }

  /**
    flinch.cpp:291-353. The `lines.back()` that follows the loop is
    undefined behaviour when the text held no token at all.
   */
  function CppLex(text: string): (r: Result<seq<Lexeme>, Fault>)
    ensures r.Ok? ==> LexFrom(Cpp, text, 0, 0).Ok? && |r.value| == |LexFrom(Cpp, text, 0, 0).value| > 0
    ensures LexFrom(Cpp, text, 0, 0) == Ok([]) ==> r.Err? && r.error.Undefined?
  {
    var spans :- LexFrom(Cpp, text, 0, 0);
    LexFaithful(Cpp, text, 0, 0);
    if |spans| == 0 then Err(Undefined(NoLines))
    else Ok(CppLexemes(text, spans))
  }

  /** The text of a C string: everything before the first NUL byte. */
  function CPrefix(t: string): (r: string)
    ensures |r| <= |t| && r == t[..|r|]
    ensures forall k :: 0 <= k < |r| ==> r[k] as int != 0
    ensures |r| < |t| ==> t[|r|] as int == 0
  {
    if |t| == 0 || t[0] as int == 0 then "" else [t[0]] + CPrefix(t[1..])
  }

  /**
    flinch.hpp turns each token into a `ShortString` through `.data()`: the
    text stops at the first NUL, and a text longer than the capacity fails
    an `assert`.
   */
  function HppLexemes(text: string, spans: seq<Span>): (r: Result<seq<Lexeme>, Fault>)
    requires forall k :: 0 <= k < |spans| ==> spans[k].start <= spans[k].end <= |text|
    ensures r.Ok? ==> |r.value| == |spans|
    ensures r.Ok? ==> forall k :: 0 <= k < |spans| ==>
              r.value[k].text == CPrefix(text[spans[k].start..spans[k].end]) && r.value[k].line == spans[k].line
    ensures r.Ok? <==> forall k :: 0 <= k < |spans| ==> |CPrefix(text[spans[k].start..spans[k].end])| <= ShortStr.CSTR_MAX
    decreases |spans|
  {
    if |spans| == 0 then Ok([])
    else
      var t := CPrefix(text[spans[0].start..spans[0].end]);
      if |t| > ShortStr.CSTR_MAX then Err(Aborted(ShortStringCapacity))
      else
        var rest :- HppLexemes(text, spans[1..]);
        Ok([Lexeme(t, spans[0].line)] + rest)
  }

  /** flinch.hpp:303-361. */
  function HppLex(text: string): (r: Result<seq<Lexeme>, Fault>)
    ensures r.Ok? ==> LexFrom(Hpp, text, 0, 0).Ok? && |r.value| == |LexFrom(Hpp, text, 0, 0).value|
  {
    var spans :- LexFrom(Hpp, text, 0, 0);
    LexFaithful(Hpp, text, 0, 0);
    HppLexemes(text, spans)
  }

  /**
    The shape of flinch.cpp's tokens: only the last can be empty; none
    starts with whitespace or `#`; one that is not a string literal holds
    no whitespace at all; line tags start at 1 and never decrease.
   */
  lemma CppLexShape(text: string)
    requires CppLex(text).Ok?
    ensures var toks := CppLex(text).value;
      && (forall k :: 0 <= k < |toks| - 1 ==> toks[k].text != "")
      && (forall k :: 0 <= k < |toks| && toks[k].text != "" ==> !IsSpace(toks[k].text[0]) && toks[k].text[0] != '#')
      && (forall k, p :: 0 <= k < |toks| && 0 < p < |toks[k].text| && toks[k].text[0] != DQuote ==> !IsSpace(toks[k].text[p]))
      && toks[0].line >= 1
      && (forall k :: 0 <= k < |toks| - 1 ==> toks[k].line <= toks[k + 1].line)
  {
    var spans := LexFrom(Cpp, text, 0, 0).value;
    LexFaithful(Cpp, text, 0, 0);
    var toks := CppLex(text).value;
    assert toks == CppLexemes(text, spans);
    forall k, p | 0 <= k < |toks| && 0 < p < |toks[k].text| && toks[k].text[0] != DQuote
      ensures !IsSpace(toks[k].text[p])
    {
      assert SpanOk(Cpp, text, spans[k]);
      assert toks[k].text[p] == text[spans[k].start + p];
    }
  }

  /**
    The shape of flinch.hpp's tokens: each fits a `ShortString` and holds no
    NUL; none starts with whitespace or `#`; line tags never decrease.
   */
  lemma HppLexShape(text: string)
    requires HppLex(text).Ok?
    ensures var toks := HppLex(text).value;
      && (forall k :: 0 <= k < |toks| ==> |toks[k].text| <= ShortStr.CSTR_MAX)
      && (forall k, p :: 0 <= k < |toks| && 0 <= p < |toks[k].text| ==> toks[k].text[p] as int != 0)
      && (forall k :: 0 <= k < |toks| && toks[k].text != "" ==> !IsSpace(toks[k].text[0]) && toks[k].text[0] != '#')
      && (forall k :: 0 <= k < |toks| - 1 ==> toks[k].line <= toks[k + 1].line)
  {
    var spans := LexFrom(Hpp, text, 0, 0).value;
    LexFaithful(Hpp, text, 0, 0);
    var toks := HppLex(text).value;
    assert HppLexemes(text, spans) == Ok(toks);
    forall k | 0 <= k < |toks| && toks[k].text != ""
      ensures !IsSpace(toks[k].text[0]) && toks[k].text[0] != '#'
    {
      assert SpanOk(Hpp, text, spans[k]);
      assert toks[k].text[0] == text[spans[k].start];
    }
  }

  /** A text holding only a comment gives flinch.cpp no token, and `lines.back()` is then undefined. */
  lemma CppCommentOnly()
    ensures CppLex("# note").Err? && CppLex("# note").error.Undefined?
  {
    var t := "# note";
    assert CommentEnd(t, 4) == 6;
    assert CommentEnd(t, 0) == 6;
    assert SkipSpace(t, 0, 0) == (0, 0);
    assert LexFrom(Cpp, t, 6, 0) == Ok([]);
    assert LexFrom(Cpp, t, 0, 0) == Ok([]);
  }

  /**
    A character literal is accepted before whitespace but refused when it
    ends the text: the bound check is `>=` on the position after it.
   */
  lemma HppCharLiteralAtEnd()
    ensures TokenEnd(Hpp, [Apostrophe, 'a', Apostrophe, ' '], 0) == Ok(3)
    ensures HppLex([Apostrophe, 'a', Apostrophe]).Err? && HppLex([Apostrophe, 'a', Apostrophe]).error.Thrown?
  {
    assert CharEnd([Apostrophe, 'a', Apostrophe], 0) == 3;
    assert TokenEnd(Hpp, [Apostrophe, 'a', Apostrophe], 0).Err?;
    assert SkipSpace([Apostrophe, 'a', Apostrophe], 0, 0) == (0, 0);
    assert LexFrom(Hpp, [Apostrophe, 'a', Apostrophe], 0, 0).Err?;
  }
}
