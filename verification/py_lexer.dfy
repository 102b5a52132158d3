/**
  The tokenizer of the Python reference interpreter (`next` in etc/flinch.py).

  Space, tab, CR and LF separate tokens; `#` ends the current token and starts
  a comment that runs to the next CR or LF. Every CR or LF that is consumed
  bumps the line counter by one, and every token is tagged with the counter
  plus one. Scanning always succeeds; when the text ends in whitespace or a
  comment the last token is the empty string, which the interpreter treats as
  the end of the program.
 */
module PyLexer {

  /** The characters `next` never puts into a token: " \t\r\n#". */
  predicate IsSkip(c: char) {
    c == ' ' || c == '\t' || c == '\r' || c == '\n' || c == '#'
  }

  predicate IsNewline(c: char) {
    c == '\r' || c == '\n'
  }

  /** The number of CR and LF characters in `text[i..j]`. */
  function Newlines(text: string, i: nat, j: nat): nat
    requires i <= j <= |text|
    decreases j - i
  {
    if i == j then 0 else (if IsNewline(text[i]) then 1 else 0) + Newlines(text, i + 1, j)
  }

  lemma {:induction false} NewlinesSplit(text: string, i: nat, k: nat, j: nat)
    requires i <= k <= j <= |text|
    ensures Newlines(text, i, j) == Newlines(text, i, k) + Newlines(text, k, j)
    decreases k - i
  {
    if i < k {
      NewlinesSplit(text, i + 1, k, j);
    }
  }

  /** The inner loop over a comment: stops at the first CR or LF, or at the end. */
  function CommentEnd(text: string, i: nat): (j: nat)
    requires i <= |text|
    ensures i <= j <= |text|
    ensures j == |text| || IsNewline(text[j])
    ensures Newlines(text, i, j) == 0
    decreases |text| - i
  {
    if i < |text| && !IsNewline(text[i]) then CommentEnd(text, i + 1) else i
  }

  /** The loop after a comment: consumes a run of CR/LF, counting each. */
  function NewlineRun(text: string, i: nat): (j: nat)
    requires i <= |text|
    ensures i <= j <= |text|
    ensures j == |text| || !IsNewline(text[j])
    ensures Newlines(text, i, j) == j - i
    ensures i < |text| && IsNewline(text[i]) ==> i < j
    ensures forall k :: i <= k < j ==> IsNewline(text[k])
    decreases |text| - i
  {
    if i < |text| && IsNewline(text[i]) then NewlineRun(text, i + 1) else i
  }

  /**
    The skipping loop at the head of `next`, from position `i` with line
    counter `line`; returns the position of the token start and the new counter.
   */
  function SkipGap(text: string, i: nat, line: nat): (r: (nat, nat))
    requires i <= |text|
    ensures i <= r.0 <= |text|
    ensures r.0 == |text| || !IsSkip(text[r.0])
    ensures r.1 == line + Newlines(text, i, r.0)
    ensures r.0 > i ==> IsSkip(text[r.0 - 1]) || r.0 == |text|
    decreases |text| - i
  {
    if i < |text| && IsSkip(text[i]) then
      if text[i] != '#' then
        var r := SkipGap(text, i + 1, if IsNewline(text[i]) then line + 1 else line);
        NewlinesSplit(text, i, i + 1, r.0);
        r
      else
        var j := CommentEnd(text, i);
        assert i < j;
        var k := NewlineRun(text, j);
        var r := SkipGap(text, k, line + (k - j));
        NewlinesSplit(text, i, j, k);
        NewlinesSplit(text, i, k, r.0);
        r
    else
      (i, line)
  }

  /** The token loop of `next`: the first skip character at or after `i`. */
  function TokenEnd(text: string, i: nat): (j: nat)
    requires i <= |text|
    ensures i <= j <= |text|
    ensures j == |text| || IsSkip(text[j])
    ensures forall k :: i <= k < j ==> !IsSkip(text[k])
    decreases |text| - i
  {
    if i < |text| && !IsSkip(text[i]) then TokenEnd(text, i + 1) else i
  }

  /** A token as produced by the top-level loop: its text, its line tag, and where it starts. */
  datatype Lexeme = Lexeme(tok: string, line: nat, start: nat)

  /**
    One call of `next` from position `i` with counter `line`:
    the token, the position after it, and the new counter.
   */
  function Next(text: string, i: nat, line: nat): (r: (string, nat, nat))
    requires i <= |text|
    ensures i <= r.1 <= |text|
    ensures i < |text| ==> i < r.1
    ensures forall c :: c in r.0 ==> !IsSkip(c)
    ensures r.2 == line + Newlines(text, i, r.1)
    ensures r.0 == "" ==> r.1 == |text|
    ensures r.1 < |text| ==> IsSkip(text[r.1])
  {
    var (s, l) := SkipGap(text, i, line);
    var e := TokenEnd(text, s);
    NewlinesNoneInToken(text, s, e);
    NewlinesSplit(text, i, s, e);
    (text[s..e], e, l)
  }

  lemma {:induction false} NewlinesNoneInToken(text: string, s: nat, e: nat)
    requires s <= e <= |text|
    requires forall k :: s <= k < e ==> !IsSkip(text[k])
    ensures Newlines(text, s, e) == 0
    decreases e - s
  {
    if s < e {
      NewlinesNoneInToken(text, s + 1, e);
    }
  }

  /** The top-level loop `while i < len(text): program.append(next()); lines.append(line + 1)`. */
  function TokenizeFrom(text: string, i: nat, line: nat): (toks: seq<Lexeme>)
    requires i <= |text|
    decreases |text| - i
  {
    if i < |text| then
      var (_, j, l) := Next(text, i, line);
      [HeadLexeme(text, i, line)] + TokenizeFrom(text, j, l)
    else
      []
  }

  /**
    `tokenize(text)`: every token is a maximal run of the text, in text
    order, tagged with one more than the line breaks before it; only the
    last may be empty, and only at the end of the text.
   */
  function Tokenize(text: string): (toks: seq<Lexeme>)
    ensures LexemesFaithful(text, toks, 0)
  {
    TokenizeFromSpec(text, 0, 0);
    TokenizeFrom(text, 0, 0)
  }

  /** Token `t` is a maximal run of non-skip characters of `text` starting at `t.start`. */
  predicate IsMaximalRun(text: string, t: Lexeme) {
    && t.start + |t.tok| <= |text|
    && text[t.start..t.start + |t.tok|] == t.tok
    && (forall c :: c in t.tok ==> !IsSkip(c))
    && (t.tok == "" || t.start == 0 || IsSkip(text[t.start - 1]))
    && (t.start + |t.tok| == |text| || IsSkip(text[t.start + |t.tok|]))
  }

  /**
    Every lexeme from position `from` on is a maximal run of non-skip
    characters, tagged with one more than the number of CR/LF characters before
    it; lexemes appear in text order, separated by skipped text; only the last
    one can be empty.
   */
  predicate LexemesFaithful(text: string, toks: seq<Lexeme>, from: nat) {
    && (forall k :: 0 <= k < |toks| ==> IsMaximalRun(text, toks[k]) && from <= toks[k].start)
    && (forall k :: 0 <= k < |toks| ==> toks[k].start <= |text| && toks[k].line == Newlines(text, 0, toks[k].start) + 1)
    && (forall k :: 0 <= k < |toks| - 1 ==> toks[k].tok != "" && toks[k].start + |toks[k].tok| < toks[k + 1].start)
    && (forall k :: 0 <= k < |toks| ==> toks[k].tok == "" ==> toks[k].start == |text|)
  }

  /** The lexeme the top-level loop records when it calls `next` at position `i`. */
  function HeadLexeme(text: string, i: nat, line: nat): Lexeme
    requires i <= |text|
  {
    var r := Next(text, i, line);
    Lexeme(r.0, r.2 + 1, SkipGap(text, i, line).0)
  }

  lemma {:induction false} HeadLexemeSpec(text: string, i: nat, line: nat)
    requires i < |text|
    requires line == Newlines(text, 0, i)
    requires i == 0 || IsSkip(text[i])
    ensures var h := HeadLexeme(text, i, line);
      && IsMaximalRun(text, h)
      && i <= h.start
      && h.line == Newlines(text, 0, h.start) + 1
      && h.start + |h.tok| == Next(text, i, line).1
      && (h.tok == "" ==> h.start == |text|)
      && Next(text, i, line).2 == Newlines(text, 0, Next(text, i, line).1)
  {
    var (s, l) := SkipGap(text, i, line);
    var e := TokenEnd(text, s);
    assert Next(text, i, line) == (text[s..e], e, l);
    NewlinesSplit(text, 0, i, s);
    NewlinesNoneInToken(text, s, e);
    NewlinesSplit(text, 0, s, e);
    NewlinesSplit(text, 0, i, e);
    NewlinesSplit(text, i, s, e);
    assert s == |text| || s == 0 || IsSkip(text[s - 1]);
  }

  /** The top-level loop from any token boundary produces faithful lexemes. */
  lemma {:induction false} TokenizeFromSpec(text: string, i: nat, line: nat)
    requires i <= |text|
    requires line == Newlines(text, 0, i)
    requires i == 0 || i == |text| || IsSkip(text[i])
    ensures LexemesFaithful(text, TokenizeFrom(text, i, line), i)
    decreases |text| - i
  {
    if i < |text| {
      var head := HeadLexeme(text, i, line);
      var r := Next(text, i, line);
      var tok, j, l2 := r.0, r.1, r.2;
      HeadLexemeSpec(text, i, line);
      TokenizeFromSpec(text, j, l2);
      var rest := TokenizeFrom(text, j, l2);
      var toks := TokenizeFrom(text, i, line);
      assert toks == [head] + rest;
      if |rest| > 0 {
        assert rest[0] == HeadLexeme(text, j, l2);
        assert j < rest[0].start;
        assert tok != "";
      }
      forall k | 0 <= k < |toks| - 1
        ensures toks[k].tok != "" && toks[k].start + |toks[k].tok| < toks[k + 1].start
      {
        if k > 0 {
          assert toks[k] == rest[k - 1] && toks[k + 1] == rest[k];
        }
      }
      forall k | 0 <= k < |toks|
        ensures IsMaximalRun(text, toks[k]) && i <= toks[k].start
        ensures toks[k].line == Newlines(text, 0, toks[k].start) + 1
        ensures toks[k].tok == "" ==> toks[k].start == |text|
      {
        if k > 0 {
          assert toks[k] == rest[k - 1];
        } else {
          assert toks[0] == head;
        }
      }
    }
  }

  /**
    A text that ends in a space, tab, CR, LF or `#` yields the empty token
    last, which is what stops the interpreter's loop.
   */
  lemma EndMarkerWhenTextEndsInSkip(text: string)
    requires |text| > 0 && IsSkip(text[|text| - 1])
    ensures var toks := Tokenize(text);
      |toks| > 0 && toks[|toks| - 1].tok == "" && forall k :: 0 <= k < |toks| - 1 ==> toks[k].tok != ""
  {
    TokenizeFromSpec(text, 0, 0);
    TokenizeFromReachesEnd(text, 0, 0);
    var toks := TokenizeFrom(text, 0, 0);
    RunEndsInToken(text, toks[|toks| - 1]);
  }

  /** A non-empty maximal run ends on a character that is not skipped. */
  lemma RunEndsInToken(text: string, t: Lexeme)
    requires IsMaximalRun(text, t)
    ensures |t.tok| > 0 ==> !IsSkip(text[t.start + |t.tok| - 1])
  {
    if |t.tok| > 0 {
      assert text[t.start + |t.tok| - 1] == t.tok[|t.tok| - 1];
      assert t.tok[|t.tok| - 1] in t.tok;
    }
  }

  /** The top-level loop runs until its last token ends at the end of the text. */
  lemma {:induction false} TokenizeFromReachesEnd(text: string, i: nat, line: nat)
    requires i < |text|
    ensures var toks := TokenizeFrom(text, i, line);
      |toks| > 0 && toks[|toks| - 1].start + |toks[|toks| - 1].tok| == |text|
    decreases |text| - i
  {
    var r := Next(text, i, line);
    if r.1 < |text| {
      TokenizeFromReachesEnd(text, r.1, r.2);
    }
  }

}
