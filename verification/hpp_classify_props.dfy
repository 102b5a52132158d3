/**
  Properties of flinch.hpp's classification loop: what character, integer
  and double literals compile to, the invariants of the corrected loop
  (one token per classified text, `lines` parallel to the texts, the
  declaration stack and variable resolution read off the texts compiled so
  far), and an input on which the loop as written erases past the end of
  `lines`.
 */
module HppClassifyProps {
  import opened Wrappers
  import opened Tokens
  import IntLiteral
  import opened MachineInt
  import C = CppClassify
  import ShuntingYard
  import ShuntingYardProps
  import opened HppClassify

  // ----- literals -----

  /** A plain character literal of an ASCII character is that character's code. */
  lemma PlainCharLiteral(c: char)
    requires c as int < 128
    ensures CharToken([Apostrophe, c, Apostrophe]).Ok?
    ensures SignExtend32(CharToken([Apostrophe, c, Apostrophe]).value.n) == c as int
  {
  }

  /**
    The four escapes mean newline, carriage return, tab and backslash; a
    backslash before any other ASCII character means that character.
   */
  lemma EscapedCharLiteral(c: char)
    requires c as int < 128
    ensures var r := CharToken([Apostrophe, Backslash, c, Apostrophe]);
            r.Ok?
            && SignExtend32(r.value.n) == (if c == 'n' then 10 else if c == 'r' then 13 else if c == 't' then 9 else c as int)
  {
  }

  /** A four-character literal without the backslash is rejected. */
  lemma UnescapedPairRejected(a: char, b: char)
    requires a != Backslash
    ensures CharToken([Apostrophe, a, b, Apostrophe]) == Err(Thrown(BadCharLiteral))
  {
  }

  /**
    An integer literal compiles to a token that, read with the decoder that
    uses the encoder's constants, is the value `stoll` gives.
   */
  lemma IntLiteralValue(env: Env, t: string, s: C.Scopes, tabs: Tables)
    requires IntLiteral.IsIntToken(t) && IntLiteral.Stoll(t).Ok?
    ensures var num := IntLiteral.Stoll(t).value;
            var (l, ints) := IntLiteral.HppEncode(tabs.ints, num);
            && LiteralToken(env, t, s, tabs) == Ok((C.IntToken(l), tabs.(ints := ints)))
            && IntLiteral.HppDecodeFixed(ints, l) == num
  {
    var num := IntLiteral.Stoll(t).value;
    IntLiteral.HppFixedRoundTrip(tabs.ints, num);
  }

  /** A `double` whose low 32 bits are zero is inline, and its immediate is the high half. */
  lemma DoubleInlineHalf(bits: nat, tabs: Tables)
    requires bits < TWO_64 && bits % TWO_32 == 0
    ensures DoubleToken(bits, tabs) == (Make(DoubleInline, bits / TWO_32), tabs)
  {
  }

  // ----- the corrected loop -----

  /** The shapes the declaration stack sees for a list of classified texts. */
  function ScopeShapes(done: seq<string>): (r: seq<C.Shape>)
    requires forall k :: 0 <= k < |done| ==> |done[k]| > 0
    ensures |r| == |done|
    ensures forall k :: 0 <= k < |done| ==> r[k] == ScopeShape(ShapeOf(done[k]))
  {
    seq(|done|, k requires 0 <= k < |done| => ScopeShape(ShapeOf(done[k])))
  }

  /**
    The texts `done` were compiled into `p`: one token each, none `Exit`;
    the declaration stack is the one flinch.cpp's fold builds from them;
    and each `$x` became the lookup `Resolved` gives for the texts before
    it.
   */
  predicate Compiled(done: seq<string>, p: seq<Token>, scopes: C.Scopes) {
    && |p| == |done|
    && (forall k :: 0 <= k < |done| ==> Classified(done[k]) && p[k].kind != Exit)
    && C.ScopesAfter(ScopeShapes(done)) == Ok(scopes)
    && (forall k :: 0 <= k < |done| && ShapeOf(done[k]).LookupS? ==>
          C.Resolved(ScopeShapes(done)[..k], ShapeOf(done[k]).name, LocalVarLookup, GlobalVarLookup) == Ok(p[k].kind))
  }

  /** Classifying one more text keeps `Compiled`. */
  lemma CompiledStep(env: Env, done: seq<string>, p: seq<Token>, scopes: C.Scopes, tabs: Tables, t: string)
    requires Compiled(done, p, scopes) && Classified(t)
    requires ClassifyText(env, t, scopes, tabs).Ok?
    ensures var (s2, tok, _) := ClassifyText(env, t, scopes, tabs).value;
            Compiled(done + [t], p + [tok], s2)
  {
    var (s2, tok, tabs2) := ClassifyText(env, t, scopes, tabs).value;
    var done2, p2 := done + [t], p + [tok];
    var sh, sh2 := ScopeShapes(done), ScopeShapes(done2);
    assert sh2 == sh + [ScopeShape(ShapeOf(t))];
    assert sh2[..|done|] == sh;
    assert C.ScopesAfter(sh2) == Ok(s2);
    forall k | 0 <= k < |done2| && ShapeOf(done2[k]).LookupS?
      ensures C.Resolved(sh2[..k], ShapeOf(done2[k]).name, LocalVarLookup, GlobalVarLookup) == Ok(p2[k].kind)
    {
      if k < |done| {
        assert sh2[..k] == sh[..k];
        assert done2[k] == done[k] && p2[k] == p[k];
      } else {
        LookupStep(env, sh, scopes, tabs, t);
      }
    }
  }

  /** The token of a `$x` text is the resolution `Resolved` gives for the shapes before it. */
  lemma LookupStep(env: Env, sh: seq<C.Shape>, scopes: C.Scopes, tabs: Tables, t: string)
    requires C.ScopesAfter(sh) == Ok(scopes) && |t| > 0 && ShapeOf(t).LookupS?
    requires ClassifyText(env, t, scopes, tabs).Ok?
    ensures C.Resolved(sh, ShapeOf(t).name, LocalVarLookup, GlobalVarLookup) == Ok(ClassifyText(env, t, scopes, tabs).value.1.kind)
  {
    C.ScopesResolve(sh, ShapeOf(t).name, LocalVarLookup, GlobalVarLookup);
    assert C.ScopeStep(scopes, ScopeShape(ShapeOf(t))) == Ok(scopes);
  }

  /** What the corrected loop leaves when it succeeds from a state where `lines` is parallel to the texts. */
  predicate LoadedWell(r: Loaded) {
    var n := |r.program| - 1;
    && 0 <= n <= |r.texts| && |r.lines| == |r.texts|
    && r.program[n] == Make(Exit, 0)
    && (n == |r.texts| || r.texts[n] == "")
    && Compiled(r.texts[..n], r.program[..n], r.scopes)
  }

  /**
    The corrected loop keeps `lines` parallel to the texts, so it never
    touches `lines` out of range; when it succeeds, the texts before the
    position it stopped at are exactly the ones it compiled, one token
    each, with `Exit` after them.
   */
  lemma {:induction false} LoadSync(env: Env, texts: seq<string>, lines: seq<int>, i: nat,
                                    scopes: C.Scopes, tabs: Tables, p: seq<Token>)
    requires i <= |texts| && |lines| == |texts|
    requires Compiled(texts[..i], p, scopes)
    ensures var r := LoadFrom(env, EraseTextAndLine, texts, lines, i, scopes, tabs, p);
            && (r.Err? ==> r.error != Undefined(LinesIndex))
            && (r.Ok? ==> LoadedWell(r.value))
    decreases |texts| - i
  {
    hide LoadFrom, LoadedWell, Compiled;
    if i == |texts| || texts[i] == "" {
      LoadSyncEnd(env, texts, lines, i, scopes, tabs, p);
    } else if texts[i] == "(" {
      LoadSyncParen(env, texts, lines, i, scopes, tabs, p);
    } else if IsSkip(texts[i]) {
      LoadSyncSkip(env, texts, lines, i, scopes, tabs, p);
    } else {
      LoadSyncClassify(env, texts, lines, i, scopes, tabs, p);
    }
  }

  lemma LoadSyncEnd(env: Env, texts: seq<string>, lines: seq<int>, i: nat,
                    scopes: C.Scopes, tabs: Tables, p: seq<Token>)
    requires i <= |texts| && |lines| == |texts| && (i == |texts| || texts[i] == "")
    requires Compiled(texts[..i], p, scopes)
    ensures var r := LoadFrom(env, EraseTextAndLine, texts, lines, i, scopes, tabs, p);
            && (r.Err? ==> r.error != Undefined(LinesIndex))
            && (r.Ok? ==> LoadedWell(r.value))
  {
    var r := LoadFrom(env, EraseTextAndLine, texts, lines, i, scopes, tabs, p);
    assert r.value.program[..i] == p;
  }

  lemma {:induction false} LoadSyncSkip(env: Env, texts: seq<string>, lines: seq<int>, i: nat,
                                        scopes: C.Scopes, tabs: Tables, p: seq<Token>)
    requires i < |texts| && |lines| == |texts| && texts[i] != "" && texts[i] != "(" && IsSkip(texts[i])
    requires Compiled(texts[..i], p, scopes)
    ensures var r := LoadFrom(env, EraseTextAndLine, texts, lines, i, scopes, tabs, p);
            && (r.Err? ==> r.error != Undefined(LinesIndex))
            && (r.Ok? ==> LoadedWell(r.value))
    decreases |texts| - i, 0
  {
    var t2, l2 := ShuntingYard.Erase(texts, i), ShuntingYard.Erase(lines, i);
    assert t2[..i] == texts[..i];
    assert LoadFrom(env, EraseTextAndLine, texts, lines, i, scopes, tabs, p)
        == LoadFrom(env, EraseTextAndLine, t2, l2, i, scopes, tabs, p);
    LoadSync(env, t2, l2, i, scopes, tabs, p);
  }

  lemma {:induction false} LoadSyncParen(env: Env, texts: seq<string>, lines: seq<int>, i: nat,
                                         scopes: C.Scopes, tabs: Tables, p: seq<Token>)
    requires i < |texts| && |lines| == |texts| && texts[i] == "("
    requires Compiled(texts[..i], p, scopes)
    ensures var r := LoadFrom(env, EraseTextAndLine, texts, lines, i, scopes, tabs, p);
            && (r.Err? ==> r.error != Undefined(LinesIndex))
            && (r.Ok? ==> LoadedWell(r.value))
    decreases |texts| - i, 0
  {
    ShuntingYardProps.RewriteParallel(texts, lines, i);
    if ShuntingYard.Rewrite(texts, lines, i).Ok? {
      var (t2, l2) := ShuntingYard.Rewrite(texts, lines, i).value;
      ShuntingYardProps.RewriteSpec(texts, lines, i);
      LoadSync(env, t2, l2, i, scopes, tabs, p);
    }
  }

  lemma {:induction false} LoadSyncClassify(env: Env, texts: seq<string>, lines: seq<int>, i: nat,
                                            scopes: C.Scopes, tabs: Tables, p: seq<Token>)
    requires i < |texts| && |lines| == |texts| && Classified(texts[i])
    requires Compiled(texts[..i], p, scopes)
    ensures var r := LoadFrom(env, EraseTextAndLine, texts, lines, i, scopes, tabs, p);
            && (r.Err? ==> r.error != Undefined(LinesIndex))
            && (r.Ok? ==> LoadedWell(r.value))
    decreases |texts| - i, 0
  {
    hide LoadFrom, Compiled, LoadedWell;
    LoadClassifyStep(env, EraseTextAndLine, texts, lines, i, scopes, tabs, p);
    if ClassifyText(env, texts[i], scopes, tabs).Ok? {
      var (s2, tok, tabs2) := ClassifyText(env, texts[i], scopes, tabs).value;
      CompiledStep(env, texts[..i], p, scopes, tabs, texts[i]);
      assert texts[..i + 1] == texts[..i] + [texts[i]];
      LoadSync(env, texts, lines, i + 1, s2, tabs2, p + [tok]);
    }
  }

  /** The corrected loop from the start: parallel `lines` never fault, and the result is `LoadedWell`. */
  lemma LoadWell(env: Env, texts: seq<string>, lines: seq<int>)
    requires |lines| == |texts|
    ensures Load(env, texts, lines).Err? ==> Load(env, texts, lines).error != Undefined(LinesIndex)
    ensures Load(env, texts, lines).Ok? ==> LoadedWell(Load(env, texts, lines).value)
  {
    assert C.ScopesAfter(ScopeShapes([])) == Ok([[]]);
    LoadSync(env, texts, lines, 0, [[]], INITIAL_TABLES, []);
  }

  // ----- the loop as written -----

  /**
    Two skipped texts in a row at the end of the program: the loop as
    written erases `lines[0]`, then `lines[1]` of a one-entry `lines`,
    which is undefined behaviour; the corrected loop compiles the empty
    program.
   */
  lemma TwoSkipsAtEnd(env: Env, a: string, b: string, la: int, lb: int)
    requires IsSkip(a) && IsSkip(b)
    ensures LoadAsWritten(env, [a, b], [la, lb]) == Err(Undefined(LinesIndex))
    ensures Load(env, [a, b], [la, lb]).Ok?
    ensures Load(env, [a, b], [la, lb]).value.program == [Make(Exit, 0)]
  {
    var texts, lines := [a, b], [la, lb];
    assert a != "" && a != "(" && b != "" && b != "(";
    var l1 := ShuntingYard.Erase(lines, 0);
    assert LoadAsWritten(env, texts, lines) == LoadFrom(env, EraseLine, texts, l1, 1, [[]], INITIAL_TABLES, []);
    var t1 := ShuntingYard.Erase(texts, 0);
    assert t1 == [b];
    assert Load(env, texts, lines) == LoadFrom(env, EraseTextAndLine, t1, l1, 0, [[]], INITIAL_TABLES, []);
    var t2, l2 := ShuntingYard.Erase(t1, 0), ShuntingYard.Erase(l1, 0);
    assert t2 == [];
    assert Load(env, texts, lines) == LoadFrom(env, EraseTextAndLine, t2, l2, 0, [[]], INITIAL_TABLES, []);
  }
}
