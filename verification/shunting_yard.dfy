/**
  flinch.hpp's `shunting_yard` (flinch.hpp:405-464): the infix group that
  starts with the `(` at index `start` of the token texts is rewritten in
  place into postfix order.

  The `(` and its closing `)` are deleted, and the texts between them are
  reordered by Dijkstra's shunting-yard algorithm: operands, and whole
  nested groups `( ... )` or `(( ... ))`, are emitted as they come, and
  operators wait on a stack until an operator binding no tighter arrives.
  The source line of each text moves with it, since `lines` is permuted
  by the same order.

  The algorithm only computes an order: `nums`, the indices of the texts in
  the order they are emitted. `Order` computes it and `Rewrite` applies it.
 */
module ShuntingYard {
  import opened Wrappers
  import opened Tokens

  /** The `prec` table: how tightly each infix operator binds. */
  function Prec(t: string): Option<nat> {
    if t in {"@", "@-", "@--", "@+", "@++", "@@"} then Some(6)
    else if t in {"*", "/", "%", "<<", ">>", "&"} then Some(5)
    else if t in {"+", "-", "|", "^"} then Some(4)
    else if t in {"==", "<=", ">=", "!=", ">", "<"} then Some(3)
    else if t in {"and", "or"} then Some(2)
    else if t in {"->", "+=", "-=", "*=", "/=", "%="} then Some(1)
    else if t == ";" then Some(0)
    else None
  }

  predicate IsOperator(t: string) {
    Prec(t).Some?
  }

  /** `prec[t]`: `operator[]` of `PODListMap` yields 0 for a text not in the table. */
  function PrecOf(t: string): nat {
    match Prec(t)
    case Some(p) => p
    case None => 0
  }

  predicate Opens(t: string) {
    t == "(" || t == "(("
  }

  predicate Closes(t: string) {
    t == ")" || t == "))"
  }

  /** How a text changes the nesting depth `x` of the inner loop. */
  function Depth(t: string): int {
    (if Opens(t) then 1 else 0) - (if Closes(t) then 1 else 0)
  }

  /** The indices `a, a + 1, ..., b - 1`. */
  function Range(a: nat, b: nat): (r: seq<nat>)
    requires a <= b
    ensures |r| == b - a
    ensures forall k :: 0 <= k < |r| ==> r[k] == a + k
    decreases b - a
  {
    if a == b then [] else [a] + Range(a + 1, b)
  }

  /** The stack `s`, read from the top down. */
  function Reverse<T>(s: seq<T>): (r: seq<T>)
    ensures |r| == |s|
    ensures forall k :: 0 <= k < |s| ==> r[k] == s[|s| - 1 - k]
  {
    if |s| == 0 then [] else [s[|s| - 1]] + Reverse(s[..|s| - 1])
  }

  /**
    The inner `for` loop, entered at an opening paren: it runs through
    balanced groups, one after another, and stops at the first text that
    leaves the depth at 0 and does not open a new group.
   */
  function GroupEnd(texts: seq<string>, i: nat, x: int): (r: nat)
    requires i <= |texts|
    ensures i <= r <= |texts|
    ensures i < |texts| && Opens(texts[i]) ==> i < r
    decreases |texts| - i
  {
    if i < |texts| && (x != 0 || Opens(texts[i])) then GroupEnd(texts, i + 1, x + Depth(texts[i]))
    else i
  }

  predicate Below(ops: seq<nat>, n: nat) {
    forall k :: 0 <= k < |ops| ==> ops[k] < n
  }

  /** `s` reversed is its back part reversed, then its front part reversed. */
  lemma {:induction false} ReverseSplit<T>(s: seq<T>, k: nat)
    requires k <= |s|
    ensures Reverse(s) == Reverse(s[k..]) + Reverse(s[..k])
    decreases |s|
  {
    if k == |s| {
      assert s[k..] == [] && s[..k] == s;
    } else {
      var n := |s| - 1;
      var a := s[k..];
      ReverseSplit(s[..n], k);
      assert s[..n][k..] == a[..|a| - 1] && s[..n][..k] == s[..k];
      assert Reverse(a) == [s[n]] + Reverse(a[..|a| - 1]);
    }
  }

  /**
    How many operators stay on the stack: the `while` loop pops from the
    top every operator that binds at least as tightly as `p`.
   */
  function Kept(texts: seq<string>, p: nat, ops: seq<nat>): (k: nat)
    requires Below(ops, |texts|)
    ensures k <= |ops|
    ensures forall j :: k <= j < |ops| ==> p <= PrecOf(texts[ops[j]])
    ensures k > 0 ==> PrecOf(texts[ops[k - 1]]) < p
    decreases |ops|
  {
    if |ops| > 0 && p <= PrecOf(texts[ops[|ops| - 1]]) then Kept(texts, p, ops[..|ops| - 1])
    else |ops|
  }

  /**
    `while (ops.size() && prec[t] <= prec[texts[ops.back()]])`: move every
    stacked operator that binds at least as tightly as the incoming one, of
    precedence `p`, to the output.
   */
  function Unstack(texts: seq<string>, p: nat, nums: seq<nat>, ops: seq<nat>): (r: (seq<nat>, seq<nat>))
    requires Below(ops, |texts|)
    ensures |r.1| <= |ops| && r.1 == ops[..|r.1|]
    ensures r.0 + Reverse(r.1) == nums + Reverse(ops)
    ensures |r.0| == |nums| + |ops| - |r.1| && r.0[..|nums|] == nums
    ensures forall k :: |nums| <= k < |r.0| ==> r.0[k] == ops[|ops| - 1 - (k - |nums|)]
    ensures forall k :: |r.1| <= k < |ops| ==> p <= PrecOf(texts[ops[k]])
    ensures |r.1| > 0 ==> PrecOf(texts[r.1[|r.1| - 1]]) < p
  {
    var k := Kept(texts, p, ops);
    ReverseSplit(ops, k);
    (nums + Reverse(ops[k..]), ops[..k])
  }

  /**
    The main loop of `shunting_yard` from index `i`, with output `nums` and
    operator stack `ops` so far: the index of the closing `)` and the
    complete output order, or the "must end in a closing paren" exception.
   */
  function Scan(texts: seq<string>, i: nat, nums: seq<nat>, ops: seq<nat>): (r: Result<(nat, seq<nat>), Fault>)
    requires i <= |texts| && Below(ops, |texts|)
    ensures r.Err? ==> r.error == Thrown(UnclosedParen)
    ensures r.Ok? ==> i <= r.value.0 < |texts| && texts[r.value.0] == ")"
    decreases |texts| - i
  {
    if i == |texts| then Err(Thrown(UnclosedParen))
    else if texts[i] == ")" then Ok((i, nums + Reverse(ops)))
    else if Opens(texts[i]) then
      var e := GroupEnd(texts, i, 0);
      Scan(texts, e, nums + Range(i, e), ops)
    else if !IsOperator(texts[i]) then Scan(texts, i + 1, nums + [i], ops)
    else
      var (nums', ops') := Unstack(texts, PrecOf(texts[i]), nums, ops);
      Scan(texts, i + 1, nums', ops' + [i])
  }

  /** The texts with the one at `k` erased (`erase_at`). */
  function Erase<T>(s: seq<T>, k: nat): (r: seq<T>)
    requires k < |s|
    ensures |r| == |s| - 1
    ensures forall j :: 0 <= j < k ==> r[j] == s[j]
    ensures forall j :: k <= j < |r| ==> r[j] == s[j + 1]
  {
    s[..k] + s[k + 1..]
  }

  /** The order `shunting_yard` emits the texts in: indices into the texts with the `(` erased. */
  function Order(texts: seq<string>, start: nat): (r: Result<(nat, seq<nat>), Fault>)
    requires start < |texts|
    ensures r.Ok? ==> start <= r.value.0 < |texts| - 1 && texts[r.value.0 + 1] == ")"
  {
    Scan(Erase(texts, start), start, [], [])
  }

  /** `s[start..]` rewritten to `s[nums[0]], s[nums[1]], ...`, the rest kept. */
  function Permute<T>(s: seq<T>, start: nat, nums: seq<nat>): (r: seq<T>)
    requires start + |nums| <= |s| && Below(nums, |s|)
    ensures |r| == |s|
    ensures r[..start] == s[..start] && r[start + |nums|..] == s[start + |nums|..]
    ensures forall j :: 0 <= j < |nums| ==> r[start + j] == s[nums[j]]
  {
    s[..start] + seq(|nums|, j requires 0 <= j < |nums| => s[nums[j]]) + s[start + |nums|..]
  }

  /**
    `shunting_yard(start)` on `program_texts` and `lines`. `lines` can be
    shorter than the texts (the main loop erases a line for each `((`,
    `))` and `;` it skips), and erasing past its end is undefined
    behaviour. The error message for a missing `)` reads `lines[start]`
    after the erase; that stays inside the buffer, so the exception is
    thrown whatever it reads.
   */
  function Rewrite(texts: seq<string>, lines: seq<int>, start: nat): (r: Result<(seq<string>, seq<int>), Fault>)
    requires start < |texts|
  {
    if start >= |lines| then Err(Undefined(LinesIndex))
    else
      var lines1 := Erase(lines, start);
      match Order(texts, start)
      case Err(e) => Err(e)
      case Ok((c, nums)) =>
        OrderPermutes(texts, start);
        if c >= |lines1| then Err(Undefined(LinesIndex))
        else
          var texts1 := Erase(texts, start);
          Ok((Erase(Permute(texts1, start, nums), c), Erase(Permute(lines1, start, nums), c)))
  }

  // ----- the order is a permutation -----

  lemma {:induction false} ReverseMultiset<T>(s: seq<T>)
    ensures multiset(Reverse(s)) == multiset(s)
    decreases |s|
  {
    if |s| > 0 {
      ReverseMultiset(s[..|s| - 1]);
      assert s == s[..|s| - 1] + [s[|s| - 1]];
    }
  }

  /** Every index the scan emits is an earlier output, a stacked operator, or a text up to the `)`. */
  lemma {:induction false} ScanPermutes(texts: seq<string>, i: nat, nums: seq<nat>, ops: seq<nat>)
    requires i <= |texts| && Below(ops, |texts|)
    requires Scan(texts, i, nums, ops).Ok?
    ensures multiset(Scan(texts, i, nums, ops).value.1)
            == multiset(nums) + multiset(ops) + multiset(Range(i, Scan(texts, i, nums, ops).value.0))
    decreases |texts| - i, 1
  {
    if texts[i] == ")" {
      ReverseMultiset(ops);
    } else if Opens(texts[i]) {
      ScanPermutesGroup(texts, i, nums, ops);
    } else if !IsOperator(texts[i]) {
      ScanPermutesOperand(texts, i, nums, ops);
    } else {
      ScanPermutesOperator(texts, i, nums, ops);
    }
  }

  lemma {:induction false} ScanPermutesGroup(texts: seq<string>, i: nat, nums: seq<nat>, ops: seq<nat>)
    requires i < |texts| && Below(ops, |texts|) && Opens(texts[i])
    requires Scan(texts, i, nums, ops).Ok?
    ensures multiset(Scan(texts, i, nums, ops).value.1)
            == multiset(nums) + multiset(ops) + multiset(Range(i, Scan(texts, i, nums, ops).value.0))
    decreases |texts| - i, 0
  {
    var e := GroupEnd(texts, i, 0);
    var c := Scan(texts, e, nums + Range(i, e), ops).value.0;
    ScanPermutes(texts, e, nums + Range(i, e), ops);
    assert Range(i, e) + Range(e, c) == Range(i, c);
  }

  lemma {:induction false} ScanPermutesOperand(texts: seq<string>, i: nat, nums: seq<nat>, ops: seq<nat>)
    requires i < |texts| && Below(ops, |texts|) && texts[i] != ")" && !Opens(texts[i]) && !IsOperator(texts[i])
    requires Scan(texts, i, nums, ops).Ok?
    ensures multiset(Scan(texts, i, nums, ops).value.1)
            == multiset(nums) + multiset(ops) + multiset(Range(i, Scan(texts, i, nums, ops).value.0))
    decreases |texts| - i, 0
  {
    var c := Scan(texts, i + 1, nums + [i], ops).value.0;
    ScanPermutes(texts, i + 1, nums + [i], ops);
    assert Range(i, c) == [i] + Range(i + 1, c);
  }

  lemma {:induction false} ScanPermutesOperator(texts: seq<string>, i: nat, nums: seq<nat>, ops: seq<nat>)
    requires i < |texts| && Below(ops, |texts|) && texts[i] != ")" && !Opens(texts[i]) && IsOperator(texts[i])
    requires Scan(texts, i, nums, ops).Ok?
    ensures multiset(Scan(texts, i, nums, ops).value.1)
            == multiset(nums) + multiset(ops) + multiset(Range(i, Scan(texts, i, nums, ops).value.0))
    decreases |texts| - i, 0
  {
    var (nums', ops') := Unstack(texts, PrecOf(texts[i]), nums, ops);
    var c := Scan(texts, i + 1, nums', ops' + [i]).value.0;
    ScanPermutes(texts, i + 1, nums', ops' + [i]);
    UnstackMultiset(texts, PrecOf(texts[i]), nums, ops);
    assert Range(i, c) == [i] + Range(i + 1, c);
  }

  /** Moving operators from the stack to the output loses and gains none. */
  lemma UnstackMultiset(texts: seq<string>, p: nat, nums: seq<nat>, ops: seq<nat>)
    requires Below(ops, |texts|)
    ensures multiset(Unstack(texts, p, nums, ops).0) + multiset(Unstack(texts, p, nums, ops).1)
            == multiset(nums) + multiset(ops)
  {
    var (nums', ops') := Unstack(texts, p, nums, ops);
    ReverseMultiset(ops);
    ReverseMultiset(ops');
    assert multiset(nums' + Reverse(ops')) == multiset(nums + Reverse(ops));
  }

  lemma InRange(a: nat, b: nat, x: nat)
    requires a <= b
    ensures x in multiset(Range(a, b)) <==> a <= x < b
  {
    if a <= x < b {
      assert Range(a, b)[x - a] == x;
    }
  }

  /**
    The order holds each index between the `(` and the `)` exactly once
    (the `(` already erased, so these are `[start, c)` for the `)` at
    `c`).
   */
  lemma OrderPermutes(texts: seq<string>, start: nat)
    requires start < |texts|
    ensures Order(texts, start).Ok? ==>
              var (c, nums) := Order(texts, start).value;
              multiset(nums) == multiset(Range(start, c)) && |nums| == c - start
              && forall k :: 0 <= k < |nums| ==> start <= nums[k] < c
  {
    if Order(texts, start).Ok? {
      var (c, nums) := Order(texts, start).value;
      ScanPermutes(Erase(texts, start), start, [], []);
      assert multiset(nums) == multiset(Range(start, c));
      assert |nums| == |multiset(nums)| == |multiset(Range(start, c))| == c - start;
      forall k | 0 <= k < |nums|
        ensures start <= nums[k] < c
      {
        assert nums[k] in multiset(nums);
        InRange(start, c, nums[k]);
      }
    }
  }
}

module ShuntingYardProps {
  import opened Wrappers
  import opened Tokens
  import opened ShuntingYard

  // ----- operands keep their order -----

  /** The non-operator texts named in `s` appear in increasing order. */
  predicate OperandsInOrder(texts: seq<string>, s: seq<nat>) {
    forall j1, j2 ::
      (0 <= j1 < j2 < |s| && s[j1] < |texts| && s[j2] < |texts|
       && !IsOperator(texts[s[j1]]) && !IsOperator(texts[s[j2]])) ==> s[j1] < s[j2]
  }

  predicate AllOperators(texts: seq<string>, ops: seq<nat>) {
    forall k :: 0 <= k < |ops| ==> ops[k] < |texts| && IsOperator(texts[ops[k]])
  }

  /** The invariant of the scan: earlier output and stacked operators all lie before `i`. */
  predicate Invariant(texts: seq<string>, i: nat, nums: seq<nat>, ops: seq<nat>) {
    i <= |texts| && Below(nums, i) && Below(ops, i) && AllOperators(texts, ops) && OperandsInOrder(texts, nums)
  }

  lemma {:induction false} ScanOperandOrder(texts: seq<string>, i: nat, nums: seq<nat>, ops: seq<nat>)
    requires Invariant(texts, i, nums, ops)
    requires Scan(texts, i, nums, ops).Ok?
    ensures OperandsInOrder(texts, Scan(texts, i, nums, ops).value.1)
    decreases |texts| - i, 1
  {
    if texts[i] == ")" {
      var out := nums + Reverse(ops);
      forall j | |nums| <= j < |out|
        ensures IsOperator(texts[out[j]])
      {
        assert out[j] == ops[|ops| - 1 - (j - |nums|)];
      }
      forall j1, j2 | 0 <= j1 < j2 < |out| && out[j1] < |texts| && out[j2] < |texts|
          && !IsOperator(texts[out[j1]]) && !IsOperator(texts[out[j2]])
        ensures out[j1] < out[j2]
      {
        assert out[j1] == nums[j1] && out[j2] == nums[j2];
      }
    } else if Opens(texts[i]) {
      ScanOperandOrderGroup(texts, i, nums, ops);
    } else if !IsOperator(texts[i]) {
      ScanOperandOrderOperand(texts, i, nums, ops);
    } else {
      ScanOperandOrderOperator(texts, i, nums, ops);
    }
  }

  lemma {:induction false} ScanOperandOrderGroup(texts: seq<string>, i: nat, nums: seq<nat>, ops: seq<nat>)
    requires Invariant(texts, i, nums, ops) && i < |texts| && Opens(texts[i])
    requires Scan(texts, i, nums, ops).Ok?
    ensures OperandsInOrder(texts, Scan(texts, i, nums, ops).value.1)
    decreases |texts| - i, 0
  {
    var e := GroupEnd(texts, i, 0);
    var nums' := nums + Range(i, e);
    forall j1, j2 | 0 <= j1 < j2 < |nums'| && nums'[j1] < |texts| && nums'[j2] < |texts|
        && !IsOperator(texts[nums'[j1]]) && !IsOperator(texts[nums'[j2]])
      ensures nums'[j1] < nums'[j2]
    {
      if j1 >= |nums| {
        assert nums'[j1] == i + (j1 - |nums|) && nums'[j2] == i + (j2 - |nums|);
      } else if j2 >= |nums| {
        assert nums'[j1] == nums[j1] && nums'[j2] == i + (j2 - |nums|);
      } else {
        assert nums'[j1] == nums[j1] && nums'[j2] == nums[j2];
      }
    }
    assert Below(nums', e);
    ScanOperandOrder(texts, e, nums', ops);
  }

  lemma {:induction false} ScanOperandOrderOperand(texts: seq<string>, i: nat, nums: seq<nat>, ops: seq<nat>)
    requires Invariant(texts, i, nums, ops) && i < |texts| && texts[i] != ")" && !Opens(texts[i]) && !IsOperator(texts[i])
    requires Scan(texts, i, nums, ops).Ok?
    ensures OperandsInOrder(texts, Scan(texts, i, nums, ops).value.1)
    decreases |texts| - i, 0
  {
    var nums' := nums + [i];
    forall j1, j2 | 0 <= j1 < j2 < |nums'| && nums'[j1] < |texts| && nums'[j2] < |texts|
        && !IsOperator(texts[nums'[j1]]) && !IsOperator(texts[nums'[j2]])
      ensures nums'[j1] < nums'[j2]
    {
      if j2 < |nums| {
        assert nums'[j1] == nums[j1] && nums'[j2] == nums[j2];
      }
    }
    ScanOperandOrder(texts, i + 1, nums', ops);
  }

  lemma {:induction false} ScanOperandOrderOperator(texts: seq<string>, i: nat, nums: seq<nat>, ops: seq<nat>)
    requires Invariant(texts, i, nums, ops) && i < |texts| && texts[i] != ")" && !Opens(texts[i]) && IsOperator(texts[i])
    requires Scan(texts, i, nums, ops).Ok?
    ensures OperandsInOrder(texts, Scan(texts, i, nums, ops).value.1)
    decreases |texts| - i, 0
  {
    var (nums', ops') := Unstack(texts, PrecOf(texts[i]), nums, ops);
    assert Scan(texts, i, nums, ops) == Scan(texts, i + 1, nums', ops' + [i]);
    UnstackInvariant(texts, i, nums, ops);
    hide Scan, Unstack, Invariant, OperandsInOrder;
    ScanOperandOrder(texts, i + 1, nums', ops' + [i]);
  }

  /** Unstacking before an operator, then stacking it, keeps the scan's invariant. */
  lemma UnstackInvariant(texts: seq<string>, i: nat, nums: seq<nat>, ops: seq<nat>)
    requires Invariant(texts, i, nums, ops) && i < |texts| && IsOperator(texts[i])
    ensures var (nums', ops') := Unstack(texts, PrecOf(texts[i]), nums, ops);
            Invariant(texts, i + 1, nums', ops' + [i])
  {
    var (nums', ops') := Unstack(texts, PrecOf(texts[i]), nums, ops);
    forall k | 0 <= k < |nums'|
      ensures nums'[k] < i + 1
      ensures k >= |nums| ==> IsOperator(texts[nums'[k]])
    {
      if k >= |nums| {
        assert nums'[k] == ops[|ops| - 1 - (k - |nums|)];
      } else {
        assert nums'[k] == nums[k];
      }
    }
    forall j1, j2 | 0 <= j1 < j2 < |nums'| && nums'[j1] < |texts| && nums'[j2] < |texts|
        && !IsOperator(texts[nums'[j1]]) && !IsOperator(texts[nums'[j2]])
      ensures nums'[j1] < nums'[j2]
    {
      assert nums'[j1] == nums[j1] && nums'[j2] == nums[j2];
    }
    assert ops' == ops[..|ops'|];
  }

  /** Operands, and the texts of nested groups, leave the group in the order they came in. */
  lemma OrderOperandsInOrder(texts: seq<string>, start: nat)
    requires start < |texts| && Order(texts, start).Ok?
    ensures OperandsInOrder(Erase(texts, start), Order(texts, start).value.1)
  {
    ScanOperandOrder(Erase(texts, start), start, [], []);
  }

  // ----- the operator stack -----

  /** The stacked operators bind strictly tighter from the bottom up. */
  predicate Rising(texts: seq<string>, ops: seq<nat>)
    requires Below(ops, |texts|)
  {
    forall j, k :: 0 <= j < k < |ops| ==> PrecOf(texts[ops[j]]) < PrecOf(texts[ops[k]])
  }

  /**
    Pushing an operator after unstacking keeps the stack rising, so an
    operator waits exactly until one binding no tighter arrives: equal
    precedence pops, which makes the operators left-associative.
   */
  lemma PushKeepsRising(texts: seq<string>, i: nat, nums: seq<nat>, ops: seq<nat>)
    requires i < |texts| && Below(ops, |texts|) && Rising(texts, ops)
    ensures var ops' := Unstack(texts, PrecOf(texts[i]), nums, ops).1;
            Below(ops' + [i], |texts|) && Rising(texts, ops' + [i])
  {
    var ops' := Unstack(texts, PrecOf(texts[i]), nums, ops).1;
    assert ops' == ops[..|ops'|];
    var s := ops' + [i];
    forall j, k | 0 <= j < k < |s|
      ensures PrecOf(texts[s[j]]) < PrecOf(texts[s[k]])
    {
      if k == |ops'| {
        assert s[j] == ops[j] && ops'[|ops'| - 1] == ops[|ops'| - 1];
        if j < |ops'| - 1 {
          assert PrecOf(texts[ops[j]]) < PrecOf(texts[ops[|ops'| - 1]]);
        }
      } else {
        assert s[j] == ops[j] && s[k] == ops[k];
      }
    }
  }

  // ----- the rewrite -----

  /** The shape of erasing the `(`, permuting the group, and erasing the `)`. */
  lemma {:induction false} RewriteShape<T>(s: seq<T>, start: nat, c: nat, nums: seq<nat>)
    requires start <= c && c + 1 < |s| && |nums| == c - start
    requires forall k :: 0 <= k < |nums| ==> start <= nums[k] < c
    ensures Below(nums, |s| - 1)
    ensures var r := Erase(Permute(Erase(s, start), start, nums), c);
            |r| == |s| - 2 && r[..start] == s[..start]
            && (forall j :: 0 <= j < |nums| ==> r[start + j] == s[nums[j] + 1])
            && r[c..] == s[c + 2..]
  {
    var s1 := Erase(s, start);
    var p := Permute(s1, start, nums);
    var r := Erase(p, c);
    forall j | 0 <= j < |nums|
      ensures r[start + j] == s[nums[j] + 1]
    {
      assert r[start + j] == p[start + j] == s1[nums[j]];
    }
    assert r[..start] == s[..start] by {
      forall j | 0 <= j < start ensures r[j] == s[j] {
        assert r[j] == p[j] == s1[j];
      }
    }
    assert r[c..] == s[c + 2..] by {
      forall j | c <= j < |r| ensures r[j] == s[j + 2] {
        assert r[j] == p[j + 1] == s1[j + 1];
      }
    }
  }

  /** `shunting_yard` fails exactly when the scan fails or `lines` is too short for the group. */
  lemma RewriteOk(texts: seq<string>, lines: seq<int>, start: nat)
    requires start < |texts|
    ensures Rewrite(texts, lines, start).Ok? <==> Order(texts, start).Ok? && Order(texts, start).value.0 + 1 < |lines|
  {
  }

  /**
    What `shunting_yard` leaves: the texts before the `(` unchanged, the
    group's texts (and their lines) in the scan's order where the `(` was,
    and everything after the `)` moved down by two.
   */
  lemma RewriteSpec(texts: seq<string>, lines: seq<int>, start: nat)
    requires start < |texts| && Rewrite(texts, lines, start).Ok?
    ensures var (c, nums) := Order(texts, start).value;
            var (t, l) := Rewrite(texts, lines, start).value;
            |t| == |texts| - 2 && |l| == |lines| - 2 && start <= c <= |t|
            && t[..start] == texts[..start] && l[..start] == lines[..start]
            && |nums| == c - start
            && (forall j :: 0 <= j < |nums| ==>
                  start <= nums[j] < c && t[start + j] == texts[nums[j] + 1] && l[start + j] == lines[nums[j] + 1])
            && t[c..] == texts[c + 2..] && l[c..] == lines[c + 2..]
  {
    OrderPermutes(texts, start);
    var (c, nums) := Order(texts, start).value;
    RewriteShape(texts, start, c, nums);
    RewriteShape(lines, start, c, nums);
  }

  /** With `lines` as long as the texts the two stay parallel, and the rewrite only throws for a missing `)`. */
  lemma RewriteParallel(texts: seq<string>, lines: seq<int>, start: nat)
    requires start < |texts| && |lines| == |texts|
    ensures Rewrite(texts, lines, start).Ok? <==> Order(texts, start).Ok?
    ensures Rewrite(texts, lines, start).Err? ==> Rewrite(texts, lines, start).error == Thrown(UnclosedParen)
    ensures Rewrite(texts, lines, start).Ok? ==> |Rewrite(texts, lines, start).value.0| == |Rewrite(texts, lines, start).value.1|
  {
    RewriteOk(texts, lines, start);
    if Rewrite(texts, lines, start).Ok? {
      RewriteSpec(texts, lines, start);
    }
  }

  /** Without a `)` after the `(`, the rewrite throws. */
  lemma NoCloseThrows(texts: seq<string>, start: nat)
    requires start < |texts|
    requires forall k :: start < k < |texts| ==> texts[k] != ")"
    ensures Order(texts, start) == Err(Thrown(UnclosedParen))
  {
  }

  // ----- the group is a permutation of itself -----

  function Pick<T>(s: seq<T>, nums: seq<nat>): (r: seq<T>)
    requires Below(nums, |s|)
    ensures |r| == |nums| && forall j :: 0 <= j < |nums| ==> r[j] == s[nums[j]]
  {
    seq(|nums|, j requires 0 <= j < |nums| => s[nums[j]])
  }

  lemma PickConcat<T>(s: seq<T>, u: seq<nat>, v: seq<nat>)
    requires Below(u, |s|) && Below(v, |s|)
    ensures Below(u + v, |s|) && Pick(s, u + v) == Pick(s, u) + Pick(s, v)
  {
    assert Below(u + v, |s|);
  }

  lemma RemoveAt<T>(n: seq<T>, k: nat)
    requires k < |n|
    ensures multiset(n[..k] + n[k + 1..]) == multiset(n) - multiset{n[k]}
  {
    assert n == n[..k] + [n[k]] + n[k + 1..];
  }

  lemma PickRemove<T>(s: seq<T>, n: seq<nat>, k: nat)
    requires Below(n, |s|) && k < |n|
    ensures Below(n[..k] + n[k + 1..], |s|)
    ensures multiset(Pick(s, n)) == multiset(Pick(s, n[..k] + n[k + 1..])) + multiset{s[n[k]]}
  {
    var u, v := n[..k], n[k + 1..];
    assert n == u + [n[k]] + v;
    PickConcat(s, u, [n[k]]);
    PickConcat(s, u + [n[k]], v);
    PickConcat(s, u, v);
  }

  /** Picking by two orders that hold the same indices gives the same multiset. */
  lemma {:induction false} PickMultiset<T>(s: seq<T>, n1: seq<nat>, n2: seq<nat>)
    requires Below(n1, |s|) && Below(n2, |s|) && multiset(n1) == multiset(n2)
    ensures multiset(Pick(s, n1)) == multiset(Pick(s, n2))
    decreases |n1|
  {
    if |n1| > 0 {
      var j := |n1| - 1;
      var x := n1[j];
      assert x in multiset(n2);
      var k :| 0 <= k < |n2| && n2[k] == x;
      RemoveAt(n1, j);
      RemoveAt(n2, k);
      PickRemove(s, n1, j);
      PickRemove(s, n2, k);
      PickMultiset(s, n1[..j] + n1[j + 1..], n2[..k] + n2[k + 1..]);
    }
  }

  /** The rewritten group holds the same texts as before, each as often. */
  lemma RewritePermutesGroup(texts: seq<string>, lines: seq<int>, start: nat)
    requires start < |texts| && Rewrite(texts, lines, start).Ok?
    ensures var c := Order(texts, start).value.0;
            multiset(Rewrite(texts, lines, start).value.0[start..c]) == multiset(texts[start + 1..c + 1])
  {
    OrderPermutes(texts, start);
    var (c, nums) := Order(texts, start).value;
    var t := Rewrite(texts, lines, start).value.0;
    var texts1 := Erase(texts, start);
    var range := Range(start, c);
    assert Below(range, |texts1|);
    PickMultiset(texts1, nums, range);
    assert start <= c <= |t| && t[start..c] == Pick(texts1, nums) by {
      RewriteSpec(texts, lines, start);
    }
    assert Pick(texts1, range) == texts[start + 1..c + 1];
    assert multiset(t[start..c]) == multiset(texts[start + 1..c + 1]);
  }

  // ----- examples -----

  /** A text the scan emits as it comes: not a paren and not in the `prec` table. */
  predicate Operand(t: string) {
    t != ")" && !Opens(t) && !IsOperator(t)
  }

  lemma OperatorIsNotParen(t: string)
    requires IsOperator(t)
    ensures t != ")" && !Opens(t)
  {
  }

  /** An operand followed by an operator, with the stack empty: the operand goes out, the operator waits. */
  lemma ScanFirstPair(texts: seq<string>, i: nat, nums: seq<nat>)
    requires i + 1 < |texts| && Operand(texts[i]) && IsOperator(texts[i + 1])
    ensures Scan(texts, i, nums, []) == Scan(texts, i + 2, nums + [i], [i + 1])
  {
    OperatorIsNotParen(texts[i + 1]);
    assert Scan(texts, i, nums, []) == Scan(texts, i + 1, nums + [i], []);
    assert Unstack(texts, PrecOf(texts[i + 1]), nums + [i], []) == (nums + [i], []);
    assert [] + [i + 1] == [i + 1];
  }

  /**
    An operand followed by an operator, with the operator at `j` waiting:
    the waiting one goes out first unless the new one binds strictly tighter.
   */
  lemma ScanNextPair(texts: seq<string>, i: nat, nums: seq<nat>, j: nat)
    requires i + 1 < |texts| && j < |texts| && Operand(texts[i]) && IsOperator(texts[i + 1])
    ensures PrecOf(texts[j]) < PrecOf(texts[i + 1]) ==>
              Scan(texts, i, nums, [j]) == Scan(texts, i + 2, nums + [i], [j, i + 1])
    ensures PrecOf(texts[i + 1]) <= PrecOf(texts[j]) ==>
              Scan(texts, i, nums, [j]) == Scan(texts, i + 2, nums + [i, j], [i + 1])
  {
    OperatorIsNotParen(texts[i + 1]);
    var p := PrecOf(texts[i + 1]);
    assert Scan(texts, i, nums, [j]) == Scan(texts, i + 1, nums + [i], [j]);
    UnstackOne(texts, p, nums + [i], j);
    if PrecOf(texts[j]) < p {
      assert [j] + [i + 1] == [j, i + 1];
    } else {
      assert nums + [i] + [j] == nums + [i, j];
      assert [] + [i + 1] == [i + 1];
    }
  }

  /** One waiting operator goes out exactly when it binds at least as tightly as the incoming one. */
  lemma UnstackOne(texts: seq<string>, p: nat, nums: seq<nat>, j: nat)
    requires j < |texts|
    ensures Below([j], |texts|)
    ensures PrecOf(texts[j]) < p ==> Unstack(texts, p, nums, [j]) == (nums, [j])
    ensures p <= PrecOf(texts[j]) ==> Unstack(texts, p, nums, [j]) == (nums + [j], [])
  {
    assert Below([j], |texts|);
    assert Reverse<nat>([]) == [];
    if p <= PrecOf(texts[j]) {
      assert [j][..0] == [];
      assert Kept(texts, p, [j]) == 0;
      assert Reverse([j]) == [j];
      assert [j][0..] == [j];
    } else {
      assert Kept(texts, p, [j]) == 1;
      assert [j][1..] == [] && [j][..1] == [j];
      assert Unstack(texts, p, nums, [j]) == (nums + Reverse<nat>([]), [j]);
      assert nums + [] == nums;
    }
  }

  /** A last operand and the `)`: the operand goes out, then the stack from the top down. */
  lemma ScanLast(texts: seq<string>, i: nat, nums: seq<nat>, ops: seq<nat>)
    requires i + 1 < |texts| && Operand(texts[i]) && texts[i + 1] == ")" && Below(ops, |texts|)
    ensures Scan(texts, i, nums, ops) == Ok((i + 1, nums + [i] + Reverse(ops)))
  {
  }

  /** `( a + b * c )` becomes `a b c * +`: an operator binding tighter goes out first. */
  lemma TighterFirst(a: string, o1: string, b: string, o2: string, c: string)
    requires Operand(a) && Operand(b) && Operand(c) && IsOperator(o1) && IsOperator(o2)
    requires PrecOf(o1) < PrecOf(o2)
    ensures Order(["(", a, o1, b, o2, c, ")"], 0) == Ok((5, [0, 2, 4, 3, 1]))
  {
    var t1 := [a, o1, b, o2, c, ")"];
    assert Erase(["(", a, o1, b, o2, c, ")"], 0) == t1;
    ScanFirstPair(t1, 0, []);
    ScanNextPair(t1, 2, [0], 1);
    ScanLast(t1, 4, [0, 2], [1, 3]);
    assert [] + [0] == [0] && [0] + [2] == [0, 2];
    assert Reverse([1, 3]) == [3, 1];
    assert [0, 2] + [4] + [3, 1] == [0, 2, 4, 3, 1];
  }

  /** `( a - b + c )` becomes `a b - c +`: equal precedence goes out first, so operators are left-associative. */
  lemma LeftAssociative(a: string, o1: string, b: string, o2: string, c: string)
    requires Operand(a) && Operand(b) && Operand(c) && IsOperator(o1) && IsOperator(o2)
    requires PrecOf(o2) <= PrecOf(o1)
    ensures Order(["(", a, o1, b, o2, c, ")"], 0) == Ok((5, [0, 2, 1, 4, 3]))
  {
    var t1 := [a, o1, b, o2, c, ")"];
    assert Erase(["(", a, o1, b, o2, c, ")"], 0) == t1;
    ScanFirstPair(t1, 0, []);
    ScanNextPair(t1, 2, [0], 1);
    ScanLast(t1, 4, [0, 2, 1], [3]);
    assert [] + [0] == [0] && [0] + [2, 1] == [0, 2, 1];
    assert Reverse([3]) == [3];
    assert [0, 2, 1] + [4] + [3] == [0, 2, 1, 4, 3];
  }

  /** With the order known, the rewrite of `( a o b o c )` places the texts and their lines. */
  lemma RewriteFive(texts: seq<string>, lines: seq<int>, nums: seq<nat>)
    requires |texts| == 7 && |lines| == 7 && texts[6] == ")"
    requires Order(texts, 0) == Ok((5, nums))
    ensures Rewrite(texts, lines, 0).Ok?
    ensures |nums| == 5 && Below(nums, 5)
    ensures Rewrite(texts, lines, 0).value
            == (seq(5, j requires 0 <= j < 5 => texts[nums[j] + 1]), seq(5, j requires 0 <= j < 5 => lines[nums[j] + 1]))
  {
    hide Rewrite, Order, Scan, Erase, Permute, Range;
    RewriteOk(texts, lines, 0);
    RewriteSpec(texts, lines, 0);
    OrderPermutes(texts, 0);
    var (t, l) := Rewrite(texts, lines, 0).value;
    assert t == seq(5, j requires 0 <= j < 5 => texts[nums[j] + 1]) by {
      assert |t| == 5;
      forall j | 0 <= j < 5 ensures t[j] == texts[nums[j] + 1] {
        assert t[0 + j] == texts[nums[j] + 1];
      }
    }
    assert l == seq(5, j requires 0 <= j < 5 => lines[nums[j] + 1]) by {
      assert |l| == 5;
      forall j | 0 <= j < 5 ensures l[j] == lines[nums[j] + 1] {
        assert l[0 + j] == lines[nums[j] + 1];
      }
    }
  }
}
