/**
 * What each rule variant does, stated from the outside: which sub-rules run,
 * in what order and where, when the variant stops, and what it matches.
 * These lemmas characterise the loop functions of `Semantics` independently
 * of how they are written, for every input.
 */
module Behaviour {
  import opened Base
  import opened Events
  import opened Rules
  import opened Grammars
  import opened Semantics

  lemma SumLensCons(t: Tree, ts: seq<Tree>)
    ensures SumLens([t] + ts) == t.len + SumLens(ts)
  {
    assert ([t] + ts)[1..] == ts;
  }

  // ---------------------------------------------------------------------
  // Sequence (sequence.rb:12-34)
  // ---------------------------------------------------------------------

  /**
   * `kids` are what the sub-rules `subs[i..]` matched one after another from
   * `pos`: the first where the loop stood, each later one where the one
   * before it ended.
   */
  ghost predicate InOrder(e: Env, subs: seq<RuleId>, i: nat, pos: nat, kids: seq<Tree>, fuel: nat)
    requires Wf(e) && SubsIn(e, subs) && i + |kids| <= |subs| && pos <= |e.text|
    decreases |kids|
  {
    || kids == []
    || (var c := Exec(e, subs[i], pos, fuel);
        c.Done? && c.v == Some(kids[0]) && InOrder(e, subs, i + 1, pos + kids[0].len, kids[1..], fuel))
  }

  /** A finished, successful Sequence loop matched every remaining sub-rule in order. */
  lemma {:induction false} SeqLoopInOrder(e: Env, subs: seq<RuleId>, i: nat, pos: nat, fuel: nat)
    requires Wf(e) && SubsIn(e, subs) && i <= |subs| && pos <= |e.text|
    ensures var res := SeqLoop(e, subs, i, pos, fuel);
      res.Done? && res.v.Some? ==> |res.v.value| == |subs| - i && InOrder(e, subs, i, pos, res.v.value, fuel)
    decreases |subs| - i
  {
    var res := SeqLoop(e, subs, i, pos, fuel);
    if i < |subs| && res.Done? && res.v.Some? {
      var t := Exec(e, subs[i], pos, fuel).v.value;
      SeqLoopInOrder(e, subs, i + 1, pos + t.len, fuel);
      var ts := SeqLoop(e, subs, i + 1, pos + t.len, fuel).v.value;
      assert ([t] + ts)[1..] == ts;
    }
  }

  /** Conversely, when every remaining sub-rule matches in order, the loop matches them all. */
  lemma {:induction false} InOrderSeqLoop(e: Env, subs: seq<RuleId>, i: nat, pos: nat, kids: seq<Tree>, fuel: nat)
    requires Wf(e) && SubsIn(e, subs) && i + |kids| == |subs| && pos <= |e.text|
    requires InOrder(e, subs, i, pos, kids, fuel)
    ensures SeqLoop(e, subs, i, pos, fuel).Done? && SeqLoop(e, subs, i, pos, fuel).v == Some(kids)
    decreases |kids|
  {
    if kids != [] {
      InOrderSeqLoop(e, subs, i + 1, pos + kids[0].len, kids[1..], fuel);
      assert [kids[0]] + kids[1..] == kids;
    }
  }

  /** Two sub-rule lists that agree at `i` fail alike there when that sub-rule fails. */
  lemma SeqStopHere(e: Env, subs: seq<RuleId>, pre: seq<RuleId>, i: nat, pos: nat, fuel: nat)
    requires Wf(e) && SubsIn(e, subs) && SubsIn(e, pre) && i < |pre| && i < |subs| && pre[i] == subs[i] && pos <= |e.text|
    requires var c := Exec(e, subs[i], pos, fuel); c.Done? && c.v.None?
    ensures SeqLoop(e, subs, i, pos, fuel).Done? && SeqLoop(e, subs, i, pos, fuel).v.None?
    ensures SeqLoop(e, subs, i, pos, fuel) == SeqLoop(e, pre, i, pos, fuel)
  {
  }

  /** ... and keep failing alike when the sub-rule at `i` matches and the loops after it fail alike. */
  lemma SeqStopNext(e: Env, subs: seq<RuleId>, pre: seq<RuleId>, i: nat, pos: nat, t: Tree, fuel: nat)
    requires Wf(e) && SubsIn(e, subs) && SubsIn(e, pre) && i < |pre| && i < |subs| && pre[i] == subs[i] && pos <= |e.text|
    requires var c := Exec(e, subs[i], pos, fuel); c.Done? && c.v == Some(t)
    requires pos + t.len <= |e.text|
    requires var r := SeqLoop(e, subs, i + 1, pos + t.len, fuel); r.Done? && r.v.None? && r == SeqLoop(e, pre, i + 1, pos + t.len, fuel)
    ensures SeqLoop(e, subs, i, pos, fuel).Done? && SeqLoop(e, subs, i, pos, fuel).v.None?
    ensures SeqLoop(e, subs, i, pos, fuel) == SeqLoop(e, pre, i, pos, fuel)
  {
  }

  /**
   * A sub-rule that fails after the ones before it matched fails the whole
   * loop, and the sub-rules after it make no difference: none of them runs.
   */
  lemma {:induction false} SeqLoopStops(e: Env, subs: seq<RuleId>, i: nat, pos: nat, kids: seq<Tree>, fuel: nat)
    requires Wf(e) && SubsIn(e, subs) && i + |kids| < |subs| && pos <= |e.text|
    requires InOrder(e, subs, i, pos, kids, fuel) && pos + SumLens(kids) <= |e.text|
    requires var c := Exec(e, subs[i + |kids|], pos + SumLens(kids), fuel); c.Done? && c.v.None?
    ensures SubsIn(e, subs[..i + |kids| + 1])
    ensures SeqLoop(e, subs, i, pos, fuel).Done? && SeqLoop(e, subs, i, pos, fuel).v.None?
    ensures SeqLoop(e, subs, i, pos, fuel) == SeqLoop(e, subs[..i + |kids| + 1], i, pos, fuel)
    decreases |kids|
  {
    var j := i + |kids|;
    var pre := subs[..j + 1];
    assert SubsIn(e, pre) by {
      forall k | 0 <= k < |pre| ensures pre[k] < |e.rules| { assert pre[k] == subs[k]; }
    }
    assert pre[i] == subs[i];
    if kids == [] {
      assert SumLens(kids) == 0;
      SeqStopHere(e, subs, pre, i, pos, fuel);
    } else {
      var t := kids[0];
      SumLensCons(t, kids[1..]);
      assert [t] + kids[1..] == kids;
      SeqLoopStops(e, subs, i + 1, pos + t.len, kids[1..], fuel);
      assert (i + 1) + |kids[1..]| + 1 == j + 1;
      SeqStopNext(e, subs, pre, i, pos, t, fuel);
    }
  }

  /** Sequence#exec succeeds exactly with its sub-rules' matches, in order, and their total length. */
  lemma SequenceMatches(e: Env, r: RuleId, pos: nat, fuel: nat)
    requires Wf(e) && r < |e.rules| && pos <= |e.text| && e.rules[r].kind.Sequence?
    ensures var res := Apply(e, r, pos, fuel); var subs := e.rules[r].kind.subs;
      SubsIn(e, subs) &&
      (res.Done? && res.v.Some? ==>
        && res.v.value.rule == r && |res.v.value.kids| == |subs|
        && res.v.value.len == SumLens(res.v.value.kids)
        && InOrder(e, subs, 0, pos, res.v.value.kids, fuel))
  {
    SubsInArena(e, r);
    SeqLoopInOrder(e, e.rules[r].kind.subs, 0, pos, fuel);
  }

  /** When every sub-rule matches in order, Sequence#exec matches them, with the sum of their lengths. */
  lemma SequenceFromParts(e: Env, r: RuleId, pos: nat, kids: seq<Tree>, fuel: nat)
    requires Wf(e) && r < |e.rules| && pos <= |e.text| && e.rules[r].kind.Sequence?
    requires SubsIn(e, e.rules[r].kind.subs) && |kids| == |e.rules[r].kind.subs|
    requires InOrder(e, e.rules[r].kind.subs, 0, pos, kids, fuel)
    ensures Apply(e, r, pos, fuel).Done? && Apply(e, r, pos, fuel).v == Some(Node(r, kids, SumLens(kids)))
  {
    InOrderSeqLoop(e, e.rules[r].kind.subs, 0, pos, kids, fuel);
  }

  /** An empty Sequence matches the empty string (sequence.rb:18, 26-28). */
  lemma SequenceEmpty(e: Env, r: RuleId, pos: nat, fuel: nat)
    requires Wf(e) && r < |e.rules| && pos <= |e.text| && e.rules[r].kind == Sequence([])
    ensures Apply(e, r, pos, fuel) == Done(Some(Node(r, [], 0)), 0)
  {
  }

  // ---------------------------------------------------------------------
  // Choice (choice.rb:12-31)
  // ---------------------------------------------------------------------

  /** The alternatives `subs[i..j]` all failed at `pos`. */
  ghost predicate AllFail(e: Env, subs: seq<RuleId>, i: nat, j: nat, pos: nat, fuel: nat)
    requires Wf(e) && SubsIn(e, subs) && i <= j <= |subs| && pos <= |e.text|
  {
    forall k :: i <= k < j ==> Exec(e, subs[k], pos, fuel).Done? && Exec(e, subs[k], pos, fuel).v.None?
  }

  /**
   * The first alternative that matches, after the ones before it failed,
   * wins; the alternatives after it make no difference: none of them runs.
   */
  lemma {:induction false} ChoiceFirstWins(e: Env, subs: seq<RuleId>, i: nat, j: nat, pos: nat, fuel: nat)
    requires Wf(e) && SubsIn(e, subs) && i <= j < |subs| && pos <= |e.text|
    requires AllFail(e, subs, i, j, pos, fuel)
    requires Exec(e, subs[j], pos, fuel).Done? && Exec(e, subs[j], pos, fuel).v.Some?
    ensures SubsIn(e, subs[..j + 1])
    ensures ChoiceLoop(e, subs, i, pos, fuel).Done? && ChoiceLoop(e, subs, i, pos, fuel).v == Exec(e, subs[j], pos, fuel).v
    ensures ChoiceLoop(e, subs, i, pos, fuel) == ChoiceLoop(e, subs[..j + 1], i, pos, fuel)
    decreases j - i
  {
    var pre := subs[..j + 1];
    assert SubsIn(e, pre) by {
      forall k | 0 <= k < |pre| ensures pre[k] < |e.rules| { assert pre[k] == subs[k]; }
    }
    assert pre[i] == subs[i];
    if i < j {
      ChoiceFirstWins(e, subs, i + 1, j, pos, fuel);
    }
  }

  /** When every alternative fails, the Choice fails. */
  lemma {:induction false} ChoiceAllFail(e: Env, subs: seq<RuleId>, i: nat, pos: nat, fuel: nat)
    requires Wf(e) && SubsIn(e, subs) && i <= |subs| && pos <= |e.text|
    requires AllFail(e, subs, i, |subs|, pos, fuel)
    ensures ChoiceLoop(e, subs, i, pos, fuel).Done? && ChoiceLoop(e, subs, i, pos, fuel).v.None?
    decreases |subs| - i
  {
    if i < |subs| {
      ChoiceAllFail(e, subs, i + 1, pos, fuel);
    }
  }

  /** Conversely, a Choice that matched took the first alternative that matched. */
  lemma {:induction false} ChoiceWinner(e: Env, subs: seq<RuleId>, i: nat, pos: nat, fuel: nat)
    requires Wf(e) && SubsIn(e, subs) && i <= |subs| && pos <= |e.text|
    requires ChoiceLoop(e, subs, i, pos, fuel).Done? && ChoiceLoop(e, subs, i, pos, fuel).v.Some?
    ensures exists j ::
              && i <= j < |subs| && AllFail(e, subs, i, j, pos, fuel)
              && Exec(e, subs[j], pos, fuel).Done? && Exec(e, subs[j], pos, fuel).v == ChoiceLoop(e, subs, i, pos, fuel).v
    decreases |subs| - i
  {
    var c := Exec(e, subs[i], pos, fuel);
    if c.v.Some? {
      assert AllFail(e, subs, i, i, pos, fuel);
    } else {
      ChoiceWinner(e, subs, i + 1, pos, fuel);
      var j :| i + 1 <= j < |subs| && AllFail(e, subs, i + 1, j, pos, fuel)
        && Exec(e, subs[j], pos, fuel).Done? && Exec(e, subs[j], pos, fuel).v == ChoiceLoop(e, subs, i + 1, pos, fuel).v;
      assert AllFail(e, subs, i, j, pos, fuel);
    }
  }

  /** Choice#exec matches with exactly one child, the first alternative that matched, and its length. */
  lemma ChoiceMatches(e: Env, r: RuleId, pos: nat, fuel: nat)
    requires Wf(e) && r < |e.rules| && pos <= |e.text| && e.rules[r].kind.Choice?
    ensures var res := Apply(e, r, pos, fuel); var subs := e.rules[r].kind.subs;
      SubsIn(e, subs) &&
      (res.Done? && res.v.Some? ==>
        && res.v.value.rule == r && |res.v.value.kids| == 1 && res.v.value.len == res.v.value.kids[0].len
        && exists j :: 0 <= j < |subs| && AllFail(e, subs, 0, j, pos, fuel)
             && Exec(e, subs[j], pos, fuel).Done? && Exec(e, subs[j], pos, fuel).v == Some(res.v.value.kids[0]))
  {
    SubsInArena(e, r);
    var res := Apply(e, r, pos, fuel);
    if res.Done? && res.v.Some? {
      ChoiceWinner(e, e.rules[r].kind.subs, 0, pos, fuel);
    }
  }

  /** A Choice with no alternatives always fails (choice.rb:16-17, 26-27). */
  lemma ChoiceEmpty(e: Env, r: RuleId, pos: nat, fuel: nat)
    requires Wf(e) && r < |e.rules| && pos <= |e.text| && e.rules[r].kind == Choice([])
    ensures Apply(e, r, pos, fuel) == Done(None, 0)
  {
  }

  // ---------------------------------------------------------------------
  // Repeat (repeat.rb:38-59)
  // ---------------------------------------------------------------------

  /** `kids` are successive matches of `sub` from `pos`, each where the one before it ended. */
  ghost predicate Repeated(e: Env, sub: RuleId, pos: nat, kids: seq<Tree>, fuel: nat)
    requires Wf(e) && sub < |e.rules| && pos <= |e.text|
    decreases |kids|
  {
    || kids == []
    || (var c := Exec(e, sub, pos, fuel);
        c.Done? && c.v == Some(kids[0]) && Repeated(e, sub, pos + kids[0].len, kids[1..], fuel))
  }

  /** After `n` repetitions the loop stops for good at `pos`: `max` is reached or `sub` fails there. */
  ghost predicate Exhausted(e: Env, sub: RuleId, max: Bound, n: nat, pos: nat, fuel: nat)
    requires Wf(e) && sub < |e.rules| && pos <= |e.text|
  {
    Below(n, max) ==> Exec(e, sub, pos, fuel).Done? && Exec(e, sub, pos, fuel).v.None?
  }

  /** No repetition in `ts` is an empty match. */
  predicate NoneEmpty(ts: seq<Tree>)
  {
    forall k :: 0 <= k < |ts| ==> ts[k].len > 0
  }

  lemma NoneEmptyCons(t: Tree, ts: seq<Tree>)
    ensures NoneEmpty([t] + ts) <==> t.len > 0 && NoneEmpty(ts)
  {
    if t.len > 0 && NoneEmpty(ts) {
      forall k | 0 <= k < |[t] + ts| ensures ([t] + ts)[k].len > 0 {
        if k > 0 { assert ([t] + ts)[k] == ts[k - 1]; }
      }
    }
    if NoneEmpty([t] + ts) {
      assert ([t] + ts)[0] == t;
      forall k | 0 <= k < |ts| ensures ts[k].len > 0 { assert ([t] + ts)[k + 1] == ts[k]; }
    }
  }

  /** One more repetition: the loop's result is this match followed by the rest of the loop's. */
  lemma RepeatLoopCons(e: Env, sub: RuleId, max: Bound, n: nat, pos: nat, fuel: nat)
    requires Wf(e) && sub < |e.rules| && pos <= |e.text| && Below(n, max)
    requires var c := Exec(e, sub, pos, fuel); c.Done? && c.v.Some? && !(c.v.value.len == 0 && max.Infinity?)
    ensures var t := Exec(e, sub, pos, fuel).v.value;
      var rest := RepeatLoop(e, sub, max, n + 1, pos + t.len, fuel);
      var res := RepeatLoop(e, sub, max, n, pos, fuel);
      (res.Done? <==> rest.Done?) && (res.Done? ==> res.v == [t] + rest.v)
  {
  }

  /** A match of `sub` followed by successive matches from where it ends. */
  lemma RepeatedCons(e: Env, sub: RuleId, pos: nat, t: Tree, ts: seq<Tree>, fuel: nat)
    requires Wf(e) && sub < |e.rules| && pos + t.len <= |e.text|
    requires var c := Exec(e, sub, pos, fuel); c.Done? && c.v == Some(t)
    requires Repeated(e, sub, pos + t.len, ts, fuel)
    ensures Repeated(e, sub, pos, [t] + ts, fuel)
  {
    assert ([t] + ts)[0] == t && ([t] + ts)[1..] == ts;
  }

  /** What a finished Repeat loop matched are successive matches of `sub`. */
  lemma {:induction false} RepeatLoopRepeated(e: Env, sub: RuleId, max: Bound, n: nat, pos: nat, fuel: nat)
    requires Wf(e) && sub < |e.rules| && pos <= |e.text|
    ensures var res := RepeatLoop(e, sub, max, n, pos, fuel); res.Done? ==> Repeated(e, sub, pos, res.v, fuel)
    decreases RepeatMeasure(max, n, |e.text| - pos)
  {
    var res := RepeatLoop(e, sub, max, n, pos, fuel);
    if Below(n, max) && res.Done? {
      var c := Exec(e, sub, pos, fuel);
      if c.v.Some? {
        var t := c.v.value;
        RepeatLoopCons(e, sub, max, n, pos, fuel);
        var rest := RepeatLoop(e, sub, max, n + 1, pos + t.len, fuel);
        RepeatLoopRepeated(e, sub, max, n + 1, pos + t.len, fuel);
        RepeatedCons(e, sub, pos, t, rest.v, fuel);
      }
    }
  }

  /** Where the loop stops is the same whether one counts the first repetition separately or not. */
  lemma ExhaustedStep(e: Env, sub: RuleId, max: Bound, n: nat, pos: nat, t: Tree, res: Run<seq<Tree>>, rest: Run<seq<Tree>>, fuel: nat)
    requires Wf(e) && sub < |e.rules| && pos + t.len <= |e.text|
    requires rest.Done? ==> (pos + t.len) + SumLens(rest.v) <= |e.text|
    requires rest.Done? ==> Exhausted(e, sub, max, (n + 1) + |rest.v|, (pos + t.len) + SumLens(rest.v), fuel)
    requires res.Done? <==> rest.Done?
    requires res.Done? ==> res.v == [t] + rest.v
    ensures res.Done? ==> pos + SumLens(res.v) <= |e.text| && Exhausted(e, sub, max, n + |res.v|, pos + SumLens(res.v), fuel)
  {
    if res.Done? {
      SumLensCons(t, rest.v);
      assert n + |res.v| == (n + 1) + |rest.v|;
      assert pos + SumLens(res.v) == (pos + t.len) + SumLens(rest.v);
    }
  }

  /** The step of `RepeatLoopExhausted`: one more repetition keeps where the loop stops. */
  lemma ExhaustedNext(e: Env, sub: RuleId, max: Bound, n: nat, pos: nat, fuel: nat)
    requires Wf(e) && sub < |e.rules| && pos <= |e.text| && Below(n, max)
    requires var c := Exec(e, sub, pos, fuel); c.Done? && c.v.Some? && !(c.v.value.len == 0 && max.Infinity?)
    requires var t := Exec(e, sub, pos, fuel).v.value; var rest := RepeatLoop(e, sub, max, n + 1, pos + t.len, fuel);
      rest.Done? ==> Exhausted(e, sub, max, (n + 1) + |rest.v|, (pos + t.len) + SumLens(rest.v), fuel)
    ensures var res := RepeatLoop(e, sub, max, n, pos, fuel);
      res.Done? ==> Exhausted(e, sub, max, n + |res.v|, pos + SumLens(res.v), fuel)
  {
    var t := Exec(e, sub, pos, fuel).v.value;
    RepeatLoopCons(e, sub, max, n, pos, fuel);
    ExhaustedStep(e, sub, max, n, pos, t, RepeatLoop(e, sub, max, n, pos, fuel), RepeatLoop(e, sub, max, n + 1, pos + t.len, fuel), fuel);
  }

  /** The loop stops at once when `max` is reached or `sub` fails or runs out. */
  lemma ExhaustedAtOnce(e: Env, sub: RuleId, max: Bound, n: nat, pos: nat, fuel: nat)
    requires Wf(e) && sub < |e.rules| && pos <= |e.text|
    requires var c := Exec(e, sub, pos, fuel); !(Below(n, max) && c.Done? && c.v.Some? && !(c.v.value.len == 0 && max.Infinity?))
    ensures var res := RepeatLoop(e, sub, max, n, pos, fuel);
      res.Done? ==> Exhausted(e, sub, max, n + |res.v|, pos + SumLens(res.v), fuel)
  {
  }

  /** A finished Repeat loop could go no further after what it matched. */
  lemma {:induction false} RepeatLoopExhausted(e: Env, sub: RuleId, max: Bound, n: nat, pos: nat, fuel: nat)
    requires Wf(e) && sub < |e.rules| && pos <= |e.text|
    ensures var res := RepeatLoop(e, sub, max, n, pos, fuel);
      res.Done? ==> Exhausted(e, sub, max, n + |res.v|, pos + SumLens(res.v), fuel)
    decreases RepeatMeasure(max, n, |e.text| - pos)
  {
    var c := Exec(e, sub, pos, fuel);
    if Below(n, max) && c.Done? && c.v.Some? && !(c.v.value.len == 0 && max.Infinity?) {
      RepeatLoopExhausted(e, sub, max, n + 1, pos + c.v.value.len, fuel);
      ExhaustedNext(e, sub, max, n, pos, fuel);
    } else {
      ExhaustedAtOnce(e, sub, max, n, pos, fuel);
    }
  }

  /** The step of `RepeatLoopBounded`, on the loop's results alone. */
  lemma BoundedStep(max: Bound, n: nat, t: Tree, res: Run<seq<Tree>>, rest: Run<seq<Tree>>)
    requires Below(n, max) && (max.Infinity? ==> t.len > 0)
    requires res.Done? <==> rest.Done?
    requires res.Done? ==> res.v == [t] + rest.v
    requires rest.Done? ==> (max.Finite? && n + 1 <= max.n ==> (n + 1) + |rest.v| <= max.n) && (max.Infinity? ==> NoneEmpty(rest.v))
    ensures res.Done? ==> (max.Finite? && n <= max.n ==> n + |res.v| <= max.n) && (max.Infinity? ==> NoneEmpty(res.v))
  {
    if res.Done? {
      NoneEmptyCons(t, rest.v);
    }
  }

  /** A loop that stops at once matched nothing, so stays within bounds. */
  lemma BoundedAtOnce(e: Env, sub: RuleId, max: Bound, n: nat, pos: nat, fuel: nat)
    requires Wf(e) && sub < |e.rules| && pos <= |e.text|
    requires var c := Exec(e, sub, pos, fuel); !(Below(n, max) && c.Done? && c.v.Some? && !(c.v.value.len == 0 && max.Infinity?))
    ensures var res := RepeatLoop(e, sub, max, n, pos, fuel);
      res.Done? ==> (max.Finite? && n <= max.n ==> n + |res.v| <= max.n) && (max.Infinity? ==> NoneEmpty(res.v))
  {
  }

  /** A finished Repeat loop never goes past `max`, and never keeps an empty match when unbounded. */
  lemma {:induction false} RepeatLoopBounded(e: Env, sub: RuleId, max: Bound, n: nat, pos: nat, fuel: nat)
    requires Wf(e) && sub < |e.rules| && pos <= |e.text|
    ensures var res := RepeatLoop(e, sub, max, n, pos, fuel);
      res.Done? ==> (max.Finite? && n <= max.n ==> n + |res.v| <= max.n) && (max.Infinity? ==> NoneEmpty(res.v))
    decreases RepeatMeasure(max, n, |e.text| - pos)
  {
    var c := Exec(e, sub, pos, fuel);
    if Below(n, max) && c.Done? && c.v.Some? && !(c.v.value.len == 0 && max.Infinity?) {
      var t := c.v.value;
      RepeatLoopBounded(e, sub, max, n + 1, pos + t.len, fuel);
      RepeatLoopCons(e, sub, max, n, pos, fuel);
      BoundedStep(max, n, t, RepeatLoop(e, sub, max, n, pos, fuel), RepeatLoop(e, sub, max, n + 1, pos + t.len, fuel));
    } else {
      BoundedAtOnce(e, sub, max, n, pos, fuel);
    }
  }

  /**
   * A Repeat loop that finished, after `n` earlier repetitions, matched `sub`
   * as often as it could: never past `max`, never an empty match when
   * unbounded, and it stopped only at `max` or where `sub` failed.
   */
  lemma RepeatLoopShape(e: Env, sub: RuleId, max: Bound, n: nat, pos: nat, fuel: nat)
    requires Wf(e) && sub < |e.rules| && pos <= |e.text|
    ensures var res := RepeatLoop(e, sub, max, n, pos, fuel);
      res.Done? ==>
        && Repeated(e, sub, pos, res.v, fuel)
        && (max.Finite? && n <= max.n ==> n + |res.v| <= max.n)
        && (max.Infinity? ==> NoneEmpty(res.v))
        && Exhausted(e, sub, max, n + |res.v|, pos + SumLens(res.v), fuel)
  {
    RepeatLoopRepeated(e, sub, max, n, pos, fuel);
    RepeatLoopExhausted(e, sub, max, n, pos, fuel);
    RepeatLoopBounded(e, sub, max, n, pos, fuel);
  }

  /** Conversely, matches of that shape are what the loop finishes with. */
  lemma {:induction false} RepeatLoopFromParts(e: Env, sub: RuleId, max: Bound, n: nat, pos: nat, ts: seq<Tree>, fuel: nat)
    requires Wf(e) && sub < |e.rules| && pos <= |e.text| && pos + SumLens(ts) <= |e.text|
    requires Repeated(e, sub, pos, ts, fuel)
    requires max.Finite? ==> n + |ts| <= max.n
    requires max.Infinity? ==> NoneEmpty(ts)
    requires Exhausted(e, sub, max, n + |ts|, pos + SumLens(ts), fuel)
    ensures RepeatLoop(e, sub, max, n, pos, fuel).Done? && RepeatLoop(e, sub, max, n, pos, fuel).v == ts
    decreases |ts|
  {
    if ts != [] {
      var t := ts[0];
      assert [t] + ts[1..] == ts;
      SumLensCons(t, ts[1..]);
      NoneEmptyCons(t, ts[1..]);
      RepeatLoopFromParts(e, sub, max, n + 1, pos + t.len, ts[1..], fuel);
      RepeatLoopCons(e, sub, max, n, pos, fuel);
    }
  }

  /** Repeat#exec matches only with at least `min` and at most `max` greedy repetitions, and their total length. */
  lemma RepeatMatches(e: Env, r: RuleId, pos: nat, fuel: nat)
    requires Wf(e) && r < |e.rules| && pos <= |e.text| && e.rules[r].kind.Repeat?
    ensures var res := Apply(e, r, pos, fuel); var k := e.rules[r].kind;
      k.sub < |e.rules| &&
      (res.Done? && res.v.Some? ==>
        && res.v.value.rule == r && k.min <= |res.v.value.kids|
        && (k.max.Finite? ==> |res.v.value.kids| <= k.max.n)
        && res.v.value.len == SumLens(res.v.value.kids)
        && Repeated(e, k.sub, pos, res.v.value.kids, fuel)
        && Exhausted(e, k.sub, k.max, |res.v.value.kids|, pos + res.v.value.len, fuel))
  {
    SubsInArena(e, r);
    var k := e.rules[r].kind;
    RepeatLoopShape(e, k.sub, k.max, 0, pos, fuel);
  }

  /**
   * The whole outcome of Repeat#exec from the repetitions it can make: a
   * match of all of them when there are at least `min`, and otherwise none.
   */
  lemma RepeatFromParts(e: Env, r: RuleId, pos: nat, ts: seq<Tree>, fuel: nat)
    requires Wf(e) && r < |e.rules| && pos <= |e.text| && e.rules[r].kind.Repeat?
    requires e.rules[r].kind.sub < |e.rules| && pos + SumLens(ts) <= |e.text|
    requires Repeated(e, e.rules[r].kind.sub, pos, ts, fuel)
    requires e.rules[r].kind.max.Finite? ==> |ts| <= e.rules[r].kind.max.n
    requires e.rules[r].kind.max.Infinity? ==> NoneEmpty(ts)
    requires Exhausted(e, e.rules[r].kind.sub, e.rules[r].kind.max, |ts|, pos + SumLens(ts), fuel)
    ensures Apply(e, r, pos, fuel).Done?
    ensures Apply(e, r, pos, fuel).v == if |ts| >= e.rules[r].kind.min then Some(Node(r, ts, SumLens(ts))) else None
  {
    var k := e.rules[r].kind;
    RepeatLoopFromParts(e, k.sub, k.max, 0, pos, ts, fuel);
  }

  /** An unbounded Repeat over an empty match never ends in the source, and stops here. */
  lemma RepeatDiverges(e: Env, r: RuleId, pos: nat, fuel: nat)
    requires Wf(e) && r < |e.rules| && pos <= |e.text| && e.rules[r].kind.Repeat? && e.rules[r].kind.max.Infinity?
    requires e.rules[r].kind.sub < |e.rules|
    requires var c := Exec(e, e.rules[r].kind.sub, pos, fuel); c.Done? && c.v.Some? && c.v.value.len == 0
    ensures Apply(e, r, pos, fuel) == Stop(Diverges)
  {
  }

  // ---------------------------------------------------------------------
  // AndPredicate, NotPredicate (and_predicate.rb:22-30, not_predicate.rb:22-30)
  // ---------------------------------------------------------------------

  /** An AndPredicate matches the empty string exactly where its sub-rule matches, even emptily. */
  lemma AndPredicateFollows(e: Env, r: RuleId, pos: nat, fuel: nat)
    requires Wf(e) && r < |e.rules| && pos <= |e.text| && e.rules[r].kind.AndPredicate?
    ensures var res := Apply(e, r, pos, fuel); var sub := e.rules[r].kind.sub;
      sub < |e.rules| && var c := Test(e, sub, pos, fuel);
      && (res.Done? <==> c.Done?)
      && (res.Done? ==> (res.v.Some? <==> c.v.Some?))
      && (res.Done? && res.v.Some? ==> res.v.value == Node(r, [], 0))
  {
    SubsInArena(e, r);
  }

  /** A NotPredicate matches the empty string exactly where its sub-rule does not match. */
  lemma NotPredicateFollows(e: Env, r: RuleId, pos: nat, fuel: nat)
    requires Wf(e) && r < |e.rules| && pos <= |e.text| && e.rules[r].kind.NotPredicate?
    ensures var res := Apply(e, r, pos, fuel); var sub := e.rules[r].kind.sub;
      sub < |e.rules| && var c := Test(e, sub, pos, fuel);
      && (res.Done? <==> c.Done?)
      && (res.Done? ==> (res.v.Some? <==> c.v.None?))
      && (res.Done? && res.v.Some? ==> res.v.value == Node(r, [], 0))
  {
    SubsInArena(e, r);
  }

  // ---------------------------------------------------------------------
  // ButPredicate (but_predicate.rb:24-40)
  // ---------------------------------------------------------------------

  /** The sub-rule, tested at every position in `from..to`, matches at none. */
  ghost predicate Unmatched(e: Env, sub: RuleId, from: nat, to: nat, fuel: nat)
    requires Wf(e) && sub < |e.rules| && to <= |e.text|
  {
    forall k :: from <= k < to ==> Test(e, sub, k, fuel).Done? && Test(e, sub, k, fuel).v.None?
  }

  /**
   * A ButPredicate loop that finished after `n` characters: the sub-rule did
   * not match at any of them, and at the end it matches or the text is over.
   */
  lemma {:induction false} ButLoopShape(e: Env, sub: RuleId, pos: nat, fuel: nat)
    requires Wf(e) && sub < |e.rules| && pos <= |e.text|
    ensures var res := ButLoop(e, sub, pos, fuel);
      res.Done? ==>
        && pos + res.v <= |e.text|
        && Unmatched(e, sub, pos, pos + res.v, fuel)
        && Test(e, sub, pos + res.v, fuel).Done?
        && (Test(e, sub, pos + res.v, fuel).v.Some? || pos + res.v == |e.text|)
    decreases |e.text| - pos
  {
    var res := ButLoop(e, sub, pos, fuel);
    if res.Done? && Test(e, sub, pos, fuel).v.None? && pos < |e.text| {
      ButLoopShape(e, sub, pos + 1, fuel);
      var n := ButLoop(e, sub, pos + 1, fuel).v;
      assert res.v == n + 1;
      assert pos + res.v == (pos + 1) + n;
    }
  }

  /** A ButPredicate fails, consuming nothing, where its sub-rule matches at once. */
  lemma ButFailsAtEntry(e: Env, r: RuleId, pos: nat, fuel: nat)
    requires Wf(e) && r < |e.rules| && pos <= |e.text| && e.rules[r].kind.ButPredicate?
    requires e.rules[r].kind.sub < |e.rules|
    requires var c := Test(e, e.rules[r].kind.sub, pos, fuel); c.Done? && c.v.Some?
    ensures Apply(e, r, pos, fuel).Done? && Apply(e, r, pos, fuel).v.None?
  {
  }

  /**
   * A ButPredicate match has no children and a positive length, up to the
   * first position where the sub-rule matches or the text ends.
   */
  lemma ButMatches(e: Env, r: RuleId, pos: nat, fuel: nat)
    requires Wf(e) && r < |e.rules| && pos <= |e.text| && e.rules[r].kind.ButPredicate?
    ensures var res := Apply(e, r, pos, fuel); var sub := e.rules[r].kind.sub;
      sub < |e.rules| &&
      (res.Done? && res.v.Some? ==>
        && res.v.value == Node(r, [], res.v.value.len) && res.v.value.len > 0 && pos + res.v.value.len <= |e.text|
        && Unmatched(e, sub, pos, pos + res.v.value.len, fuel)
        && Test(e, sub, pos + res.v.value.len, fuel).Done?
        && (Test(e, sub, pos + res.v.value.len, fuel).v.Some? || pos + res.v.value.len == |e.text|))
  {
    SubsInArena(e, r);
    ButLoopShape(e, e.rules[r].kind.sub, pos, fuel);
  }

  // ---------------------------------------------------------------------
  // Proxies (proxy.rb:28-38)
  // ---------------------------------------------------------------------

  /** A proxy matches exactly what its target matches, under its own name; one it cannot resolve raises. */
  lemma ProxyFollowsTarget(e: Env, r: RuleId, pos: nat, fuel: nat)
    requires Wf(e) && r < |e.rules| && pos <= |e.text| && e.rules[r].kind.IsProxy()
    ensures var res := Apply(e, r, pos, fuel); var target := Target(e.gs, e.rules, e.memo, r);
      && (target.Err? ==> res == Stop(Unresolved(target.error)))
      && (target.Ok? ==>
        target.value < |e.rules| && var c := Exec(e, target.value, pos, fuel);
        && (res.Done? <==> c.Done?)
        && (res.Done? ==> res.reached == c.reached && (res.v.Some? <==> c.v.Some?))
        && (res.Done? && res.v.Some? ==> res.v.value == Node(r, c.v.value.kids, c.v.value.len)))
  {
  }
}
