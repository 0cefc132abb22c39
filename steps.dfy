/**
 * One iteration at a time: how the recursive loop functions of `Semantics`
 * unfold once a prefix of the loop has run.  Each `...At` predicate says
 * that the whole loop, started at the rule's own position, is the prefix
 * already run (its trees and the furthest position it reached) followed by
 * the rest of the loop; each `...Step` lemma advances it by one sub-rule.
 * The imperative `Input` methods keep these as loop invariants.
 */
module Steps {
  import opened Base
  import opened Events
  import opened Rules
  import opened Grammars
  import opened Semantics

  // ---------------------------------------------------------------------
  // Sequence
  // ---------------------------------------------------------------------

  function SeqPrepend(kids: seq<Tree>, m: nat, rest: Run<Option<seq<Tree>>>): Run<Option<seq<Tree>>>
  {
    match rest
    case Stop(h) => Stop(h)
    case Done(None, m2) => Done(None, Max(m, m2))
    case Done(Some(ts), m2) => Done(Some(kids + ts), Max(m, m2))
  }

  ghost predicate SeqAt(e: Env, subs: seq<RuleId>, pos0: nat, pos: nat, n: nat, kids: seq<Tree>, m: nat, fuel: nat)
    requires Wf(e) && SubsIn(e, subs) && n <= |subs| && pos0 <= |e.text| && pos <= |e.text|
  {
    SeqLoop(e, subs, 0, pos0, fuel) == SeqPrepend(kids, m, SeqLoop(e, subs, n, pos, fuel))
  }

  lemma {:induction false} SeqStart(e: Env, subs: seq<RuleId>, pos0: nat, fuel: nat)
    requires Wf(e) && SubsIn(e, subs) && pos0 <= |e.text|
    ensures SeqAt(e, subs, pos0, pos0, 0, [], 0, fuel)
  {
    match SeqLoop(e, subs, 0, pos0, fuel)
    case Stop(_) =>
    case Done(None, _) =>
    case Done(Some(ts), _) => assert [] + ts == ts;
  }

  lemma {:induction false} SeqStep(e: Env, subs: seq<RuleId>, pos0: nat, pos: nat, n: nat, kids: seq<Tree>, m: nat, fuel: nat)
    requires Wf(e) && SubsIn(e, subs) && n < |subs| && pos0 <= |e.text| && pos <= |e.text|
    requires SeqAt(e, subs, pos0, pos, n, kids, m, fuel)
    ensures var c := Exec(e, subs[n], pos, fuel);
      && (c.Stop? ==> SeqLoop(e, subs, 0, pos0, fuel) == Stop(c.why))
      && (c.Done? && c.v.None? ==> SeqLoop(e, subs, 0, pos0, fuel) == Done(None, Max(m, c.reached)))
      && (c.Done? && c.v.Some? ==>
            pos + c.v.value.len <= |e.text|
            && SeqAt(e, subs, pos0, pos + c.v.value.len, n + 1, kids + [c.v.value], Max(m, c.reached), fuel))
  {
    var c := Exec(e, subs[n], pos, fuel);
    if c.Done? && c.v.Some? {
      var t := c.v.value;
      match SeqLoop(e, subs, n + 1, pos + t.len, fuel)
      case Stop(_) =>
      case Done(None, _) =>
      case Done(Some(ts), _) => AppendAssoc(kids, [t], ts);
    }
  }

  lemma {:induction false} SeqEnd(e: Env, subs: seq<RuleId>, pos0: nat, pos: nat, kids: seq<Tree>, m: nat, fuel: nat)
    requires Wf(e) && SubsIn(e, subs) && pos0 <= |e.text| && pos <= |e.text|
    requires SeqAt(e, subs, pos0, pos, |subs|, kids, m, fuel)
    ensures SeqLoop(e, subs, 0, pos0, fuel) == Done(Some(kids), m)
  {
    assert kids + [] == kids;
  }

  // ---------------------------------------------------------------------
  // Choice
  // ---------------------------------------------------------------------

  function ChoicePrepend(m: nat, rest: Run<Option<Tree>>): Run<Option<Tree>>
  {
    match rest
    case Stop(h) => Stop(h)
    case Done(w, m2) => Done(w, Max(m, m2))
  }

  ghost predicate ChoiceAt(e: Env, subs: seq<RuleId>, pos: nat, n: nat, m: nat, fuel: nat)
    requires Wf(e) && SubsIn(e, subs) && n <= |subs| && pos <= |e.text|
  {
    ChoiceLoop(e, subs, 0, pos, fuel) == ChoicePrepend(m, ChoiceLoop(e, subs, n, pos, fuel))
  }

  lemma {:induction false} ChoiceStart(e: Env, subs: seq<RuleId>, pos: nat, fuel: nat)
    requires Wf(e) && SubsIn(e, subs) && pos <= |e.text|
    ensures ChoiceAt(e, subs, pos, 0, 0, fuel)
  {
  }

  lemma {:induction false} ChoiceStep(e: Env, subs: seq<RuleId>, pos: nat, n: nat, m: nat, fuel: nat)
    requires Wf(e) && SubsIn(e, subs) && n < |subs| && pos <= |e.text|
    requires ChoiceAt(e, subs, pos, n, m, fuel)
    ensures var c := Exec(e, subs[n], pos, fuel);
      && (c.Stop? ==> ChoiceLoop(e, subs, 0, pos, fuel) == Stop(c.why))
      && (c.Done? && c.v.Some? ==> ChoiceLoop(e, subs, 0, pos, fuel) == Done(c.v, Max(m, c.reached)))
      && (c.Done? && c.v.None? ==> ChoiceAt(e, subs, pos, n + 1, Max(m, c.reached), fuel))
  {
  }

  lemma {:induction false} ChoiceEnd(e: Env, subs: seq<RuleId>, pos: nat, m: nat, fuel: nat)
    requires Wf(e) && SubsIn(e, subs) && pos <= |e.text|
    requires ChoiceAt(e, subs, pos, |subs|, m, fuel)
    ensures ChoiceLoop(e, subs, 0, pos, fuel) == Done(None, m)
  {
  }

  // ---------------------------------------------------------------------
  // Repeat
  // ---------------------------------------------------------------------

  function RepPrepend(kids: seq<Tree>, m: nat, rest: Run<seq<Tree>>): Run<seq<Tree>>
  {
    match rest
    case Stop(h) => Stop(h)
    case Done(ts, m2) => Done(kids + ts, Max(m, m2))
  }

  ghost predicate RepAt(e: Env, sub: RuleId, max: Bound, pos0: nat, pos: nat, n: nat, kids: seq<Tree>, m: nat, fuel: nat)
    requires Wf(e) && sub < |e.rules| && pos0 <= |e.text| && pos <= |e.text|
  {
    RepeatLoop(e, sub, max, 0, pos0, fuel) == RepPrepend(kids, m, RepeatLoop(e, sub, max, n, pos, fuel))
  }

  lemma {:induction false} RepStart(e: Env, sub: RuleId, max: Bound, pos0: nat, fuel: nat)
    requires Wf(e) && sub < |e.rules| && pos0 <= |e.text|
    ensures RepAt(e, sub, max, pos0, pos0, 0, [], 0, fuel)
  {
    match RepeatLoop(e, sub, max, 0, pos0, fuel)
    case Stop(_) =>
    case Done(ts, _) => assert [] + ts == ts;
  }

  lemma {:induction false} RepStep(e: Env, sub: RuleId, max: Bound, pos0: nat, pos: nat, n: nat, kids: seq<Tree>, m: nat, fuel: nat)
    requires Wf(e) && sub < |e.rules| && pos0 <= |e.text| && pos <= |e.text| && Below(n, max)
    requires RepAt(e, sub, max, pos0, pos, n, kids, m, fuel)
    ensures var c := Exec(e, sub, pos, fuel);
      && (c.Stop? ==> RepeatLoop(e, sub, max, 0, pos0, fuel) == Stop(c.why))
      && (c.Done? && c.v.None? ==> RepeatLoop(e, sub, max, 0, pos0, fuel) == Done(kids, Max(m, c.reached)))
      && (c.Done? && c.v.Some? && c.v.value.len == 0 && max.Infinity? ==>
            RepeatLoop(e, sub, max, 0, pos0, fuel) == Stop(Diverges))
      && (c.Done? && c.v.Some? && !(c.v.value.len == 0 && max.Infinity?) ==>
            pos + c.v.value.len <= |e.text|
            && RepAt(e, sub, max, pos0, pos + c.v.value.len, n + 1, kids + [c.v.value], Max(m, c.reached), fuel))
  {
    var c := Exec(e, sub, pos, fuel);
    if c.Done? && c.v.None? {
      assert kids + [] == kids;
    }
    if c.Done? && c.v.Some? && !(c.v.value.len == 0 && max.Infinity?) {
      RepNext(e, sub, max, pos0, pos, n, kids, m, fuel, c.v.value, c.reached);
    }
  }

  lemma {:induction false} RepNext(e: Env, sub: RuleId, max: Bound, pos0: nat, pos: nat, n: nat, kids: seq<Tree>, m: nat, fuel: nat,
                                    t: Tree, cm: nat)
    requires Wf(e) && sub < |e.rules| && pos0 <= |e.text| && pos <= |e.text| && Below(n, max)
    requires RepAt(e, sub, max, pos0, pos, n, kids, m, fuel)
    requires Exec(e, sub, pos, fuel) == Done(Some(t), cm) && !(t.len == 0 && max.Infinity?)
    ensures pos + t.len <= |e.text| && RepAt(e, sub, max, pos0, pos + t.len, n + 1, kids + [t], Max(m, cm), fuel)
  {
    match RepeatLoop(e, sub, max, n + 1, pos + t.len, fuel)
    case Stop(_) =>
    case Done(ts, _) => AppendAssoc(kids, [t], ts);
  }

  lemma {:induction false} RepEnd(e: Env, sub: RuleId, max: Bound, pos0: nat, pos: nat, n: nat, kids: seq<Tree>, m: nat, fuel: nat)
    requires Wf(e) && sub < |e.rules| && pos0 <= |e.text| && pos <= |e.text| && !Below(n, max)
    requires RepAt(e, sub, max, pos0, pos, n, kids, m, fuel)
    ensures RepeatLoop(e, sub, max, 0, pos0, fuel) == Done(kids, m)
  {
    assert kids + [] == kids;
  }

  // ---------------------------------------------------------------------
  // ButPredicate
  // ---------------------------------------------------------------------

  function ButPrepend(n: nat, m: nat, rest: Run<nat>): Run<nat>
  {
    match rest
    case Stop(h) => Stop(h)
    case Done(k, m2) => Done(n + k, Max(m, m2))
  }

  ghost predicate ButAt(e: Env, sub: RuleId, pos0: nat, pos: nat, n: nat, m: nat, fuel: nat)
    requires Wf(e) && sub < |e.rules| && pos0 <= |e.text| && pos <= |e.text|
  {
    ButLoop(e, sub, pos0, fuel) == ButPrepend(n, m, ButLoop(e, sub, pos, fuel))
  }

  lemma {:induction false} ButStart(e: Env, sub: RuleId, pos0: nat, fuel: nat)
    requires Wf(e) && sub < |e.rules| && pos0 <= |e.text|
    ensures ButAt(e, sub, pos0, pos0, 0, 0, fuel)
  {
  }

  lemma {:induction false} ButStep(e: Env, sub: RuleId, pos0: nat, pos: nat, n: nat, m: nat, fuel: nat)
    requires Wf(e) && sub < |e.rules| && pos0 <= |e.text| && pos <= |e.text|
    requires ButAt(e, sub, pos0, pos, n, m, fuel)
    ensures var c := Test(e, sub, pos, fuel);
      var d := DotStep(e, pos, fuel);
      && (c.Stop? ==> ButLoop(e, sub, pos0, fuel) == Stop(c.why))
      && (c.Done? && c.v.Some? ==> ButLoop(e, sub, pos0, fuel) == Done(n, Max(m, c.reached)))
      && (c.Done? && c.v.None? && d.Stop? ==> ButLoop(e, sub, pos0, fuel) == Stop(d.why))
      && (c.Done? && c.v.None? && d.Done? && d.v.None? ==>
            ButLoop(e, sub, pos0, fuel) == Done(n, Max(m, Max(c.reached, d.reached))))
      && (c.Done? && c.v.None? && d.Done? && d.v.Some? ==>
            pos + 1 <= |e.text|
            && ButAt(e, sub, pos0, pos + 1, n + 1, Max(m, Max(c.reached, d.reached)), fuel))
  {
  }
}
