/**
 * The match trees the engine builds are the ones `Citrus::Match` decodes
 * correctly. Every tree with children is exactly as long as its children
 * together, and every elided rule at the head of a stream has exactly one
 * child, so the constructor's stripping and the offsets of `process_events!`
 * work (match.rb:11-23, 180-244).
 */
module Shapes {
  import opened Base
  import opened Events
  import opened Rules
  import opened Grammars
  import opened Semantics
  import opened Matches

  /** A tree `Match.new` can be given: consistent lengths, and one child under every elided marker it strips. */
  ghost predicate Decodable(e: Env, t: Tree)
    requires Wf(e)
  {
    Consistent(t) && ElidedSpine(InfoTable(e.gs, e.rules, e.memo), t)
  }

  /** More proxies followed never change an answer already found. */
  lemma {:induction false} ElideOfDeeper(gs: seq<GrammarData>, rules: seq<RuleNode>, memo: map<RuleId, RuleId>, id: RuleId, d: nat, d': nat)
    requires ValidWorld(gs, rules, memo) && id < |rules| && d <= d'
    requires ElideOf(gs, rules, memo, id, d).Some?
    ensures ElideOf(gs, rules, memo, id, d') == ElideOf(gs, rules, memo, id, d)
    decreases d
  {
    if rules[id].kind.IsProxy() {
      var t := Target(gs, rules, memo, id).value;
      ElideOfDeeper(gs, rules, memo, t, d - 1, d' - 1);
    }
  }

  /** A proxy is elided only when the rule it resolves to is. */
  lemma ProxyElidedTarget(e: Env, p: RuleId, t: RuleId)
    requires Wf(e) && p < |e.rules| && e.rules[p].kind.IsProxy()
    requires Target(e.gs, e.rules, e.memo, p) == Ok(t)
    ensures InfoAt(InfoTable(e.gs, e.rules, e.memo), p).elide ==> InfoAt(InfoTable(e.gs, e.rules, e.memo), t).elide
  {
    var n := |e.rules|;
    ProxyDelegates(e.gs, e.rules, e.memo, p, n);
    if ElideOf(e.gs, e.rules, e.memo, p, n) == Some(true) {
      ElideOfDeeper(e.gs, e.rules, e.memo, t, n - 1, n);
    }
  }

  /** Every match `input.exec(rule)` returns is decodable. */
  lemma {:induction false} ExecDecodable(e: Env, r: RuleId, pos: nat, fuel: nat)
    requires Wf(e) && r < |e.rules| && pos <= |e.text|
    ensures var res := Exec(e, r, pos, fuel); res.Done? && res.v.Some? ==> Decodable(e, res.v.value)
    decreases fuel, 0
  {
    if fuel > 0 {
      ApplyDecodable(e, r, pos, fuel - 1);
    }
  }

  lemma {:induction false} ApplyDecodable(e: Env, r: RuleId, pos: nat, fuel: nat)
    requires Wf(e) && r < |e.rules| && pos <= |e.text|
    ensures var res := Apply(e, r, pos, fuel); res.Done? && res.v.Some? ==> Decodable(e, res.v.value)
    decreases fuel, 2
  {
    SubsInArena(e, r);
    var infos := InfoTable(e.gs, e.rules, e.memo);
    match e.rules[r].kind
    case Sequence(subs) =>
      SeqLoopDecodable(e, subs, 0, pos, fuel);
    case Choice(subs) =>
      ChoiceLoopDecodable(e, subs, 0, pos, fuel);
      var res := Apply(e, r, pos, fuel);
      if res.Done? && res.v.Some? {
        var k := res.v.value.kids[0];
        assert res.v.value.kids == [k];
        var c := ChoiceLoop(e, subs, 0, pos, fuel).v.value;
        assert k == c;
        assert [k][1..] == [];
        assert SumLens([k]) == k.len + SumLens([]);
        assert ConsistentAll([k]);
        assert Consistent(res.v.value);
      }
    case Repeat(sub, _, max) =>
      RepeatLoopDecodable(e, sub, max, 0, pos, fuel);
    case Terminal(_) =>
    case AndPredicate(_) =>
    case NotPredicate(_) =>
    case ButPredicate(_) =>
    case _ =>
      match Target(e.gs, e.rules, e.memo, r)
      case Err(_) =>
      case Ok(t) =>
        ExecDecodable(e, t, pos, fuel);
        ProxyElidedTarget(e, r, t);
  }

  lemma {:induction false} SeqLoopDecodable(e: Env, subs: seq<RuleId>, i: nat, pos: nat, fuel: nat)
    requires Wf(e) && SubsIn(e, subs) && i <= |subs| && pos <= |e.text|
    ensures var res := SeqLoop(e, subs, i, pos, fuel); res.Done? && res.v.Some? ==> ConsistentAll(res.v.value)
    decreases fuel, 1, |subs| - i
  {
    if i < |subs| {
      ExecDecodable(e, subs[i], pos, fuel);
      match Exec(e, subs[i], pos, fuel)
      case Done(Some(t), _) =>
        SeqLoopDecodable(e, subs, i + 1, pos + t.len, fuel);
        var res := SeqLoop(e, subs, i, pos, fuel);
        if res.Done? && res.v.Some? {
          assert res.v.value[1..] == SeqLoop(e, subs, i + 1, pos + t.len, fuel).v.value;
        }
      case _ =>
    }
  }

  lemma {:induction false} ChoiceLoopDecodable(e: Env, subs: seq<RuleId>, i: nat, pos: nat, fuel: nat)
    requires Wf(e) && SubsIn(e, subs) && i <= |subs| && pos <= |e.text|
    ensures var res := ChoiceLoop(e, subs, i, pos, fuel); res.Done? && res.v.Some? ==> Decodable(e, res.v.value)
    decreases fuel, 1, |subs| - i
  {
    if i < |subs| {
      ExecDecodable(e, subs[i], pos, fuel);
      match Exec(e, subs[i], pos, fuel)
      case Done(None, _) => ChoiceLoopDecodable(e, subs, i + 1, pos, fuel);
      case _ =>
    }
  }

  lemma {:induction false} RepeatLoopDecodable(e: Env, sub: RuleId, max: Bound, n: nat, pos: nat, fuel: nat)
    requires Wf(e) && sub < |e.rules| && pos <= |e.text|
    ensures var res := RepeatLoop(e, sub, max, n, pos, fuel); res.Done? ==> ConsistentAll(res.v)
    decreases fuel, 1, RepeatMeasure(max, n, |e.text| - pos)
  {
    if Below(n, max) {
      ExecDecodable(e, sub, pos, fuel);
      match Exec(e, sub, pos, fuel)
      case Done(Some(t), _) =>
        if !(t.len == 0 && max.Infinity?) {
          RepeatLoopDecodable(e, sub, max, n + 1, pos + t.len, fuel);
          var res := RepeatLoop(e, sub, max, n, pos, fuel);
          if res.Done? {
            assert res.v[1..] == RepeatLoop(e, sub, max, n + 1, pos + t.len, fuel).v;
          }
        }
      case _ =>
    }
  }
}
