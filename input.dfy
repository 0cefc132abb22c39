/**
 * Citrus::Input and Citrus::MemoizedInput (lib/citrus/input.rb,
 * lib/citrus/memoized_input.rb) together with every rule variant's `exec`.
 *
 * An `Input` holds the text, the cursor `pos` and `max_offset`; a memoized
 * one also holds the packrat cache from (rule, position) to the events the
 * rule appended there, and the number of cache hits.  The events array the
 * source threads through the calls and appends to in place is passed in and
 * returned as a value.
 *
 * Every method that runs a rule is proved against `Semantics`: it returns
 * the run it performed (`got`, ghost) and states that
 *   - the events it returned, the cursor and `max_offset` are the ones that
 *     run describes (`Ran`);
 *   - on a plain Input that run is exactly the reference semantics for the
 *     budget it was given;
 *   - on a memoized Input it is the reference semantics whenever that
 *     finishes within the budget, and in any case it is what the reference
 *     semantics gives for every budget from `need` on.
 * So a memoized parse and a plain parse agree whenever both finish.
 */
module Inputs {
  import opened Base
  import opened Events
  import opened Rules
  import opened Grammars
  import opened Semantics
  import opened Steps
  import opened Agreement

  type Key = (RuleId, nat)

  /** A resolved proxy keeps the target it had when the parse began, or the one it resolves to. */
  ghost predicate Agrees(e: Env, resolved: map<RuleId, RuleId>)
    requires Wf(e) && MemoValid(e.rules, resolved)
  {
    && (forall p :: p in e.memo ==> p in resolved)
    && (forall p :: p in resolved ==> Target(e.gs, e.rules, e.memo, p) == Ok(resolved[p]))
  }

  lemma AgreesTarget(e: Env, resolved: map<RuleId, RuleId>, p: RuleId)
    requires Wf(e) && MemoValid(e.rules, resolved) && Agrees(e, resolved)
    requires p < |e.rules| && e.rules[p].kind.IsProxy()
    ensures Target(e.gs, e.rules, resolved, p) == Target(e.gs, e.rules, e.memo, p)
  {
  }

  /**
   * Every cache entry is what the rule appends at that position: the
   * reference semantics finishes there with budget `needs[k]`, appending the
   * cached events, and the furthest position it reached is covered by
   * `max_offset`.
   */
  ghost predicate CacheValid(e: Env, cache: map<Key, seq<Event>>, needs: map<Key, nat>, maxOffset: nat)
    requires Wf(e)
  {
    && (forall k :: k in cache ==> k in needs)
    && forall k {:trigger needs[k]} :: k in cache && k in needs ==>
      && k.0 < |e.rules| && k.1 <= |e.text|
      && var run := Apply(e, k.0, k.1, needs[k]);
      && run.Done? && cache[k] == FlatOpt(run.v) && run.reached <= maxOffset
  }

  lemma CacheValidMono(e: Env, cache: map<Key, seq<Event>>, needs: map<Key, nat>, m: nat, m': nat)
    requires Wf(e) && CacheValid(e, cache, needs, m) && m <= m'
    ensures CacheValid(e, cache, needs, m')
  {
  }

  /** Resolving a proxy for the first time records the target the parse began with. */
  lemma AgreesAdd(e: Env, resolved: map<RuleId, RuleId>, p: RuleId, v: RuleId)
    requires Wf(e) && MemoValid(e.rules, resolved) && Agrees(e, resolved)
    requires p < |e.rules| && e.rules[p].kind.IsProxy() && v < |e.rules|
    requires Target(e.gs, e.rules, e.memo, p) == Ok(v)
    ensures MemoValid(e.rules, resolved[p := v]) && Agrees(e, resolved[p := v])
  {
  }

  class Input {
    const text: string
    const memoized: bool
    const reg: Registry
    /** The text and the rules as they were when the input was made. */
    ghost const env: Env
    var pos: nat
    var maxOffset: nat
    var cache: map<Key, seq<Event>>
    var cacheHits: nat
    /** For each cache entry, a budget with which the reference semantics yields it. */
    ghost var needs: map<Key, nat>

    /** The rules are those the input was made with; resolved proxies agree with them. */
    ghost predicate World()
      reads reg
    {
      && Wf(env) && env.text == text
      && reg.rules == env.rules && reg.grammars == env.gs
      && reg.Valid() && Agrees(env, reg.resolved)
    }

    ghost predicate CacheOk()
      reads this`cache, this`needs, this`maxOffset
      requires Wf(env)
    {
      CacheValid(env, cache, needs, maxOffset)
    }

    ghost predicate Valid()
      reads this, reg
    {
      && World()
      && pos <= |text| && maxOffset <= |text|
      && (!memoized ==> cache == map[])
      && CacheOk()
    }

    /**
     * The returned events, the cursor and `max_offset` are those of `got`:
     * an exception exactly when `got` stopped, and otherwise the events of
     * its tree appended to `events`, the cursor after the match and
     * `max_offset` raised to what the run reached.
     */
    ghost predicate Ran(events: seq<Event>, evs: seq<Event>, err: Option<Halt>, got: Run<Option<Tree>>, pos0: nat, max0: nat)
      reads this
    {
      && (err.None? <==> got.Done?)
      && (got.Stop? ==> err == Some(got.why))
      && (got.Done? ==> evs == events + FlatOpt(got.v) && maxOffset == Max(max0, got.reached))
      && (got.Done? && got.v.Some? ==> pos == pos0 + got.v.value.len)
    }

    /** `Input.new(string)` or `MemoizedInput.new(string)` over the rules of `reg`. */
    constructor (s: string, r: Registry, memo: bool)
      requires r.Valid()
      ensures Valid() && text == s && reg == r && memoized == memo
      ensures pos == 0 && maxOffset == 0 && cache == map[] && cacheHits == 0
      ensures env == Env(s, r.grammars, r.rules, r.resolved)
    {
      text := s;
      reg := r;
      memoized := memo;
      env := Env(s, r.grammars, r.rules, r.resolved);
      pos := 0;
      maxOffset := 0;
      cache := map[];
      cacheHits := 0;
      needs := map[];
    }

    /** `reset`: back to the start, with an empty cache (input.rb:18-21, memoized_input.rb:22-26). */
    method Reset()
      requires Valid()
      modifies this
      ensures Valid() && pos == 0 && maxOffset == 0 && cache == map[] && cacheHits == 0
    {
      pos := 0;
      maxOffset := 0;
      cache := map[];
      cacheHits := 0;
      needs := map[];
    }

    /** `exec(rule, events)` (input.rb:78-89). */
    method Exec(r: RuleId, events: seq<Event>, fuel: nat) returns (evs: seq<Event>, err: Option<Halt>, ghost got: Run<Option<Tree>>, ghost need: nat)
      requires Valid() && r < |env.rules|
      modifies this, reg`resolved
      decreases fuel, 0
      ensures Valid()
      ensures Ran(events, evs, err, got, old(pos), old(maxOffset))
      ensures got.Done? && got.v.None? ==> pos == old(pos)
      ensures ExecOk(env, r, old(pos), fuel, !memoized, got, need)
    {
      if fuel == 0 {
        ExecOkEmpty(env, r, pos, !memoized);
        evs, err, got, need := events, Some(OutOfFuel), Stop(OutOfFuel), 0;
        return;
      }
      var position := pos;
      var index := |events|;
      ghost var g, nd;
      evs, err, g, nd := ApplyRule(r, events, fuel - 1);
      ExecOkFrom(env, r, position, fuel, !memoized, g, nd);
      got, need := ExecResult(position, g), nd + 1;
      if err.Some? {
        return;
      }
      if |evs| > index {
        if pos > maxOffset {
          CacheValidMono(env, cache, needs, maxOffset, pos);
          maxOffset := pos;
        }
      } else {
        pos := position;
      }
    }

    /** `test(rule)`: the length of a match here, without moving (input.rb:93-98). */
    method Test(r: RuleId, fuel: nat) returns (len: Option<nat>, err: Option<Halt>, ghost got: Run<Option<Tree>>, ghost need: nat)
      requires Valid() && r < |env.rules|
      modifies this, reg`resolved
      decreases fuel, 0
      ensures Valid()
      ensures err.None? <==> got.Done?
      ensures got.Stop? ==> err == Some(got.why)
      ensures got.Done? ==> pos == old(pos) && maxOffset == Max(old(maxOffset), got.reached)
      ensures got.Done? ==> len == if got.v.Some? then Some(got.v.value.len) else None
      ensures TestOk(env, r, old(pos), fuel, !memoized, got, need)
    {
      if fuel == 0 {
        TestOkEmpty(env, r, pos, !memoized);
        len, err, got, need := None, Some(OutOfFuel), Stop(OutOfFuel), 0;
        return;
      }
      var position := pos;
      var evs;
      ghost var nd;
      evs, err, got, nd := ApplyRule(r, [], fuel - 1);
      TestOkFrom(env, r, position, fuel, !memoized, got, nd);
      need := nd + 1;
      pos := position;
      len := LastLen(evs);
    }

    /** `apply_rule`: run the rule, or on a memoized input answer from the cache (memoized_input.rb:35-55). */
    method ApplyRule(r: RuleId, events: seq<Event>, fuel: nat) returns (evs: seq<Event>, err: Option<Halt>, ghost got: Run<Option<Tree>>, ghost need: nat)
      requires Valid() && r < |env.rules|
      modifies this, reg`resolved
      decreases fuel, 5
      ensures Valid()
      ensures Ran(events, evs, err, got, old(pos), old(maxOffset))
      ensures ApplyOk(env, r, old(pos), fuel, !memoized, got, need)
      ensures memoized && old((r, pos) in cache) ==> cacheHits == old(cacheHits) + 1 && evs == events + old(cache[(r, pos)])
      ensures memoized && err.None? ==> (r, old(pos)) in cache
    {
      if !memoized {
        evs, err, got, need := ExecRule(r, events, fuel);
        return;
      }
      var key := (r, pos);
      if key in cache {
        cacheHits := cacheHits + 1;
        var c := cache[key];
        need := needs[key];
        got := Apply(env, r, pos, need);
        ApplyOkCached(env, r, pos, fuel, need);
        if c != [] {
          evs := events + c;
          pos := pos + c[|c| - 1].n;
        } else {
          evs := events;
        }
        err := None;
        return;
      }
      evs, err, got, need := ExecRule(r, events, fuel);
      if err.None? {
        assert Apply(env, r, key.1, need) == got;
        cache := cache[key := evs[|events|..]];
        needs := needs[key := need];
      }
    }

    /** `rule.exec(input, events)`, dispatched on the rule's variant. */
    method ExecRule(r: RuleId, events: seq<Event>, fuel: nat) returns (evs: seq<Event>, err: Option<Halt>, ghost got: Run<Option<Tree>>, ghost need: nat)
      requires Valid() && r < |env.rules|
      modifies this, reg`resolved
      decreases fuel, 4
      ensures Valid()
      ensures Ran(events, evs, err, got, old(pos), old(maxOffset))
      ensures ApplyOk(env, r, old(pos), fuel, !memoized, got, need)
    {
      match reg.rules[r].kind
      case Terminal(p) =>
        evs, err, got, need := TerminalExec(r, p, events, fuel);
      case Sequence(subs) =>
        evs, err, got, need := SequenceExec(r, subs, events, fuel);
      case Choice(subs) =>
        evs, err, got, need := ChoiceExec(r, subs, events, fuel);
      case Repeat(sub, min, max) =>
        evs, err, got, need := RepeatExec(r, sub, min, max, events, fuel);
      case AndPredicate(sub) =>
        evs, err, got, need := AndExec(r, sub, events, fuel);
      case NotPredicate(sub) =>
        evs, err, got, need := NotExec(r, sub, events, fuel);
      case ButPredicate(sub) =>
        evs, err, got, need := ButExec(r, sub, events, fuel);
      case Alias(_) =>
        evs, err, got, need := ProxyExec(r, events, fuel);
      case Super(_) =>
        evs, err, got, need := ProxyExec(r, events, fuel);
    }

    /** Terminal#exec: scan the pattern at the cursor (terminal.rb:29-39). */
    method TerminalExec(r: RuleId, p: Pattern, events: seq<Event>, ghost fuel: nat) returns (evs: seq<Event>, err: Option<Halt>, ghost got: Run<Option<Tree>>, ghost need: nat)
      requires Valid() && r < |env.rules| && env.rules[r].kind == Terminal(p)
      modifies this
      ensures Valid()
      ensures Ran(events, evs, err, got, old(pos), old(maxOffset))
      ensures ApplyOk(env, r, old(pos), fuel, !memoized, got, need)
    {
      var s := Scan(text, pos, p);
      TerminalOk(env, r, p, pos, fuel, !memoized);
      got, need, err := TerminalResult(r, s), 0, None;
      if s.Some? {
        OpenClose(events, r, [], s.value);
        pos := pos + s.value;
        evs := events + [Ref(r), Close, Len(s.value)];
      } else {
        evs := events;
      }
    }

    /** The rule `r` started at `pos0` has finished: `got` is its run, and the events, cursor and `max_offset` are its. */
    ghost predicate Finished(r: RuleId, pos0: nat, max0: nat, events: seq<Event>, evs: seq<Event>, err: Option<Halt>,
                             got: Run<Option<Tree>>, fuel: nat, need: nat)
      reads this
      requires Wf(env) && r < |env.rules| && pos0 <= |env.text|
    {
      && Ran(events, evs, err, got, pos0, max0)
      && ApplyOk(env, r, pos0, fuel, !memoized, got, need)
    }

    /** Sequence#exec: every sub-rule in turn, or nothing at all (sequence.rb:12-34). */
    method SequenceExec(r: RuleId, subs: seq<RuleId>, events: seq<Event>, fuel: nat) returns (evs: seq<Event>, err: Option<Halt>, ghost got: Run<Option<Tree>>, ghost need: nat)
      requires Valid() && r < |env.rules| && env.rules[r].kind == Sequence(subs)
      modifies this, reg`resolved
      decreases fuel, 3
      ensures Valid()
      ensures Ran(events, evs, err, got, old(pos), old(maxOffset))
      ensures ApplyOk(env, r, old(pos), fuel, !memoized, got, need)
    {
      SubsInArena(env, r);
      var pos0 := pos;
      ghost var max0 := maxOffset;
      evs := events + [Ref(r)];
      var length := 0;
      var n := 0;
      ghost var kids: seq<Tree> := [];
      ghost var m: nat := 0;
      ghost var exact := true;
      need := 0;
      SeqInvStart(env, r, subs, pos0, fuel, !memoized);
      var more := true;
      err, got := None, Done(None, 0);
      while more && n < |subs|
        invariant Valid()
        invariant more ==> n <= |subs| && |kids| == n && length == SumLens(kids) && pos == pos0 + length
        invariant more ==> evs == events + [Ref(r)] + FlattenAll(kids)
        invariant more ==> maxOffset == Max(max0, m)
        invariant more ==> SeqInv(env, r, subs, pos0, pos, n, kids, m, fuel, exact, !memoized, need)
        invariant !more ==> Finished(r, pos0, max0, events, evs, err, got, fuel, need)
        decreases more, |subs| - n
      {
        more, evs, err, length, kids, m, exact, need, got := SequenceOnce(r, subs, pos0, max0, events, evs, n, length, kids, m, exact, need, fuel);
        if more {
          n := n + 1;
        }
      }
      if !more {
        return;
      }
      SeqInvEnd(env, r, subs, pos0, pos, kids, m, fuel, exact, !memoized, need);
      OpenClose(events, r, kids, length);
      evs := evs + [Close, Len(length)];
      err := None;
      got := Done(Some(Node(r, kids, length)), m);
    }

    /** One sub-rule of a Sequence, the first `n` having matched as `kids`. */
    method SequenceOnce(r: RuleId, subs: seq<RuleId>, pos0: nat, ghost max0: nat, events: seq<Event>, evs: seq<Event>,
                        n: nat, length: nat, ghost kids: seq<Tree>, ghost m: nat, ghost exact: bool, ghost need: nat, fuel: nat)
      returns (more: bool, evs': seq<Event>, err: Option<Halt>, length': nat, ghost kids': seq<Tree>, ghost m': nat,
               ghost exact': bool, ghost need': nat, ghost got: Run<Option<Tree>>)
      requires Valid() && r < |env.rules| && env.rules[r].kind == Sequence(subs) && SubsIn(env, subs)
      requires n < |subs| && |kids| == n && length == SumLens(kids) && pos == pos0 + length && pos0 <= |text|
      requires evs == events + [Ref(r)] + FlattenAll(kids)
      requires maxOffset == Max(max0, m)
      requires SeqInv(env, r, subs, pos0, pos, n, kids, m, fuel, exact, !memoized, need)
      modifies this, reg`resolved
      decreases fuel, 1
      ensures Valid()
      ensures more ==> |kids'| == n + 1 && length' == SumLens(kids') && pos == pos0 + length'
      ensures more ==> evs' == events + [Ref(r)] + FlattenAll(kids')
      ensures more ==> maxOffset == Max(max0, m')
      ensures more ==> SeqInv(env, r, subs, pos0, pos, n + 1, kids', m', fuel, exact', !memoized, need')
      ensures !more ==> Finished(r, pos0, max0, events, evs', err, got, fuel, need')
    {
      ghost var p := pos;
      length', kids', m', exact', err, got := length, kids, m, exact, None, Done(None, 0);
      var evs1, err1, g1, need1 := Exec(subs[n], evs, fuel);
      need' := Max(need, need1);
      if err1.Some? {
        SeqInvStop(env, r, subs, pos0, p, n, kids, m, fuel, exact, !memoized, need, g1, need1);
        more, evs', err, got := false, evs1, err1, Stop(err1.value);
        return;
      }
      if |evs1| == |evs| {
        SeqInvFail(env, r, subs, pos0, p, n, kids, m, fuel, exact, !memoized, need, g1, need1);
        more, evs', got := false, evs1[..|events|], Done(None, Max(m, g1.reached));
        return;
      }
      ghost var t := g1.v.value;
      SeqInvNext(env, r, subs, pos0, p, n, kids, m, fuel, exact, !memoized, need, g1, need1);
      exact' := exact && Semantics.Exec(env, subs[n], p, fuel) == g1;
      length' := length + evs1[|evs1| - 1].n;
      FlattenAllSnoc(kids, t);
      OpenSnoc(events, r, kids, t);
      kids', m' := kids + [t], Max(m, g1.reached);
      evs' := evs1;
      more := true;
    }

    /** Choice#exec: the first alternative that matches, wrapped (choice.rb:12-31). */
    method ChoiceExec(r: RuleId, subs: seq<RuleId>, events: seq<Event>, fuel: nat) returns (evs: seq<Event>, err: Option<Halt>, ghost got: Run<Option<Tree>>, ghost need: nat)
      requires Valid() && r < |env.rules| && env.rules[r].kind == Choice(subs)
      modifies this, reg`resolved
      decreases fuel, 3
      ensures Valid()
      ensures Ran(events, evs, err, got, old(pos), old(maxOffset))
      ensures ApplyOk(env, r, old(pos), fuel, !memoized, got, need)
    {
      SubsInArena(env, r);
      var pos0 := pos;
      ghost var max0 := maxOffset;
      evs := events + [Ref(r)];
      var index := |evs|;
      var n := 0;
      ghost var m: nat := 0;
      ghost var exact := true;
      need := 0;
      ChoiceInvStart(env, r, subs, pos0, fuel, !memoized);
      while n < |subs|
        invariant Valid()
        invariant n <= |subs| && pos == pos0 && evs == events + [Ref(r)] && index == |evs|
        invariant maxOffset == Max(max0, m)
        invariant ChoiceInv(env, r, subs, pos0, n, m, fuel, exact, !memoized, need)
      {
        var evs1, err1, g1, need1 := Exec(subs[n], evs, fuel);
        if err1.Some? {
          ChoiceInvStop(env, r, subs, pos0, n, m, fuel, exact, !memoized, need, g1, need1);
          evs, err, got, need := evs1, err1, Stop(err1.value), Max(need, need1);
          return;
        }
        if |evs1| > index {
          ChoiceInvWin(env, r, subs, pos0, n, m, fuel, exact, !memoized, need, g1, need1);
          ghost var t := g1.v.value;
          evs := evs1 + [Close];
          evs := evs + [evs[|evs| - 2]];
          FlattenOne(t);
          OpenClose(events, r, [t], t.len);
          err, got, need := None, Done(Some(Node(r, [t], t.len)), Max(m, g1.reached)), Max(need, need1);
          return;
        }
        ChoiceInvNext(env, r, subs, pos0, n, m, fuel, exact, !memoized, need, g1, need1);
        exact := exact && Semantics.Exec(env, subs[n], pos0, fuel) == g1;
        need, m, n := Max(need, need1), Max(m, g1.reached), n + 1;
      }
      ChoiceInvEnd(env, r, subs, pos0, m, fuel, exact, !memoized, need);
      evs := evs[..|evs| - 1];
      err, got := None, Done(None, m);
    }

    /**
     * Repeat#exec: the sub-rule as often as it matches, up to `max` times,
     * kept when it matched at least `min` times (repeat.rb:38-59).  Where an
     * unbounded repetition matches the empty string the source loops
     * forever; here that is the `Diverges` stop.
     */
    method RepeatExec(r: RuleId, sub: RuleId, min: nat, max: Bound, events: seq<Event>, fuel: nat) returns (evs: seq<Event>, err: Option<Halt>, ghost got: Run<Option<Tree>>, ghost need: nat)
      requires Valid() && r < |env.rules| && env.rules[r].kind == Repeat(sub, min, max)
      modifies this, reg`resolved
      decreases fuel, 3
      ensures Valid()
      ensures Ran(events, evs, err, got, old(pos), old(maxOffset))
      ensures ApplyOk(env, r, old(pos), fuel, !memoized, got, need)
    {
      SubsInArena(env, r);
      var pos0 := pos;
      ghost var max0 := maxOffset;
      var start := |events|;
      evs := events + [Ref(r)];
      var length := 0;
      var n := 0;
      ghost var kids: seq<Tree> := [];
      ghost var m: nat := 0;
      ghost var exact := true;
      need := 0;
      RepInvStart(env, r, sub, max, pos0, fuel, !memoized);
      var more := true;
      err, got := None, Done(None, 0);
      while more && Below(n, max)
        invariant Valid()
        invariant more ==> |kids| == n && length == SumLens(kids) && pos == pos0 + length
        invariant more ==> evs == events + [Ref(r)] + FlattenAll(kids)
        invariant more ==> maxOffset == Max(max0, m)
        invariant more ==> RepInv(env, r, sub, max, pos0, pos, n, kids, m, fuel, exact, !memoized, need)
        invariant !more ==> Finished(r, pos0, max0, events, evs, err, got, fuel, need)
        decreases more, RepeatMeasure(max, n, |text| - pos)
      {
        more, evs, err, length, kids, m, exact, need, got := RepeatOnce(r, sub, min, max, pos0, max0, events, evs, n, length, kids, m, exact, need, fuel);
        if more {
          n := n + 1;
        }
      }
      if !more {
        return;
      }
      if !Below(n, max) {
        RepInvEnd(env, r, sub, min, max, pos0, pos, n, kids, m, fuel, exact, !memoized, need);
      }
      err := None;
      got := RepeatResult(r, min, Done(kids, m));
      if n >= min {
        OpenClose(events, r, kids, length);
        evs := evs + [Close, Len(length)];
      } else {
        evs := evs[..start];
      }
    }

    /** One more attempt of the sub-rule of a Repeat, after `n` matches made `kids`. */
    method RepeatOnce(r: RuleId, sub: RuleId, min: nat, max: Bound, pos0: nat, ghost max0: nat, events: seq<Event>, evs: seq<Event>,
                      n: nat, length: nat, ghost kids: seq<Tree>, ghost m: nat, ghost exact: bool, ghost need: nat, fuel: nat)
      returns (more: bool, evs': seq<Event>, err: Option<Halt>, length': nat, ghost kids': seq<Tree>, ghost m': nat,
               ghost exact': bool, ghost need': nat, ghost got: Run<Option<Tree>>)
      requires Valid() && r < |env.rules| && env.rules[r].kind == Repeat(sub, min, max) && sub < r
      requires Below(n, max) && |kids| == n && length == SumLens(kids) && pos == pos0 + length && pos0 <= |text|
      requires evs == events + [Ref(r)] + FlattenAll(kids)
      requires maxOffset == Max(max0, m)
      requires RepInv(env, r, sub, max, pos0, pos, n, kids, m, fuel, exact, !memoized, need)
      modifies this, reg`resolved
      decreases fuel, 1
      ensures Valid()
      ensures more ==> |kids'| == n + 1 && length' == SumLens(kids') && pos == pos0 + length'
      ensures more ==> evs' == events + [Ref(r)] + FlattenAll(kids')
      ensures more ==> maxOffset == Max(max0, m')
      ensures more ==> RepeatMeasure(max, n + 1, |text| - pos) < RepeatMeasure(max, n, |text| - old(pos))
      ensures more ==> RepInv(env, r, sub, max, pos0, pos, n + 1, kids', m', fuel, exact', !memoized, need')
      ensures !more ==> Finished(r, pos0, max0, events, evs', err, got, fuel, need')
    {
      ghost var p := pos;
      length', kids', m', exact', err, got := length, kids, m, exact, None, Done(None, 0);
      var evs1, err1, g1, need1 := Exec(sub, evs, fuel);
      need' := Max(need, need1);
      if err1.Some? {
        RepInvStop(env, r, sub, min, max, pos0, p, n, kids, m, fuel, exact, !memoized, need, g1, need1);
        more, evs', err, got := false, evs1, err1, Stop(err1.value);
        return;
      }
      if |evs1| == |evs| {
        RepInvFail(env, r, sub, min, max, pos0, p, n, kids, m, fuel, exact, !memoized, need, g1, need1);
        m' := Max(m, g1.reached);
        got := RepeatResult(r, min, Done(kids, m'));
        err := None;
        more := false;
        if n >= min {
          OpenClose(events, r, kids, length);
          evs' := evs + [Close, Len(length)];
        } else {
          evs' := events;
        }
        return;
      }
      var len := evs1[|evs1| - 1].n;
      ghost var t := g1.v.value;
      if len == 0 && max.Infinity? {
        RepInvDiverge(env, r, sub, min, max, pos0, p, n, kids, m, fuel, exact, !memoized, need, g1, need1);
        more, evs', err, got := false, evs1, Some(Diverges), Stop(Diverges);
        return;
      }
      RepInvNext(env, r, sub, min, max, pos0, p, n, kids, m, fuel, exact, !memoized, need, g1, need1);
      exact' := exact && Semantics.Exec(env, sub, p, fuel) == g1;
      length' := length + len;
      FlattenAllSnoc(kids, t);
      OpenSnoc(events, r, kids, t);
      kids', m' := kids + [t], Max(m, g1.reached);
      evs' := evs1;
      more := true;
    }

    /** AndPredicate#exec: match nothing where the sub-rule would match (and_predicate.rb:22-30). */
    method AndExec(r: RuleId, sub: RuleId, events: seq<Event>, fuel: nat) returns (evs: seq<Event>, err: Option<Halt>, ghost got: Run<Option<Tree>>, ghost need: nat)
      requires Valid() && r < |env.rules| && env.rules[r].kind == AndPredicate(sub)
      modifies this, reg`resolved
      decreases fuel, 3
      ensures Valid()
      ensures Ran(events, evs, err, got, old(pos), old(maxOffset))
      ensures ApplyOk(env, r, old(pos), fuel, !memoized, got, need)
    {
      SubsInArena(env, r);
      ghost var pos0 := pos;
      var len;
      ghost var g1, need1;
      len, err, g1, need1 := Test(sub, fuel);
      AndOk(env, r, sub, pos0, fuel, !memoized, g1, need1);
      got, need := AndResult(r, g1), need1;
      if err.None? && len.Some? {
        OpenClose(events, r, [], 0);
        evs := events + [Ref(r), Close, Len(0)];
      } else {
        evs := events;
      }
    }

    /** NotPredicate#exec: match nothing where the sub-rule would not match (not_predicate.rb:22-30). */
    method NotExec(r: RuleId, sub: RuleId, events: seq<Event>, fuel: nat) returns (evs: seq<Event>, err: Option<Halt>, ghost got: Run<Option<Tree>>, ghost need: nat)
      requires Valid() && r < |env.rules| && env.rules[r].kind == NotPredicate(sub)
      modifies this, reg`resolved
      decreases fuel, 3
      ensures Valid()
      ensures Ran(events, evs, err, got, old(pos), old(maxOffset))
      ensures ApplyOk(env, r, old(pos), fuel, !memoized, got, need)
    {
      SubsInArena(env, r);
      ghost var pos0 := pos;
      var len;
      ghost var g1, need1;
      len, err, g1, need1 := Test(sub, fuel);
      NotOk(env, r, sub, pos0, fuel, !memoized, g1, need1);
      got, need := NotResult(r, g1), need1;
      if err.None? && len.None? {
        OpenClose(events, r, [], 0);
        evs := events + [Ref(r), Close, Len(0)];
      } else {
        evs := events;
      }
    }

    /**
     * ButPredicate#exec: consume characters with DOT_RULE until the sub-rule
     * would match here (but_predicate.rb:24-40).
     */
    method ButExec(r: RuleId, sub: RuleId, events: seq<Event>, fuel: nat) returns (evs: seq<Event>, err: Option<Halt>, ghost got: Run<Option<Tree>>, ghost need: nat)
      requires Valid() && r < |env.rules| && env.rules[r].kind == ButPredicate(sub)
      modifies this, reg`resolved
      decreases fuel, 3
      ensures Valid()
      ensures Ran(events, evs, err, got, old(pos), old(maxOffset))
      ensures ApplyOk(env, r, old(pos), fuel, !memoized, got, need)
    {
      SubsInArena(env, r);
      var pos0 := pos;
      ghost var max0 := maxOffset;
      var length := 0;
      ghost var m: nat := 0;
      ghost var exact := true;
      need := 0;
      ButInvStart(env, r, sub, pos0, fuel, !memoized);
      var more := true;
      err := None;
      while more
        invariant Valid()
        invariant more ==> err.None?
        invariant err.None? ==> pos == pos0 + length && maxOffset == Max(max0, m)
        invariant more ==> ButInv(env, r, sub, pos0, pos, length, m, fuel, exact, !memoized, need)
        invariant !more && err.Some? ==> ApplyOk(env, r, pos0, fuel, !memoized, Stop(err.value), need)
        invariant !more && err.None? ==> ApplyOk(env, r, pos0, fuel, !memoized, ButResult(r, Done(length, m)), need)
        decreases more, |text| - pos
      {
        more, err, length, m, exact, need := ButOnce(r, sub, pos0, max0, length, m, exact, need, fuel);
      }
      if err.Some? {
        evs, got := events, Stop(err.value);
        return;
      }
      got := ButResult(r, Done(length, m));
      if length > 0 {
        OpenClose(events, r, [], length);
        evs := events + [Ref(r), Close, Len(length)];
      } else {
        evs := events;
      }
    }

    /** One step of a ButPredicate, `length` characters consumed so far: test the sub-rule, else take one character. */
    method ButOnce(r: RuleId, sub: RuleId, pos0: nat, ghost max0: nat, length: nat, ghost m: nat, ghost exact: bool, ghost need: nat, fuel: nat)
      returns (more: bool, err: Option<Halt>, length': nat, ghost m': nat, ghost exact': bool, ghost need': nat)
      requires Valid() && r < |env.rules| && env.rules[r].kind == ButPredicate(sub) && sub < r
      requires pos == pos0 + length && maxOffset == Max(max0, m)
      requires ButInv(env, r, sub, pos0, pos, length, m, fuel, exact, !memoized, need)
      modifies this, reg`resolved
      decreases fuel, 2
      ensures Valid()
      ensures more ==> err.None?
      ensures err.None? ==> pos == pos0 + length' && maxOffset == Max(max0, m')
      ensures more ==> length' == length + 1
      ensures more ==> ButInv(env, r, sub, pos0, pos, length', m', fuel, exact', !memoized, need')
      ensures !more && err.Some? ==> ApplyOk(env, r, pos0, fuel, !memoized, Stop(err.value), need')
      ensures !more && err.None? ==> ApplyOk(env, r, pos0, fuel, !memoized, ButResult(r, Done(length', m')), need')
    {
      ghost var p := pos;
      length', m', exact' := length, m, exact;
      var l, err1, g1, need1 := Test(sub, fuel);
      need' := Max(need, need1);
      if err1.Some? {
        ButInvStop(env, r, sub, pos0, p, length, m, fuel, exact, !memoized, need, g1, need1);
        more, err := false, err1;
        return;
      }
      m' := Max(m, g1.reached);
      if l.Some? {
        ButInvMatch(env, r, sub, pos0, p, length, m, fuel, exact, !memoized, need, g1, need1);
        more, err := false, None;
        return;
      }
      more, err, length', m', exact', need' := ButDot(r, sub, pos0, max0, length, m, exact, need, g1, need1, fuel);
    }

    /** The second half of a ButPredicate step: the sub-rule did not match here, so take one character with DOT_RULE. */
    method ButDot(r: RuleId, sub: RuleId, pos0: nat, ghost max0: nat, length: nat, ghost m: nat, ghost exact: bool, ghost need: nat,
                  ghost c: Run<Option<Tree>>, ghost nc: nat, fuel: nat)
      returns (more: bool, err: Option<Halt>, length': nat, ghost m': nat, ghost exact': bool, ghost need': nat)
      requires Valid() && r < |env.rules| && env.rules[r].kind == ButPredicate(sub) && sub < r
      requires pos == pos0 + length && pos0 <= |text|
      requires ButInv(env, r, sub, pos0, pos, length, m, fuel, exact, !memoized, need)
      requires TestOk(env, sub, pos, fuel, !memoized, c, nc) && c.Done? && c.v.None?
      requires maxOffset == Max(max0, Max(m, c.reached))
      modifies this, reg`resolved
      decreases fuel, 1
      ensures Valid()
      ensures more ==> err.None?
      ensures err.None? ==> pos == pos0 + length' && maxOffset == Max(max0, m')
      ensures more ==> length' == length + 1
      ensures more ==> ButInv(env, r, sub, pos0, pos, length', m', fuel, exact', !memoized, need')
      ensures !more && err.Some? ==> ApplyOk(env, r, pos0, fuel, !memoized, Stop(err.value), need')
      ensures !more && err.None? ==> ApplyOk(env, r, pos0, fuel, !memoized, ButResult(r, Done(length', m')), need')
    {
      ghost var p := pos;
      length', m', exact' := length, m, exact;
      var d, err2, g2, need2 := Exec(DotRule, [], fuel);
      need' := Max(Max(need, nc), need2);
      if err2.Some? {
        ButInvDotStop(env, r, sub, pos0, p, length, m, fuel, exact, !memoized, need, c, nc, g2, need2);
        more, err := false, err2;
        return;
      }
      m' := Max(m, Max(c.reached, g2.reached));
      var len := LastLen(d);
      if len.None? {
        ButInvDotFail(env, r, sub, pos0, p, length, m, fuel, exact, !memoized, need, c, nc, g2, need2);
        more, err := false, None;
        return;
      }
      ButInvDotNext(env, r, sub, pos0, p, length, m, fuel, exact, !memoized, need, c, nc, g2, need2);
      exact' := exact && Semantics.Test(env, sub, p, fuel) == c && Semantics.Exec(env, DotRule, p, fuel) == g2;
      length' := length + len.value;
      more, err := true, None;
    }

    /** Proxy#exec: run the resolved rule and put the proxy in its place (proxy.rb:28-38). */
    method ProxyExec(r: RuleId, events: seq<Event>, fuel: nat) returns (evs: seq<Event>, err: Option<Halt>, ghost got: Run<Option<Tree>>, ghost need: nat)
      requires Valid() && r < |env.rules| && env.rules[r].kind.IsProxy()
      modifies this, reg`resolved
      decreases fuel, 3
      ensures Valid()
      ensures Ran(events, evs, err, got, old(pos), old(maxOffset))
      ensures ApplyOk(env, r, old(pos), fuel, !memoized, got, need)
    {
      ghost var pos0 := pos;
      AgreesTarget(env, reg.resolved, r);
      ghost var before := reg.resolved;
      var target := reg.ProxyRule(r);
      if r !in before && target.Ok? {
        AgreesAdd(env, before, r, target.value);
      }
      if target.Err? {
        ProxyUnresolvedOk(env, r, pos0, fuel, !memoized, target.error);
        evs, err, got, need := events, Some(Unresolved(target.error)), Stop(Unresolved(target.error)), 0;
        return;
      }
      var index := |events|;
      var evs1;
      ghost var g1;
      evs1, err, g1, need := Exec(target.value, events, fuel);
      ProxyOk(env, r, target.value, pos0, fuel, !memoized, g1, need);
      got := ProxyResult(r, g1);
      if err.None? && |evs1| > index {
        Retag(events, g1.v.value, r);
        evs := evs1[index := Ref(r)];
      } else {
        evs := evs1;
      }
    }
  }
}
