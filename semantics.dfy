/**
 * What running a rule means: the reference semantics that the imperative
 * `Input` methods are proved against.
 *
 * `Exec` is `Input#exec` (lib/citrus/input.rb:78-89), `Test` is the part of
 * `Input#test` that runs the rule (input.rb:93-98) and `Apply` is the
 * variant's own `exec`.  A run either finishes (`Done`) with an optional tree
 * (None: the rule appended nothing) and the furthest position `reached` by a
 * successful `Input#exec` inside it, so that `max_offset` becomes
 * `max(max_offset, reached)`; or it stops with an exception or without end
 * (`Stop`).  The source has no fuel; here every function is given a budget of
 * nested calls, and running out is `Stop(OutOfFuel)`.  An unbounded Repeat
 * whose sub-rule matches the empty string loops forever in the source; that
 * is `Stop(Diverges)`.
 */
module Semantics {
  import opened Base
  import opened Events
  import opened Rules
  import opened Grammars

  /** The text and the rules a parse runs against. */
  datatype Env = Env(text: string, gs: seq<GrammarData>, rules: seq<RuleNode>, memo: map<RuleId, RuleId>)

  predicate Wf(e: Env)
  {
    ValidWorld(e.gs, e.rules, e.memo)
  }

  datatype Halt = OutOfFuel | Diverges | Unresolved(error: ConfigError)

  datatype Run<+T> = Done(v: T, reached: nat) | Stop(why: Halt)

  /** `a` is no more defined than `b`: it ran out of fuel, or it is `b`. */
  predicate Approx<T(==)>(a: Run<T>, b: Run<T>)
  {
    a == Stop(OutOfFuel) || a == b
  }

  /** What a finished run promises about the text it covered. */
  predicate Fits(e: Env, r: RuleId, pos: nat, res: Run<Option<Tree>>)
  {
    res.Done? ==> res.reached <= |e.text| && (res.v.Some? ==> res.v.value.rule == r && pos + res.v.value.len <= |e.text|)
  }

  predicate SubsIn(e: Env, subs: seq<RuleId>)
  {
    forall k :: 0 <= k < |subs| ==> subs[k] < |e.rules|
  }

  /** `Input#exec` around a finished rule: on success, `max_offset` covers the match's end. */
  function ExecResult(pos: nat, run: Run<Option<Tree>>): Run<Option<Tree>>
  {
    match run
    case Done(Some(t), m) => Done(Some(t), Max(m, pos + t.len))
    case _ => run
  }

  /** `input.exec(rule)`: run the rule; on success `max_offset` covers the match. */
  function Exec(e: Env, r: RuleId, pos: nat, fuel: nat): (res: Run<Option<Tree>>)
    requires Wf(e) && r < |e.rules| && pos <= |e.text|
    ensures Fits(e, r, pos, res)
    decreases fuel, 0
  {
    if fuel == 0 then Stop(OutOfFuel) else ExecResult(pos, Apply(e, r, pos, fuel - 1))
  }

  /** `input.test(rule)` runs the rule without recording its own end in `max_offset`. */
  function Test(e: Env, r: RuleId, pos: nat, fuel: nat): (res: Run<Option<Tree>>)
    requires Wf(e) && r < |e.rules| && pos <= |e.text|
    ensures Fits(e, r, pos, res)
    decreases fuel, 0
  {
    if fuel == 0 then Stop(OutOfFuel) else Apply(e, r, pos, fuel - 1)
  }

  /** A Sequence matches when every sub-rule did; its length is the sum of theirs. */
  function SeqResult(r: RuleId, run: Run<Option<seq<Tree>>>): Run<Option<Tree>>
  {
    match run
    case Stop(h) => Stop(h)
    case Done(None, m) => Done(None, m)
    case Done(Some(kids), m) => Done(Some(Node(r, kids, SumLens(kids))), m)
  }

  /** A Choice wraps its winning alternative. */
  function ChoiceResult(r: RuleId, run: Run<Option<Tree>>): Run<Option<Tree>>
  {
    match run
    case Stop(h) => Stop(h)
    case Done(None, m) => Done(None, m)
    case Done(Some(t), m) => Done(Some(Node(r, [t], t.len)), m)
  }

  /** A Repeat matches when at least `min` repetitions did. */
  function RepeatResult(r: RuleId, min: nat, run: Run<seq<Tree>>): Run<Option<Tree>>
  {
    match run
    case Stop(h) => Stop(h)
    case Done(kids, m) => if |kids| >= min then Done(Some(Node(r, kids, SumLens(kids))), m) else Done(None, m)
  }

  /** An AndPredicate matches, with no length, when its sub-rule would. */
  function AndResult(r: RuleId, run: Run<Option<Tree>>): Run<Option<Tree>>
  {
    match run
    case Stop(h) => Stop(h)
    case Done(None, m) => Done(None, m)
    case Done(Some(_), m) => Done(Some(Node(r, [], 0)), m)
  }

  /** A NotPredicate matches, with no length, when its sub-rule would not. */
  function NotResult(r: RuleId, run: Run<Option<Tree>>): Run<Option<Tree>>
  {
    match run
    case Stop(h) => Stop(h)
    case Done(None, m) => Done(Some(Node(r, [], 0)), m)
    case Done(Some(_), m) => Done(None, m)
  }

  /** A ButPredicate matches when it consumed at least one character. */
  function ButResult(r: RuleId, run: Run<nat>): Run<Option<Tree>>
  {
    match run
    case Stop(h) => Stop(h)
    case Done(n, m) => if n > 0 then Done(Some(Node(r, [], n)), m) else Done(None, m)
  }

  /** A proxy stands in for its target's marker (proxy.rb:31-35). */
  function ProxyResult(r: RuleId, run: Run<Option<Tree>>): Run<Option<Tree>>
  {
    match run
    case Stop(h) => Stop(h)
    case Done(None, m) => Done(None, m)
    case Done(Some(t), m) => Done(Some(Node(r, t.kids, t.len)), m)
  }

  /** A terminal's scan: `[self, CLOSE, length]` or nothing. */
  function TerminalResult(r: RuleId, scan: Option<nat>): Run<Option<Tree>>
  {
    match scan
    case None => Done(None, 0)
    case Some(n) => Done(Some(Node(r, [], n)), 0)
  }

  /** `rule.exec(input, events)` for each variant. */
  function Apply(e: Env, r: RuleId, pos: nat, fuel: nat): (res: Run<Option<Tree>>)
    requires Wf(e) && r < |e.rules| && pos <= |e.text|
    ensures Fits(e, r, pos, res)
    decreases fuel, 2
  {
    SubsInArena(e, r);
    match e.rules[r].kind
    case Terminal(p) => TerminalResult(r, Scan(e.text, pos, p))
    case Sequence(subs) => SeqResult(r, SeqLoop(e, subs, 0, pos, fuel))
    case Choice(subs) => ChoiceResult(r, ChoiceLoop(e, subs, 0, pos, fuel))
    case Repeat(sub, min, max) => RepeatResult(r, min, RepeatLoop(e, sub, max, 0, pos, fuel))
    case AndPredicate(sub) => AndResult(r, Test(e, sub, pos, fuel))
    case NotPredicate(sub) => NotResult(r, Test(e, sub, pos, fuel))
    case ButPredicate(sub) => ButResult(r, ButLoop(e, sub, pos, fuel))
    case _ =>
      match Target(e.gs, e.rules, e.memo, r)
      case Err(err) => Stop(Unresolved(err))
      case Ok(t) => ProxyResult(r, Exec(e, t, pos, fuel))
  }

  /** Sequence#exec's loop from the i-th sub-rule on: every sub-rule must match, in order. */
  function SeqLoop(e: Env, subs: seq<RuleId>, i: nat, pos: nat, fuel: nat): (res: Run<Option<seq<Tree>>>)
    requires Wf(e) && SubsIn(e, subs) && i <= |subs| && pos <= |e.text|
    ensures res.Done? ==> res.reached <= |e.text|
    ensures res.Done? && res.v.Some? ==> |res.v.value| == |subs| - i && pos + SumLens(res.v.value) <= |e.text|
    decreases fuel, 1, |subs| - i
  {
    if i == |subs| then Done(Some([]), 0)
    else
      match Exec(e, subs[i], pos, fuel)
      case Stop(h) => Stop(h)
      case Done(None, m) => Done(None, m)
      case Done(Some(t), m) =>
        match SeqLoop(e, subs, i + 1, pos + t.len, fuel)
        case Stop(h) => Stop(h)
        case Done(None, m2) => Done(None, Max(m, m2))
        case Done(Some(ts), m2) => Done(Some([t] + ts), Max(m, m2))
  }

  /** Choice#exec's loop from the i-th alternative on: the first one that matches wins. */
  function ChoiceLoop(e: Env, subs: seq<RuleId>, i: nat, pos: nat, fuel: nat): (res: Run<Option<Tree>>)
    requires Wf(e) && SubsIn(e, subs) && i <= |subs| && pos <= |e.text|
    ensures res.Done? ==> res.reached <= |e.text|
    ensures res.Done? && res.v.Some? ==> pos + res.v.value.len <= |e.text|
    decreases fuel, 1, |subs| - i
  {
    if i == |subs| then Done(None, 0)
    else
      match Exec(e, subs[i], pos, fuel)
      case Stop(h) => Stop(h)
      case Done(Some(t), m) => Done(Some(t), m)
      case Done(None, m) =>
        match ChoiceLoop(e, subs, i + 1, pos, fuel)
        case Stop(h) => Stop(h)
        case Done(w, m2) => Done(w, Max(m, m2))
  }

  /** The measure of Repeat#exec's loop: the repetitions left, or the text left when unbounded. */
  function RepeatMeasure(max: Bound, n: nat, left: nat): nat
  {
    if max.Finite? then if n <= max.n then max.n - n else 0 else left
  }

  /**
   * Repeat#exec's loop from the n-th repetition on: match the sub-rule while
   * fewer than `max` matched and it keeps matching.  An empty match with no
   * upper bound repeats forever.
   */
  function RepeatLoop(e: Env, sub: RuleId, max: Bound, n: nat, pos: nat, fuel: nat): (res: Run<seq<Tree>>)
    requires Wf(e) && sub < |e.rules| && pos <= |e.text|
    ensures res.Done? ==> res.reached <= |e.text| && pos + SumLens(res.v) <= |e.text|
    decreases fuel, 1, RepeatMeasure(max, n, |e.text| - pos)
  {
    if !Below(n, max) then Done([], 0)
    else
      match Exec(e, sub, pos, fuel)
      case Stop(h) => Stop(h)
      case Done(None, m) => Done([], m)
      case Done(Some(t), m) =>
        if t.len == 0 && max.Infinity? then Stop(Diverges)
        else
          match RepeatLoop(e, sub, max, n + 1, pos + t.len, fuel)
          case Stop(h) => Stop(h)
          case Done(ts, m2) => Done([t] + ts, Max(m, m2))
  }

  /**
   * ButPredicate#exec's loop: until the sub-rule would match, consume one
   * character with DOT_RULE; the result is the number of characters consumed.
   */
  function ButLoop(e: Env, sub: RuleId, pos: nat, fuel: nat): (res: Run<nat>)
    requires Wf(e) && sub < |e.rules| && pos <= |e.text|
    ensures res.Done? ==> res.reached <= |e.text| && pos + res.v <= |e.text|
    decreases fuel, 1, |e.text| - pos
  {
    match Test(e, sub, pos, fuel)
    case Stop(h) => Stop(h)
    case Done(Some(_), m) => Done(0, m)
    case Done(None, m) =>
      match DotStep(e, pos, fuel)
      case Stop(h) => Stop(h)
      case Done(None, m2) => Done(0, Max(m, m2))
      case Done(Some(d), m2) =>
        match ButLoop(e, sub, pos + 1, fuel)
        case Stop(h) => Stop(h)
        case Done(n, m3) => Done(n + 1, Max(m, Max(m2, m3)))
  }

  /** `input.exec(DOT_RULE)`, written out: one character wherever one is left. */
  function DotStep(e: Env, pos: nat, fuel: nat): (res: Run<Option<Tree>>)
    requires pos <= |e.text|
    ensures res.Done? && res.v.Some? ==> pos < |e.text| && res.v.value.len == 1
  {
    if fuel == 0 then Stop(OutOfFuel)
    else if pos < |e.text| then Done(Some(Node(DotRule, [], 1)), pos + 1)
    else Done(None, 0)
  }

  /** `DotStep` is what `Exec` does with DOT_RULE. */
  lemma DotStepIsExec(e: Env, pos: nat, fuel: nat)
    requires Wf(e) && pos <= |e.text|
    ensures Exec(e, DotRule, pos, fuel) == DotStep(e, pos, fuel)
  {
    if fuel > 0 {
      assert e.rules[DotRule].kind == Terminal(AnyChar);
    }
  }

  /** The sub-rules of a rule exist, with smaller ids. */
  lemma SubsInArena(e: Env, r: RuleId)
    requires Wf(e) && r < |e.rules|
    ensures SubsIn(e, Subs(e.rules[r].kind))
    ensures forall k :: 0 <= k < |Subs(e.rules[r].kind)| ==> Subs(e.rules[r].kind)[k] < r
    ensures var k := e.rules[r].kind;
      (k.Repeat? || k.AndPredicate? || k.NotPredicate? || k.ButPredicate?) ==> k.sub < r
  {
    var k := e.rules[r].kind;
    if k.Repeat? || k.AndPredicate? || k.NotPredicate? || k.ButPredicate? {
      assert Subs(k)[0] == k.sub;
    }
  }

  // ---------------------------------------------------------------------
  // More fuel never changes a finished run
  // ---------------------------------------------------------------------

  lemma {:induction false} ExecMono(e: Env, r: RuleId, pos: nat, f: nat, g: nat)
    requires Wf(e) && r < |e.rules| && pos <= |e.text| && f <= g
    ensures Approx(Exec(e, r, pos, f), Exec(e, r, pos, g))
    decreases f, 0
  {
    if f > 0 {
      ApplyMono(e, r, pos, f - 1, g - 1);
    }
  }

  lemma {:induction false} TestMono(e: Env, r: RuleId, pos: nat, f: nat, g: nat)
    requires Wf(e) && r < |e.rules| && pos <= |e.text| && f <= g
    ensures Approx(Test(e, r, pos, f), Test(e, r, pos, g))
    decreases f, 0
  {
    if f > 0 {
      ApplyMono(e, r, pos, f - 1, g - 1);
    }
  }

  lemma {:induction false} ApplyMono(e: Env, r: RuleId, pos: nat, f: nat, g: nat)
    requires Wf(e) && r < |e.rules| && pos <= |e.text| && f <= g
    ensures Approx(Apply(e, r, pos, f), Apply(e, r, pos, g))
    decreases f, 2
  {
    SubsInArena(e, r);
    match e.rules[r].kind
    case Terminal(_) =>
    case Sequence(subs) => SeqLoopMono(e, subs, 0, pos, f, g);
    case Choice(subs) => ChoiceLoopMono(e, subs, 0, pos, f, g);
    case Repeat(sub, _, max) => RepeatLoopMono(e, sub, max, 0, pos, f, g);
    case AndPredicate(sub) => TestMono(e, sub, pos, f, g);
    case NotPredicate(sub) => TestMono(e, sub, pos, f, g);
    case ButPredicate(sub) => ButLoopMono(e, sub, pos, f, g);
    case _ =>
      match Target(e.gs, e.rules, e.memo, r)
      case Err(_) =>
      case Ok(t) => ExecMono(e, t, pos, f, g);
  }

  lemma {:induction false} SeqLoopMono(e: Env, subs: seq<RuleId>, i: nat, pos: nat, f: nat, g: nat)
    requires Wf(e) && SubsIn(e, subs) && i <= |subs| && pos <= |e.text| && f <= g
    ensures Approx(SeqLoop(e, subs, i, pos, f), SeqLoop(e, subs, i, pos, g))
    decreases f, 1, |subs| - i
  {
    if i < |subs| {
      ExecMono(e, subs[i], pos, f, g);
      match Exec(e, subs[i], pos, f)
      case Done(Some(t), _) => SeqLoopMono(e, subs, i + 1, pos + t.len, f, g);
      case _ =>
    }
  }

  lemma {:induction false} ChoiceLoopMono(e: Env, subs: seq<RuleId>, i: nat, pos: nat, f: nat, g: nat)
    requires Wf(e) && SubsIn(e, subs) && i <= |subs| && pos <= |e.text| && f <= g
    ensures Approx(ChoiceLoop(e, subs, i, pos, f), ChoiceLoop(e, subs, i, pos, g))
    decreases f, 1, |subs| - i
  {
    if i < |subs| {
      ExecMono(e, subs[i], pos, f, g);
      match Exec(e, subs[i], pos, f)
      case Done(None, _) => ChoiceLoopMono(e, subs, i + 1, pos, f, g);
      case _ =>
    }
  }

  lemma {:induction false} RepeatLoopMono(e: Env, sub: RuleId, max: Bound, n: nat, pos: nat, f: nat, g: nat)
    requires Wf(e) && sub < |e.rules| && pos <= |e.text| && f <= g
    ensures Approx(RepeatLoop(e, sub, max, n, pos, f), RepeatLoop(e, sub, max, n, pos, g))
    decreases f, 1, RepeatMeasure(max, n, |e.text| - pos)
  {
    if Below(n, max) {
      ExecMono(e, sub, pos, f, g);
      match Exec(e, sub, pos, f)
      case Done(Some(t), _) =>
        if !(t.len == 0 && max.Infinity?) {
          RepeatLoopMono(e, sub, max, n + 1, pos + t.len, f, g);
        }
      case _ =>
    }
  }

  lemma {:induction false} ButLoopMono(e: Env, sub: RuleId, pos: nat, f: nat, g: nat)
    requires Wf(e) && sub < |e.rules| && pos <= |e.text| && f <= g
    ensures Approx(ButLoop(e, sub, pos, f), ButLoop(e, sub, pos, g))
    decreases f, 1, |e.text| - pos
  {
    TestMono(e, sub, pos, f, g);
    match Test(e, sub, pos, f)
    case Done(None, _) =>
      if f > 0 && pos < |e.text| {
        ButLoopMono(e, sub, pos + 1, f, g);
      }
    case _ =>
  }
}
