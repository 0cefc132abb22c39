/**
 * What an imperative run promises about the reference semantics, and how
 * those promises compose, one rule variant at a time.
 *
 * `ApplyOk(e, r, pos, fuel, plain, got, need)` says that `got` is what the
 * rule `r` did at `pos` with budget `fuel`:
 *   - `got` is the reference run unless that one ran out of budget;
 *   - on a plain input (`plain`) it is the reference run, exactly;
 *   - unless `got` itself ran out, the reference run with any budget from
 *     `need` on is `got`.
 * A memoized input answers some calls from its cache, which may hold runs
 * made with more budget than the current call has left; the last clause is
 * what makes those answers sound.
 */
module Agreement {
  import opened Base
  import opened Events
  import opened Rules
  import opened Grammars
  import opened Semantics
  import opened Steps

  ghost predicate ApplyOk(e: Env, r: RuleId, pos: nat, fuel: nat, plain: bool, got: Run<Option<Tree>>, need: nat)
    requires Wf(e) && r < |e.rules| && pos <= |e.text|
  {
    && Approx(Apply(e, r, pos, fuel), got)
    && (plain ==> got == Apply(e, r, pos, fuel))
    && (got == Stop(OutOfFuel) || forall N :: N >= need ==> Apply(e, r, pos, N) == got)
  }

  ghost predicate ExecOk(e: Env, r: RuleId, pos: nat, fuel: nat, plain: bool, got: Run<Option<Tree>>, need: nat)
    requires Wf(e) && r < |e.rules| && pos <= |e.text|
  {
    && Approx(Exec(e, r, pos, fuel), got)
    && (plain ==> got == Exec(e, r, pos, fuel))
    && (got == Stop(OutOfFuel) || forall N :: N >= need ==> Exec(e, r, pos, N) == got)
  }

  ghost predicate TestOk(e: Env, r: RuleId, pos: nat, fuel: nat, plain: bool, got: Run<Option<Tree>>, need: nat)
    requires Wf(e) && r < |e.rules| && pos <= |e.text|
  {
    && Approx(Test(e, r, pos, fuel), got)
    && (plain ==> got == Test(e, r, pos, fuel))
    && (got == Stop(OutOfFuel) || forall N :: N >= need ==> Test(e, r, pos, N) == got)
  }

  /** A finished run is what the reference semantics gives for every budget from `need` on. */
  lemma OkFinished(e: Env, r: RuleId, pos: nat, fuel: nat, plain: bool, got: Run<Option<Tree>>, need: nat)
    requires Wf(e) && r < |e.rules| && pos <= |e.text|
    requires ExecOk(e, r, pos, fuel, plain, got, need) && got.Done?
    ensures got == Exec(e, r, pos, need)
    ensures Fits(e, r, pos, got)
  {
  }

  // ---------------------------------------------------------------------
  // Input#exec, Input#test and the cache
  // ---------------------------------------------------------------------

  lemma ExecOkEmpty(e: Env, r: RuleId, pos: nat, plain: bool)
    requires Wf(e) && r < |e.rules| && pos <= |e.text|
    ensures ExecOk(e, r, pos, 0, plain, Stop(OutOfFuel), 0)
  {
  }

  lemma TestOkEmpty(e: Env, r: RuleId, pos: nat, plain: bool)
    requires Wf(e) && r < |e.rules| && pos <= |e.text|
    ensures TestOk(e, r, pos, 0, plain, Stop(OutOfFuel), 0)
  {
  }

  /** `exec` around `apply_rule`: the same run, its end recorded. */
  lemma ExecOkFrom(e: Env, r: RuleId, pos: nat, fuel: nat, plain: bool, got: Run<Option<Tree>>, need: nat)
    requires Wf(e) && r < |e.rules| && pos <= |e.text| && fuel > 0
    requires ApplyOk(e, r, pos, fuel - 1, plain, got, need)
    ensures ExecOk(e, r, pos, fuel, plain, ExecResult(pos, got), need + 1)
  {
    if ExecResult(pos, got) != Stop(OutOfFuel) {
      forall N | N >= need + 1
        ensures Exec(e, r, pos, N) == ExecResult(pos, got)
      {
        assert Apply(e, r, pos, N - 1) == got;
      }
    }
  }

  /** `test` around `apply_rule`: the same run. */
  lemma TestOkFrom(e: Env, r: RuleId, pos: nat, fuel: nat, plain: bool, got: Run<Option<Tree>>, need: nat)
    requires Wf(e) && r < |e.rules| && pos <= |e.text| && fuel > 0
    requires ApplyOk(e, r, pos, fuel - 1, plain, got, need)
    ensures TestOk(e, r, pos, fuel, plain, got, need + 1)
  {
    if got != Stop(OutOfFuel) {
      forall N | N >= need + 1
        ensures Test(e, r, pos, N) == got
      {
        assert Apply(e, r, pos, N - 1) == got;
      }
    }
  }

  /** A cached run that finished with budget `need` is a sound answer for any budget. */
  lemma ApplyOkCached(e: Env, r: RuleId, pos: nat, fuel: nat, need: nat)
    requires Wf(e) && r < |e.rules| && pos <= |e.text| && Apply(e, r, pos, need).Done?
    ensures ApplyOk(e, r, pos, fuel, false, Apply(e, r, pos, need), need)
  {
    if fuel <= need {
      ApplyMono(e, r, pos, fuel, need);
    } else {
      ApplyMono(e, r, pos, need, fuel);
    }
    forall N | N >= need
      ensures Apply(e, r, pos, N) == Apply(e, r, pos, need)
    {
      ApplyMono(e, r, pos, need, N);
    }
  }

  // ---------------------------------------------------------------------
  // Terminal, the predicates and the proxies
  // ---------------------------------------------------------------------

  lemma TerminalOk(e: Env, r: RuleId, p: Pattern, pos: nat, fuel: nat, plain: bool)
    requires Wf(e) && r < |e.rules| && pos <= |e.text| && e.rules[r].kind == Terminal(p)
    ensures ApplyOk(e, r, pos, fuel, plain, TerminalResult(r, Scan(e.text, pos, p)), 0)
  {
    forall N
      ensures Apply(e, r, pos, N) == TerminalResult(r, Scan(e.text, pos, p))
    {
    }
  }

  lemma AndOk(e: Env, r: RuleId, sub: RuleId, pos: nat, fuel: nat, plain: bool, g: Run<Option<Tree>>, need: nat)
    requires Wf(e) && r < |e.rules| && pos <= |e.text| && e.rules[r].kind == AndPredicate(sub)
    requires sub < |e.rules| && TestOk(e, sub, pos, fuel, plain, g, need)
    ensures ApplyOk(e, r, pos, fuel, plain, AndResult(r, g), need)
  {
    if AndResult(r, g) != Stop(OutOfFuel) {
      forall N | N >= need
        ensures Apply(e, r, pos, N) == AndResult(r, g)
      {
        assert Test(e, sub, pos, N) == g;
      }
    }
  }

  lemma NotOk(e: Env, r: RuleId, sub: RuleId, pos: nat, fuel: nat, plain: bool, g: Run<Option<Tree>>, need: nat)
    requires Wf(e) && r < |e.rules| && pos <= |e.text| && e.rules[r].kind == NotPredicate(sub)
    requires sub < |e.rules| && TestOk(e, sub, pos, fuel, plain, g, need)
    ensures ApplyOk(e, r, pos, fuel, plain, NotResult(r, g), need)
  {
    if NotResult(r, g) != Stop(OutOfFuel) {
      forall N | N >= need
        ensures Apply(e, r, pos, N) == NotResult(r, g)
      {
        assert Test(e, sub, pos, N) == g;
      }
    }
  }

  lemma ProxyUnresolvedOk(e: Env, r: RuleId, pos: nat, fuel: nat, plain: bool, err: ConfigError)
    requires Wf(e) && r < |e.rules| && pos <= |e.text| && e.rules[r].kind.IsProxy()
    requires Target(e.gs, e.rules, e.memo, r) == Err(err)
    ensures ApplyOk(e, r, pos, fuel, plain, Stop(Unresolved(err)), 0)
  {
    forall N
      ensures Apply(e, r, pos, N) == Stop(Unresolved(err))
    {
    }
  }

  lemma ProxyOk(e: Env, r: RuleId, t: RuleId, pos: nat, fuel: nat, plain: bool, g: Run<Option<Tree>>, need: nat)
    requires Wf(e) && r < |e.rules| && pos <= |e.text| && e.rules[r].kind.IsProxy()
    requires Target(e.gs, e.rules, e.memo, r) == Ok(t) && t < |e.rules|
    requires ExecOk(e, t, pos, fuel, plain, g, need)
    ensures ApplyOk(e, r, pos, fuel, plain, ProxyResult(r, g), need)
  {
    if ProxyResult(r, g) != Stop(OutOfFuel) {
      forall N | N >= need
        ensures Apply(e, r, pos, N) == ProxyResult(r, g)
      {
        assert Exec(e, t, pos, N) == g;
      }
    }
  }

  // ---------------------------------------------------------------------
  // Sequence
  // ---------------------------------------------------------------------

  /**
   * The loop of Sequence#exec after `n` sub-rules matched: with the
   * current budget the whole loop is the prefix followed by the rest
   * (`exact`), or the whole loop already ran out of budget; and with every
   * budget from `need` on it is the prefix followed by the rest.
   */
  ghost predicate SeqInv(e: Env, r: RuleId, subs: seq<RuleId>, pos0: nat, pos: nat, n: nat, kids: seq<Tree>, m: nat,
                         fuel: nat, exact: bool, plain: bool, need: nat)
    requires Wf(e) && r < |e.rules| && SubsIn(e, subs) && n <= |subs| && pos0 <= |e.text| && pos <= |e.text|
  {
    && (exact ==> SeqAt(e, subs, pos0, pos, n, kids, m, fuel))
    && (!exact ==> Apply(e, r, pos0, fuel) == Stop(OutOfFuel))
    && (plain ==> exact)
    && (forall N :: N >= need ==> SeqAt(e, subs, pos0, pos, n, kids, m, N))
  }

  lemma SeqInvStart(e: Env, r: RuleId, subs: seq<RuleId>, pos0: nat, fuel: nat, plain: bool)
    requires Wf(e) && r < |e.rules| && SubsIn(e, subs) && pos0 <= |e.text|
    ensures SeqInv(e, r, subs, pos0, pos0, 0, [], 0, fuel, true, plain, 0)
  {
    forall N ensures SeqAt(e, subs, pos0, pos0, 0, [], 0, N) {
      SeqStart(e, subs, pos0, N);
    }
  }

  /** The sub-rule stopped, so the Sequence stops. */
  lemma SeqInvStop(e: Env, r: RuleId, subs: seq<RuleId>, pos0: nat, pos: nat, n: nat, kids: seq<Tree>, m: nat,
                   fuel: nat, exact: bool, plain: bool, need: nat, g: Run<Option<Tree>>, nd: nat)
    requires Wf(e) && r < |e.rules| && e.rules[r].kind == Sequence(subs) && SubsIn(e, subs)
    requires n < |subs| && pos0 <= |e.text| && pos <= |e.text|
    requires SeqInv(e, r, subs, pos0, pos, n, kids, m, fuel, exact, plain, need)
    requires ExecOk(e, subs[n], pos, fuel, plain, g, nd) && g.Stop?
    ensures ApplyOk(e, r, pos0, fuel, plain, Stop(g.why), Max(need, nd))
  {
    if exact {
      SeqStep(e, subs, pos0, pos, n, kids, m, fuel);
    }
    if g != Stop(OutOfFuel) {
      forall N | N >= Max(need, nd)
        ensures Apply(e, r, pos0, N) == g
      {
        assert Exec(e, subs[n], pos, N) == g;
        SeqStep(e, subs, pos0, pos, n, kids, m, N);
      }
    }
  }

  /** The sub-rule failed, so the Sequence fails. */
  lemma SeqInvFail(e: Env, r: RuleId, subs: seq<RuleId>, pos0: nat, pos: nat, n: nat, kids: seq<Tree>, m: nat,
                   fuel: nat, exact: bool, plain: bool, need: nat, g: Run<Option<Tree>>, nd: nat)
    requires Wf(e) && r < |e.rules| && e.rules[r].kind == Sequence(subs) && SubsIn(e, subs)
    requires n < |subs| && pos0 <= |e.text| && pos <= |e.text|
    requires SeqInv(e, r, subs, pos0, pos, n, kids, m, fuel, exact, plain, need)
    requires ExecOk(e, subs[n], pos, fuel, plain, g, nd) && g.Done? && g.v.None?
    ensures ApplyOk(e, r, pos0, fuel, plain, Done(None, Max(m, g.reached)), Max(need, nd))
  {
    if exact {
      SeqStep(e, subs, pos0, pos, n, kids, m, fuel);
    }
    forall N | N >= Max(need, nd)
      ensures Apply(e, r, pos0, N) == Done(None, Max(m, g.reached))
    {
      assert Exec(e, subs[n], pos, N) == g;
      SeqStep(e, subs, pos0, pos, n, kids, m, N);
    }
  }

  /** The sub-rule matched `t`; the Sequence goes on after it. */
  lemma SeqInvNext(e: Env, r: RuleId, subs: seq<RuleId>, pos0: nat, pos: nat, n: nat, kids: seq<Tree>, m: nat,
                   fuel: nat, exact: bool, plain: bool, need: nat, g: Run<Option<Tree>>, nd: nat)
    requires Wf(e) && r < |e.rules| && e.rules[r].kind == Sequence(subs) && SubsIn(e, subs)
    requires n < |subs| && pos0 <= |e.text| && pos <= |e.text|
    requires SeqInv(e, r, subs, pos0, pos, n, kids, m, fuel, exact, plain, need)
    requires ExecOk(e, subs[n], pos, fuel, plain, g, nd) && g.Done? && g.v.Some?
    ensures pos + g.v.value.len <= |e.text|
    ensures SeqInv(e, r, subs, pos0, pos + g.v.value.len, n + 1, kids + [g.v.value], Max(m, g.reached),
                   fuel, exact && Exec(e, subs[n], pos, fuel) == g, plain, Max(need, nd))
  {
    OkFinished(e, subs[n], pos, fuel, plain, g, nd);
    if exact {
      SeqStep(e, subs, pos0, pos, n, kids, m, fuel);
    }
    var t := g.v.value;
    var pos', n', kids', m', need' := pos + t.len, n + 1, kids + [t], Max(m, g.reached), Max(need, nd);
    forall N | N >= need'
      ensures SeqAt(e, subs, pos0, pos', n', kids', m', N)
    {
      assert Exec(e, subs[n], pos, N) == g;
      SeqStep(e, subs, pos0, pos, n, kids, m, N);
    }
  }

  lemma SeqInvEnd(e: Env, r: RuleId, subs: seq<RuleId>, pos0: nat, pos: nat, kids: seq<Tree>, m: nat,
                  fuel: nat, exact: bool, plain: bool, need: nat)
    requires Wf(e) && r < |e.rules| && e.rules[r].kind == Sequence(subs) && SubsIn(e, subs)
    requires pos0 <= |e.text| && pos <= |e.text|
    requires SeqInv(e, r, subs, pos0, pos, |subs|, kids, m, fuel, exact, plain, need)
    ensures ApplyOk(e, r, pos0, fuel, plain, Done(Some(Node(r, kids, SumLens(kids))), m), need)
  {
    if exact {
      SeqEnd(e, subs, pos0, pos, kids, m, fuel);
    }
    forall N | N >= need
      ensures SeqLoop(e, subs, 0, pos0, N) == Done(Some(kids), m)
    {
      SeqEnd(e, subs, pos0, pos, kids, m, N);
    }
  }

  // ---------------------------------------------------------------------
  // Choice
  // ---------------------------------------------------------------------

  /** The loop of Choice#exec after `n` alternatives failed, furthest reach `m`. */
  ghost predicate ChoiceInv(e: Env, r: RuleId, subs: seq<RuleId>, pos: nat, n: nat, m: nat,
                            fuel: nat, exact: bool, plain: bool, need: nat)
    requires Wf(e) && r < |e.rules| && SubsIn(e, subs) && n <= |subs| && pos <= |e.text|
  {
    && (exact ==> ChoiceAt(e, subs, pos, n, m, fuel))
    && (!exact ==> Apply(e, r, pos, fuel) == Stop(OutOfFuel))
    && (plain ==> exact)
    && (forall N :: N >= need ==> ChoiceAt(e, subs, pos, n, m, N))
  }

  lemma ChoiceInvStart(e: Env, r: RuleId, subs: seq<RuleId>, pos: nat, fuel: nat, plain: bool)
    requires Wf(e) && r < |e.rules| && SubsIn(e, subs) && pos <= |e.text|
    ensures ChoiceInv(e, r, subs, pos, 0, 0, fuel, true, plain, 0)
  {
    forall N ensures ChoiceAt(e, subs, pos, 0, 0, N) {
      ChoiceStart(e, subs, pos, N);
    }
  }

  lemma ChoiceInvStop(e: Env, r: RuleId, subs: seq<RuleId>, pos: nat, n: nat, m: nat,
                      fuel: nat, exact: bool, plain: bool, need: nat, g: Run<Option<Tree>>, nd: nat)
    requires Wf(e) && r < |e.rules| && e.rules[r].kind == Choice(subs) && SubsIn(e, subs)
    requires n < |subs| && pos <= |e.text|
    requires ChoiceInv(e, r, subs, pos, n, m, fuel, exact, plain, need)
    requires ExecOk(e, subs[n], pos, fuel, plain, g, nd) && g.Stop?
    ensures ApplyOk(e, r, pos, fuel, plain, Stop(g.why), Max(need, nd))
  {
    if exact {
      ChoiceStep(e, subs, pos, n, m, fuel);
    }
    if g != Stop(OutOfFuel) {
      forall N | N >= Max(need, nd)
        ensures Apply(e, r, pos, N) == g
      {
        assert Exec(e, subs[n], pos, N) == g;
        ChoiceStep(e, subs, pos, n, m, N);
      }
    }
  }

  /** The n-th alternative matched: it is the Choice's only child. */
  lemma ChoiceInvWin(e: Env, r: RuleId, subs: seq<RuleId>, pos: nat, n: nat, m: nat,
                     fuel: nat, exact: bool, plain: bool, need: nat, g: Run<Option<Tree>>, nd: nat)
    requires Wf(e) && r < |e.rules| && e.rules[r].kind == Choice(subs) && SubsIn(e, subs)
    requires n < |subs| && pos <= |e.text|
    requires ChoiceInv(e, r, subs, pos, n, m, fuel, exact, plain, need)
    requires ExecOk(e, subs[n], pos, fuel, plain, g, nd) && g.Done? && g.v.Some?
    ensures ApplyOk(e, r, pos, fuel, plain, Done(Some(Node(r, [g.v.value], g.v.value.len)), Max(m, g.reached)), Max(need, nd))
  {
    if exact {
      ChoiceStep(e, subs, pos, n, m, fuel);
    }
    var res := Done(Some(Node(r, [g.v.value], g.v.value.len)), Max(m, g.reached));
    forall N | N >= Max(need, nd)
      ensures Apply(e, r, pos, N) == res
    {
      assert Exec(e, subs[n], pos, N) == g;
      ChoiceStep(e, subs, pos, n, m, N);
    }
  }

  lemma ChoiceInvNext(e: Env, r: RuleId, subs: seq<RuleId>, pos: nat, n: nat, m: nat,
                      fuel: nat, exact: bool, plain: bool, need: nat, g: Run<Option<Tree>>, nd: nat)
    requires Wf(e) && r < |e.rules| && e.rules[r].kind == Choice(subs) && SubsIn(e, subs)
    requires n < |subs| && pos <= |e.text|
    requires ChoiceInv(e, r, subs, pos, n, m, fuel, exact, plain, need)
    requires ExecOk(e, subs[n], pos, fuel, plain, g, nd) && g.Done? && g.v.None?
    ensures ChoiceInv(e, r, subs, pos, n + 1, Max(m, g.reached), fuel, exact && Exec(e, subs[n], pos, fuel) == g, plain, Max(need, nd))
  {
    if exact {
      ChoiceStep(e, subs, pos, n, m, fuel);
    }
    var n', m', need' := n + 1, Max(m, g.reached), Max(need, nd);
    forall N | N >= need'
      ensures ChoiceAt(e, subs, pos, n', m', N)
    {
      assert Exec(e, subs[n], pos, N) == g;
      ChoiceStep(e, subs, pos, n, m, N);
    }
  }

  lemma ChoiceInvEnd(e: Env, r: RuleId, subs: seq<RuleId>, pos: nat, m: nat,
                     fuel: nat, exact: bool, plain: bool, need: nat)
    requires Wf(e) && r < |e.rules| && e.rules[r].kind == Choice(subs) && SubsIn(e, subs) && pos <= |e.text|
    requires ChoiceInv(e, r, subs, pos, |subs|, m, fuel, exact, plain, need)
    ensures ApplyOk(e, r, pos, fuel, plain, Done(None, m), need)
  {
    if exact {
      ChoiceEnd(e, subs, pos, m, fuel);
    }
    forall N | N >= need
      ensures ChoiceLoop(e, subs, 0, pos, N) == Done(None, m)
    {
      ChoiceEnd(e, subs, pos, m, N);
    }
  }

  // ---------------------------------------------------------------------
  // Repeat
  // ---------------------------------------------------------------------

  /** The loop of Repeat#exec after `n` repetitions matched `kids`. */
  ghost predicate RepInv(e: Env, r: RuleId, sub: RuleId, max: Bound, pos0: nat, pos: nat, n: nat, kids: seq<Tree>, m: nat,
                         fuel: nat, exact: bool, plain: bool, need: nat)
    requires Wf(e) && r < |e.rules| && sub < |e.rules| && pos0 <= |e.text| && pos <= |e.text|
  {
    && (exact ==> RepAt(e, sub, max, pos0, pos, n, kids, m, fuel))
    && (!exact ==> Apply(e, r, pos0, fuel) == Stop(OutOfFuel))
    && (plain ==> exact)
    && (forall N :: N >= need ==> RepAt(e, sub, max, pos0, pos, n, kids, m, N))
  }

  lemma RepInvStart(e: Env, r: RuleId, sub: RuleId, max: Bound, pos0: nat, fuel: nat, plain: bool)
    requires Wf(e) && r < |e.rules| && sub < |e.rules| && pos0 <= |e.text|
    ensures RepInv(e, r, sub, max, pos0, pos0, 0, [], 0, fuel, true, plain, 0)
  {
    forall N ensures RepAt(e, sub, max, pos0, pos0, 0, [], 0, N) {
      RepStart(e, sub, max, pos0, N);
    }
  }

  lemma RepInvStop(e: Env, r: RuleId, sub: RuleId, min: nat, max: Bound, pos0: nat, pos: nat, n: nat, kids: seq<Tree>, m: nat,
                   fuel: nat, exact: bool, plain: bool, need: nat, g: Run<Option<Tree>>, nd: nat)
    requires Wf(e) && r < |e.rules| && e.rules[r].kind == Repeat(sub, min, max) && sub < |e.rules|
    requires pos0 <= |e.text| && pos <= |e.text| && Below(n, max)
    requires RepInv(e, r, sub, max, pos0, pos, n, kids, m, fuel, exact, plain, need)
    requires ExecOk(e, sub, pos, fuel, plain, g, nd) && g.Stop?
    ensures ApplyOk(e, r, pos0, fuel, plain, Stop(g.why), Max(need, nd))
  {
    if exact {
      RepStep(e, sub, max, pos0, pos, n, kids, m, fuel);
    }
    if g != Stop(OutOfFuel) {
      forall N | N >= Max(need, nd)
        ensures Apply(e, r, pos0, N) == g
      {
        assert Exec(e, sub, pos, N) == g;
        RepStep(e, sub, max, pos0, pos, n, kids, m, N);
      }
    }
  }

  /** The sub-rule failed: the repetitions so far are all there are. */
  lemma RepInvFail(e: Env, r: RuleId, sub: RuleId, min: nat, max: Bound, pos0: nat, pos: nat, n: nat, kids: seq<Tree>, m: nat,
                   fuel: nat, exact: bool, plain: bool, need: nat, g: Run<Option<Tree>>, nd: nat)
    requires Wf(e) && r < |e.rules| && e.rules[r].kind == Repeat(sub, min, max) && sub < |e.rules|
    requires pos0 <= |e.text| && pos <= |e.text| && Below(n, max)
    requires RepInv(e, r, sub, max, pos0, pos, n, kids, m, fuel, exact, plain, need)
    requires ExecOk(e, sub, pos, fuel, plain, g, nd) && g.Done? && g.v.None?
    ensures ApplyOk(e, r, pos0, fuel, plain, RepeatResult(r, min, Done(kids, Max(m, g.reached))), Max(need, nd))
  {
    if exact {
      RepStep(e, sub, max, pos0, pos, n, kids, m, fuel);
    }
    var m' := Max(m, g.reached);
    forall N | N >= Max(need, nd)
      ensures RepeatLoop(e, sub, max, 0, pos0, N) == Done(kids, m')
    {
      assert Exec(e, sub, pos, N) == g;
      RepStep(e, sub, max, pos0, pos, n, kids, m, N);
    }
  }

  /** An empty match with no upper bound: the source repeats it forever. */
  lemma RepInvDiverge(e: Env, r: RuleId, sub: RuleId, min: nat, max: Bound, pos0: nat, pos: nat, n: nat, kids: seq<Tree>, m: nat,
                      fuel: nat, exact: bool, plain: bool, need: nat, g: Run<Option<Tree>>, nd: nat)
    requires Wf(e) && r < |e.rules| && e.rules[r].kind == Repeat(sub, min, max) && sub < |e.rules|
    requires pos0 <= |e.text| && pos <= |e.text| && Below(n, max)
    requires RepInv(e, r, sub, max, pos0, pos, n, kids, m, fuel, exact, plain, need)
    requires ExecOk(e, sub, pos, fuel, plain, g, nd) && g.Done? && g.v.Some?
    requires g.v.value.len == 0 && max.Infinity?
    ensures ApplyOk(e, r, pos0, fuel, plain, Stop(Diverges), Max(need, nd))
  {
    if exact {
      RepStep(e, sub, max, pos0, pos, n, kids, m, fuel);
    }
    forall N | N >= Max(need, nd)
      ensures Apply(e, r, pos0, N) == Stop(Diverges)
    {
      assert Exec(e, sub, pos, N) == g;
      RepStep(e, sub, max, pos0, pos, n, kids, m, N);
    }
  }

  lemma RepInvNext(e: Env, r: RuleId, sub: RuleId, min: nat, max: Bound, pos0: nat, pos: nat, n: nat, kids: seq<Tree>, m: nat,
                   fuel: nat, exact: bool, plain: bool, need: nat, g: Run<Option<Tree>>, nd: nat)
    requires Wf(e) && r < |e.rules| && e.rules[r].kind == Repeat(sub, min, max) && sub < |e.rules|
    requires pos0 <= |e.text| && pos <= |e.text| && Below(n, max)
    requires RepInv(e, r, sub, max, pos0, pos, n, kids, m, fuel, exact, plain, need)
    requires ExecOk(e, sub, pos, fuel, plain, g, nd) && g.Done? && g.v.Some?
    requires !(g.v.value.len == 0 && max.Infinity?)
    ensures pos + g.v.value.len <= |e.text|
    ensures RepInv(e, r, sub, max, pos0, pos + g.v.value.len, n + 1, kids + [g.v.value], Max(m, g.reached),
                   fuel, exact && Exec(e, sub, pos, fuel) == g, plain, Max(need, nd))
  {
    OkFinished(e, sub, pos, fuel, plain, g, nd);
    if exact {
      RepStep(e, sub, max, pos0, pos, n, kids, m, fuel);
    }
    var t := g.v.value;
    var pos', n', kids', m', need' := pos + t.len, n + 1, kids + [t], Max(m, g.reached), Max(need, nd);
    forall N | N >= need'
      ensures RepAt(e, sub, max, pos0, pos', n', kids', m', N)
    {
      assert Exec(e, sub, pos, N) == g;
      RepStep(e, sub, max, pos0, pos, n, kids, m, N);
    }
  }

  /** `max` repetitions matched. */
  lemma RepInvEnd(e: Env, r: RuleId, sub: RuleId, min: nat, max: Bound, pos0: nat, pos: nat, n: nat, kids: seq<Tree>, m: nat,
                  fuel: nat, exact: bool, plain: bool, need: nat)
    requires Wf(e) && r < |e.rules| && e.rules[r].kind == Repeat(sub, min, max) && sub < |e.rules|
    requires pos0 <= |e.text| && pos <= |e.text| && !Below(n, max)
    requires RepInv(e, r, sub, max, pos0, pos, n, kids, m, fuel, exact, plain, need)
    ensures ApplyOk(e, r, pos0, fuel, plain, RepeatResult(r, min, Done(kids, m)), need)
  {
    if exact {
      RepEnd(e, sub, max, pos0, pos, n, kids, m, fuel);
    }
    forall N | N >= need
      ensures RepeatLoop(e, sub, max, 0, pos0, N) == Done(kids, m)
    {
      RepEnd(e, sub, max, pos0, pos, n, kids, m, N);
    }
  }

  // ---------------------------------------------------------------------
  // ButPredicate
  // ---------------------------------------------------------------------

  /** The loop of ButPredicate#exec after `n` characters were consumed. */
  ghost predicate ButInv(e: Env, r: RuleId, sub: RuleId, pos0: nat, pos: nat, n: nat, m: nat,
                         fuel: nat, exact: bool, plain: bool, need: nat)
    requires Wf(e) && r < |e.rules| && sub < |e.rules| && pos0 <= |e.text| && pos <= |e.text|
  {
    && (exact ==> ButAt(e, sub, pos0, pos, n, m, fuel))
    && (!exact ==> Apply(e, r, pos0, fuel) == Stop(OutOfFuel))
    && (plain ==> exact)
    && (forall N :: N >= need ==> ButAt(e, sub, pos0, pos, n, m, N))
  }

  lemma ButInvStart(e: Env, r: RuleId, sub: RuleId, pos0: nat, fuel: nat, plain: bool)
    requires Wf(e) && r < |e.rules| && sub < |e.rules| && pos0 <= |e.text|
    ensures ButInv(e, r, sub, pos0, pos0, 0, 0, fuel, true, plain, 0)
  {
    forall N ensures ButAt(e, sub, pos0, pos0, 0, 0, N) {
      ButStart(e, sub, pos0, N);
    }
  }

  lemma ButInvStop(e: Env, r: RuleId, sub: RuleId, pos0: nat, pos: nat, n: nat, m: nat,
                   fuel: nat, exact: bool, plain: bool, need: nat, c: Run<Option<Tree>>, nc: nat)
    requires Wf(e) && r < |e.rules| && e.rules[r].kind == ButPredicate(sub) && sub < |e.rules|
    requires pos0 <= |e.text| && pos <= |e.text|
    requires ButInv(e, r, sub, pos0, pos, n, m, fuel, exact, plain, need)
    requires TestOk(e, sub, pos, fuel, plain, c, nc) && c.Stop?
    ensures ApplyOk(e, r, pos0, fuel, plain, Stop(c.why), Max(need, nc))
  {
    if exact {
      ButStep(e, sub, pos0, pos, n, m, fuel);
    }
    if c != Stop(OutOfFuel) {
      forall N | N >= Max(need, nc)
        ensures Apply(e, r, pos0, N) == c
      {
        assert Test(e, sub, pos, N) == c;
        ButStep(e, sub, pos0, pos, n, m, N);
      }
    }
  }

  /** The sub-rule matches here: the characters consumed so far are the result. */
  lemma ButInvMatch(e: Env, r: RuleId, sub: RuleId, pos0: nat, pos: nat, n: nat, m: nat,
                    fuel: nat, exact: bool, plain: bool, need: nat, c: Run<Option<Tree>>, nc: nat)
    requires Wf(e) && r < |e.rules| && e.rules[r].kind == ButPredicate(sub) && sub < |e.rules|
    requires pos0 <= |e.text| && pos <= |e.text|
    requires ButInv(e, r, sub, pos0, pos, n, m, fuel, exact, plain, need)
    requires TestOk(e, sub, pos, fuel, plain, c, nc) && c.Done? && c.v.Some?
    ensures ApplyOk(e, r, pos0, fuel, plain, ButResult(r, Done(n, Max(m, c.reached))), Max(need, nc))
  {
    if exact {
      ButStep(e, sub, pos0, pos, n, m, fuel);
    }
    var m' := Max(m, c.reached);
    forall N | N >= Max(need, nc)
      ensures ButLoop(e, sub, pos0, N) == Done(n, m')
    {
      assert Test(e, sub, pos, N) == c;
      ButStep(e, sub, pos0, pos, n, m, N);
    }
  }

  lemma ButInvDotStop(e: Env, r: RuleId, sub: RuleId, pos0: nat, pos: nat, n: nat, m: nat,
                      fuel: nat, exact: bool, plain: bool, need: nat, c: Run<Option<Tree>>, nc: nat, d: Run<Option<Tree>>, nd: nat)
    requires Wf(e) && r < |e.rules| && e.rules[r].kind == ButPredicate(sub) && sub < |e.rules|
    requires pos0 <= |e.text| && pos <= |e.text|
    requires ButInv(e, r, sub, pos0, pos, n, m, fuel, exact, plain, need)
    requires TestOk(e, sub, pos, fuel, plain, c, nc) && c.Done? && c.v.None?
    requires ExecOk(e, DotRule, pos, fuel, plain, d, nd) && d.Stop?
    ensures ApplyOk(e, r, pos0, fuel, plain, Stop(d.why), Max(Max(need, nc), nd))
  {
    DotStepIsExec(e, pos, fuel);
    if exact {
      ButStep(e, sub, pos0, pos, n, m, fuel);
    }
    if d != Stop(OutOfFuel) {
      forall N | N >= Max(Max(need, nc), nd)
        ensures Apply(e, r, pos0, N) == d
      {
        assert Test(e, sub, pos, N) == c;
        assert Exec(e, DotRule, pos, N) == d;
        DotStepIsExec(e, pos, N);
        ButStep(e, sub, pos0, pos, n, m, N);
      }
    }
  }

  /** No character is left to consume. */
  lemma ButInvDotFail(e: Env, r: RuleId, sub: RuleId, pos0: nat, pos: nat, n: nat, m: nat,
                      fuel: nat, exact: bool, plain: bool, need: nat, c: Run<Option<Tree>>, nc: nat, d: Run<Option<Tree>>, nd: nat)
    requires Wf(e) && r < |e.rules| && e.rules[r].kind == ButPredicate(sub) && sub < |e.rules|
    requires pos0 <= |e.text| && pos <= |e.text|
    requires ButInv(e, r, sub, pos0, pos, n, m, fuel, exact, plain, need)
    requires TestOk(e, sub, pos, fuel, plain, c, nc) && c.Done? && c.v.None?
    requires ExecOk(e, DotRule, pos, fuel, plain, d, nd) && d.Done? && d.v.None?
    ensures ApplyOk(e, r, pos0, fuel, plain, ButResult(r, Done(n, Max(m, Max(c.reached, d.reached)))), Max(Max(need, nc), nd))
  {
    DotStepIsExec(e, pos, fuel);
    if exact {
      ButStep(e, sub, pos0, pos, n, m, fuel);
    }
    var m' := Max(m, Max(c.reached, d.reached));
    forall N | N >= Max(Max(need, nc), nd)
      ensures ButLoop(e, sub, pos0, N) == Done(n, m')
    {
      assert Test(e, sub, pos, N) == c;
      assert Exec(e, DotRule, pos, N) == d;
      DotStepIsExec(e, pos, N);
      ButStep(e, sub, pos0, pos, n, m, N);
    }
  }

  /** One more character consumed. */
  lemma ButInvDotNext(e: Env, r: RuleId, sub: RuleId, pos0: nat, pos: nat, n: nat, m: nat,
                      fuel: nat, exact: bool, plain: bool, need: nat, c: Run<Option<Tree>>, nc: nat, d: Run<Option<Tree>>, nd: nat)
    requires Wf(e) && r < |e.rules| && e.rules[r].kind == ButPredicate(sub) && sub < |e.rules|
    requires pos0 <= |e.text| && pos <= |e.text|
    requires ButInv(e, r, sub, pos0, pos, n, m, fuel, exact, plain, need)
    requires TestOk(e, sub, pos, fuel, plain, c, nc) && c.Done? && c.v.None?
    requires ExecOk(e, DotRule, pos, fuel, plain, d, nd) && d.Done? && d.v.Some?
    ensures d.v.value.len == 1 && pos + 1 <= |e.text|
    ensures ButInv(e, r, sub, pos0, pos + 1, n + 1, Max(m, Max(c.reached, d.reached)), fuel,
                   exact && Test(e, sub, pos, fuel) == c && Exec(e, DotRule, pos, fuel) == d, plain, Max(Max(need, nc), nd))
  {
    OkFinished(e, DotRule, pos, fuel, plain, d, nd);
    DotStepIsExec(e, pos, nd);
    DotStepIsExec(e, pos, fuel);
    if exact {
      ButStep(e, sub, pos0, pos, n, m, fuel);
    }
    var pos', n', m', need' := pos + 1, n + 1, Max(m, Max(c.reached, d.reached)), Max(Max(need, nc), nd);
    forall N | N >= need'
      ensures ButAt(e, sub, pos0, pos', n', m', N)
    {
      assert Test(e, sub, pos, N) == c;
      assert Exec(e, DotRule, pos, N) == d;
      DotStepIsExec(e, pos, N);
      ButStep(e, sub, pos0, pos, n, m, N);
    }
  }

  // ---------------------------------------------------------------------
  // The packrat cache changes no result (memoized_input.rb:1-6)
  // ---------------------------------------------------------------------

  /**
   * Two runs of the same rule at the same position that both finish agree,
   * whatever their budgets and whichever of them used the cache.
   */
  lemma MemoTransparent(e: Env, r: RuleId, pos: nat, f1: nat, f2: nat, plain1: bool, plain2: bool,
                        g1: Run<Option<Tree>>, g2: Run<Option<Tree>>, n1: nat, n2: nat)
    requires Wf(e) && r < |e.rules| && pos <= |e.text|
    requires ExecOk(e, r, pos, f1, plain1, g1, n1) && ExecOk(e, r, pos, f2, plain2, g2, n2)
    requires g1.Done? && g2.Done?
    ensures g1 == g2
  {
    var n := Max(n1, n2);
    assert Exec(e, r, pos, n) == g1;
    assert Exec(e, r, pos, n) == g2;
  }
}
