/**
 * Grammars: the name -> rule registry of lib/citrus/grammar/grammar_methods.rb,
 * proxy resolution (lib/citrus/grammar/proxy.rb, alias.rb, rules/super.rb) and
 * the rule-building helpers (`rep`, `label`, ...).
 *
 * All grammars and all rules live in one `Registry` object: `grammars[g]` is a
 * grammar module's state and `rules` the arena of every rule object.  Which
 * grammars a grammar includes (Ruby's `included_modules` linearisation) is
 * given when the grammar is made.
 */
module Grammars {
  import opened Base
  import opened Events
  import opened Rules

  type GrammarId = nat

  datatype GrammarData = GrammarData(
    name: string,
    table: map<string, RuleId>,     // `rules`, keyed by rule name
    ruleNames: seq<string>,         // `rule_names`, in declaration order
    root: Option<string>,           // the explicitly set root, `@root`
    included: seq<GrammarId>)       // `included_grammars`, most recently included first

  /**
   * A grammar can only include grammars that already exist, so what it
   * includes has smaller ids; this is what makes lookup terminate.
   */
  predicate ValidGrammars(gs: seq<GrammarData>, nrules: nat)
  {
    forall g :: 0 <= g < |gs| ==>
      && (forall j :: 0 <= j < |gs[g].included| ==> gs[g].included[j] < g)
      && (forall n :: n in gs[g].table ==> gs[g].table[n] < nrules)
      && (forall n :: n in gs[g].table ==> n in gs[g].ruleNames)
  }

  /** `rule(name)` without a definition (grammar_methods.rb:102): own table first, then `super_rule`. */
  function Lookup(gs: seq<GrammarData>, nrules: nat, g: GrammarId, name: string): (r: Option<RuleId>)
    requires ValidGrammars(gs, nrules) && g < |gs|
    ensures r.Some? ==> r.value < nrules
    decreases g, 1
  {
    if name in gs[g].table then Some(gs[g].table[name]) else SuperLookup(gs, nrules, g, name, 0)
  }

  /** `super_rule(name)` (grammar_methods.rb:71-78) from the i-th included grammar on. */
  function SuperLookup(gs: seq<GrammarData>, nrules: nat, g: GrammarId, name: string, i: nat): (r: Option<RuleId>)
    requires ValidGrammars(gs, nrules) && g < |gs| && i <= |gs[g].included|
    ensures r.Some? ==> r.value < nrules
    decreases g, 0, |gs[g].included| - i
  {
    if i == |gs[g].included| then None
    else
      var x := gs[g].included[i];
      match Lookup(gs, nrules, x, name)
      case Some(r) => Some(r)
      case None => SuperLookup(gs, nrules, g, name, i + 1)
  }

  /**
   * `super_rule` answers with the first included grammar, in `included_grammars`
   * order, whose lookup finds the name, and with nothing when none does.
   */
  lemma {:induction false} SuperLookupFirst(gs: seq<GrammarData>, nrules: nat, g: GrammarId, name: string, i: nat)
    requires ValidGrammars(gs, nrules) && g < |gs| && i <= |gs[g].included|
    ensures SuperLookup(gs, nrules, g, name, i).None? <==>
      forall j :: i <= j < |gs[g].included| ==> Lookup(gs, nrules, gs[g].included[j], name).None?
    ensures SuperLookup(gs, nrules, g, name, i).Some? ==>
      exists j :: i <= j < |gs[g].included|
        && Lookup(gs, nrules, gs[g].included[j], name) == SuperLookup(gs, nrules, g, name, i)
        && forall k :: i <= k < j ==> Lookup(gs, nrules, gs[g].included[k], name).None?
    decreases |gs[g].included| - i
  {
    if i < |gs[g].included| {
      SuperLookupFirst(gs, nrules, g, name, i + 1);
      if Lookup(gs, nrules, gs[g].included[i], name).None? {
        if SuperLookup(gs, nrules, g, name, i).Some? {
          var j :| i + 1 <= j < |gs[g].included|
            && Lookup(gs, nrules, gs[g].included[j], name) == SuperLookup(gs, nrules, g, name, i + 1)
            && forall k :: i + 1 <= k < j ==> Lookup(gs, nrules, gs[g].included[k], name).None?;
          assert forall k :: i <= k < j ==> Lookup(gs, nrules, gs[g].included[k], name).None?;
        }
      }
    }
  }

  /** Lookup prefers the grammar's own table and only then searches the included grammars. */
  lemma LookupPrefersOwn(gs: seq<GrammarData>, nrules: nat, g: GrammarId, name: string)
    requires ValidGrammars(gs, nrules) && g < |gs|
    ensures name in gs[g].table ==> Lookup(gs, nrules, g, name) == Some(gs[g].table[name])
    ensures name !in gs[g].table ==> Lookup(gs, nrules, g, name) == SuperLookup(gs, nrules, g, name, 0)
    ensures name !in gs[g].table && gs[g].included == [] ==> Lookup(gs, nrules, g, name).None?
  {
  }

  /** `root` (grammar_methods.rb:110-114): the explicit root, else the first rule name. */
  function Root(gd: GrammarData): (r: Option<string>)
    ensures gd.root.Some? ==> r == gd.root
    ensures gd.root.None? && gd.ruleNames != [] ==> r == Some(gd.ruleNames[0])
    ensures gd.root.None? && gd.ruleNames == [] ==> r.None?
  {
    if gd.root.Some? then gd.root else if gd.ruleNames == [] then None else Some(gd.ruleNames[0])
  }

  // ---------------------------------------------------------------------
  // Proxies
  // ---------------------------------------------------------------------

  /**
   * `resolve!` of an Alias (alias.rb:21-29) or a Super (super.rb:22-31).  An
   * Alias searches its own grammar and, through it, the included ones; a Super
   * searches only the included ones.  A missing rule is a configuration error.
   */
  function Resolve(gs: seq<GrammarData>, rules: seq<RuleNode>, p: RuleId): (r: Result<RuleId, ConfigError>)
    requires ValidGrammars(gs, |rules|) && p < |rules| && rules[p].kind.IsProxy()
    requires rules[p].grammar.Some? ==> rules[p].grammar.value < |gs|
    ensures r.Ok? ==> r.value < |rules|
  {
    match rules[p].grammar
    case None => Err(NoGrammar(rules[p].kind.ruleName))
    case Some(g) =>
      match rules[p].kind
      case Alias(n) =>
        (match Lookup(gs, |rules|, g, n)
         case Some(t) => Ok(t)
         case None => Err(NoRuleInGrammar(n, gs[g].name)))
      case Super(n) =>
        (match SuperLookup(gs, |rules|, g, n, 0)
         case Some(t) => Ok(t)
         case None => Err(NoRuleInHierarchy(n, gs[g].name)))
  }

  /**
   * An Alias resolves to what its grammar's lookup finds and a Super to what
   * `super_rule` finds; when nothing is found the error names the rule and
   * the grammar.
   */
  lemma ResolveAnswers(gs: seq<GrammarData>, rules: seq<RuleNode>, p: RuleId)
    requires ValidGrammars(gs, |rules|) && p < |rules| && rules[p].kind.IsProxy()
    requires rules[p].grammar.Some? ==> rules[p].grammar.value < |gs|
    ensures rules[p].grammar.None? ==> Resolve(gs, rules, p) == Err(NoGrammar(rules[p].kind.ruleName))
    ensures rules[p].grammar.Some? && rules[p].kind.Alias? ==>
      var g := rules[p].grammar.value; var n := rules[p].kind.ruleName; var r := Resolve(gs, rules, p);
      && (r.Ok? <==> Lookup(gs, |rules|, g, n).Some?)
      && (r.Ok? ==> Lookup(gs, |rules|, g, n) == Some(r.value))
      && (r.Err? ==> r == Err(NoRuleInGrammar(n, gs[g].name)))
    ensures rules[p].grammar.Some? && rules[p].kind.Super? ==>
      var g := rules[p].grammar.value; var n := rules[p].kind.ruleName; var r := Resolve(gs, rules, p);
      && (r.Ok? <==> SuperLookup(gs, |rules|, g, n, 0).Some?)
      && (r.Ok? ==> SuperLookup(gs, |rules|, g, n, 0) == Some(r.value))
      && (r.Err? ==> r == Err(NoRuleInHierarchy(n, gs[g].name)))
  {
  }

  /**
   * Changing grammar `d` cannot change a lookup that starts from an older
   * grammar `g`, since inclusion only reaches older grammars still.
   */
  lemma {:induction false} LookupAvoids(gs: seq<GrammarData>, gs': seq<GrammarData>, nrules: nat, g: GrammarId, name: string, d: GrammarId)
    requires ValidGrammars(gs, nrules) && ValidGrammars(gs', nrules) && g < |gs| == |gs'| && d < |gs|
    requires forall h :: 0 <= h < |gs| && h != d ==> gs'[h] == gs[h]
    requires g < d
    ensures Lookup(gs', nrules, g, name) == Lookup(gs, nrules, g, name)
    decreases g, 1
  {
    if name !in gs[g].table {
      SuperLookupAvoids(gs, gs', nrules, g, name, d, 0);
    }
  }

  lemma {:induction false} SuperLookupAvoids(gs: seq<GrammarData>, gs': seq<GrammarData>, nrules: nat, g: GrammarId, name: string, d: GrammarId, i: nat)
    requires ValidGrammars(gs, nrules) && ValidGrammars(gs', nrules) && g < |gs| == |gs'| && d < |gs|
    requires forall h :: 0 <= h < |gs| && h != d ==> gs'[h] == gs[h]
    requires gs'[g].included == gs[g].included && i <= |gs[g].included|
    requires g <= d
    ensures SuperLookup(gs', nrules, g, name, i) == SuperLookup(gs, nrules, g, name, i)
    decreases g, 0, |gs[g].included| - i
  {
    if i < |gs[g].included| {
      var x := gs[g].included[i];
      LookupAvoids(gs, gs', nrules, x, name, d);
      SuperLookupAvoids(gs, gs', nrules, g, name, d, i + 1);
    }
  }

  /**
   * A Super never looks at its own grammar's table: giving that grammar other
   * rules leaves what the Super resolves to unchanged (super.rb:22-31).
   */
  lemma SuperIgnoresOwnTable(gs: seq<GrammarData>, rules: seq<RuleNode>, p: RuleId, own: GrammarData)
    requires ValidGrammars(gs, |rules|) && p < |rules| && rules[p].kind.Super?
    requires rules[p].grammar.Some? && rules[p].grammar.value < |gs|
    requires var g := rules[p].grammar.value;
      own.included == gs[g].included && own.name == gs[g].name && ValidGrammars(gs[g := own], |rules|)
    ensures Resolve(gs[rules[p].grammar.value := own], rules, p) == Resolve(gs, rules, p)
  {
    var g := rules[p].grammar.value;
    SuperLookupAvoids(gs, gs[g := own], |rules|, g, rules[p].kind.ruleName, g, 0);
  }

  /**
   * The target a proxy runs: the memoised `@rule` when it has one, otherwise
   * what `resolve!` finds now (proxy.rb:23-25).
   */
  function Target(gs: seq<GrammarData>, rules: seq<RuleNode>, memo: map<RuleId, RuleId>, p: RuleId): (r: Result<RuleId, ConfigError>)
    requires ValidGrammars(gs, |rules|) && p < |rules| && rules[p].kind.IsProxy()
    requires rules[p].grammar.Some? ==> rules[p].grammar.value < |gs|
    requires forall q :: q in memo ==> memo[q] < |rules|
    ensures r.Ok? ==> r.value < |rules|
    ensures p in memo ==> r == Ok(memo[p])
    ensures p !in memo ==> r == Resolve(gs, rules, p)
  {
    if p in memo then Ok(memo[p]) else Resolve(gs, rules, p)
  }

  /** Every rule's grammar exists, so every proxy can be resolved against it. */
  predicate GrammarsExist(rules: seq<RuleNode>, ngrammars: nat)
  {
    forall i :: 0 <= i < |rules| && rules[i].grammar.Some? ==> rules[i].grammar.value < ngrammars
  }

  predicate MemoValid(rules: seq<RuleNode>, memo: map<RuleId, RuleId>)
  {
    forall q :: q in memo ==> q < |rules| && rules[q].kind.IsProxy() && memo[q] < |rules|
  }

  /** Everything the engine needs to know about the rules of a registry. */
  predicate ValidWorld(gs: seq<GrammarData>, rules: seq<RuleNode>, memo: map<RuleId, RuleId>)
  {
    ValidArena(rules) && ValidGrammars(gs, |rules|) && GrammarsExist(rules, |gs|) && MemoValid(rules, memo)
  }

  /**
   * A rule's own `elide?` and, for a proxy, its target's (proxy.rb:42-44),
   * following at most `depth` proxies; None for a chain that does not end in
   * a resolvable rule.
   */
  function ElideOf(gs: seq<GrammarData>, rules: seq<RuleNode>, memo: map<RuleId, RuleId>, id: RuleId, depth: nat): (r: Option<bool>)
    requires ValidWorld(gs, rules, memo) && id < |rules|
    ensures !rules[id].kind.IsProxy() ==> r == Some(rules[id].kind.Choice?)
    decreases depth
  {
    if !rules[id].kind.IsProxy() then Some(OwnElide(rules[id].kind))
    else if depth == 0 then None
    else
      match Target(gs, rules, memo, id)
      case Err(_) => None
      case Ok(t) => ElideOf(gs, rules, memo, t, depth - 1)
  }

  /** A rule's own extension, as the list of modules `extend_match` applies (rule.rb:165-167). */
  function OwnExtensions(n: RuleNode): seq<Extension>
  {
    if n.extension.Some? then [n.extension.value] else []
  }

  /** `extend_match`: a proxy applies its target's extensions first, then its own (proxy.rb:46-51). */
  function ExtensionsOf(gs: seq<GrammarData>, rules: seq<RuleNode>, memo: map<RuleId, RuleId>, id: RuleId, depth: nat): (r: Option<seq<Extension>>)
    requires ValidWorld(gs, rules, memo) && id < |rules|
    ensures !rules[id].kind.IsProxy() ==> r == Some(OwnExtensions(rules[id]))
    decreases depth
  {
    if !rules[id].kind.IsProxy() then Some(OwnExtensions(rules[id]))
    else if depth == 0 then None
    else
      match Target(gs, rules, memo, id)
      case Err(_) => None
      case Ok(t) =>
        match ExtensionsOf(gs, rules, memo, t, depth - 1)
        case None => None
        case Some(es) => Some(es + OwnExtensions(rules[id]))
  }

  /** A proxy's answers are its target's, with the proxy's own extension last. */
  lemma ProxyDelegates(gs: seq<GrammarData>, rules: seq<RuleNode>, memo: map<RuleId, RuleId>, p: RuleId, depth: nat)
    requires ValidWorld(gs, rules, memo) && p < |rules| && rules[p].kind.IsProxy() && depth > 0
    requires Target(gs, rules, memo, p).Ok?
    ensures var t := Target(gs, rules, memo, p).value;
      && ElideOf(gs, rules, memo, p, depth) == ElideOf(gs, rules, memo, t, depth - 1)
      && (ExtensionsOf(gs, rules, memo, t, depth - 1).Some? ==>
            ExtensionsOf(gs, rules, memo, p, depth) == Some(ExtensionsOf(gs, rules, memo, t, depth - 1).value + OwnExtensions(rules[p])))
  {
  }

  // ---------------------------------------------------------------------
  // Walks over a rule and its descendants (setup_super, grammar=)
  // ---------------------------------------------------------------------

  /** A rule and everything reachable from it through nonterminal sub-rules. */
  function Descendants(rules: seq<RuleNode>, id: RuleId): (d: set<RuleId>)
    requires ValidArena(rules) && id < |rules|
    ensures id in d && forall x :: x in d ==> x <= id
    decreases id, 1
  {
    {id} + DescendantsOf(rules, id, Subs(rules[id].kind))
  }

  function DescendantsOf(rules: seq<RuleNode>, parent: RuleId, subs: seq<RuleId>): (d: set<RuleId>)
    requires ValidArena(rules) && parent < |rules| && forall k :: 0 <= k < |subs| ==> subs[k] < parent
    ensures forall x :: x in d ==> x < parent
    decreases parent, 0, |subs|
  {
    if subs == [] then {}
    else
      Descendants(rules, subs[0]) + DescendantsOf(rules, parent, subs[1..])
  }

  /**
   * Two arenas whose rules have the same sub-rules and the same kind of
   * variant; renaming a Super or regrouping a rule keeps the shape.
   */
  predicate SameShape(a: seq<RuleNode>, b: seq<RuleNode>)
  {
    && |a| == |b|
    && forall i :: 0 <= i < |a| ==>
         && Subs(a[i].kind) == Subs(b[i].kind)
         && a[i].kind.IsProxy() == b[i].kind.IsProxy()
         && (!a[i].kind.Super? ==> a[i].kind == b[i].kind)
  }

  lemma SameShapeArena(a: seq<RuleNode>, b: seq<RuleNode>)
    requires ValidArena(a) && SameShape(a, b)
    ensures ValidArena(b)
  {
    assert b[DotRule].kind == a[DotRule].kind;
    forall i, k | 0 <= i < |b| && 0 <= k < |Subs(b[i].kind)| ensures Subs(b[i].kind)[k] < i {
      assert Subs(b[i].kind) == Subs(a[i].kind);
    }
  }

  lemma SameShapeMemo(a: seq<RuleNode>, b: seq<RuleNode>, memo: map<RuleId, RuleId>)
    requires MemoValid(a, memo) && SameShape(a, b)
    ensures MemoValid(b, memo)
  {
  }

  lemma SameShapeTrans(a: seq<RuleNode>, b: seq<RuleNode>, c: seq<RuleNode>)
    requires SameShape(a, b) && SameShape(b, c)
    ensures SameShape(a, c)
  {
  }

  /** Adding fresh rules to the arena keeps the registry consistent. */
  lemma GrowsValid(gs: seq<GrammarData>, rules: seq<RuleNode>, more: seq<RuleNode>, memo: map<RuleId, RuleId>)
    requires ValidWorld(gs, rules, memo) && Grows(rules, more) && ValidArena(more)
    ensures ValidWorld(gs, more, memo)
  {
    forall j | 0 <= j < |rules| ensures more[j] == rules[j] {
      assert more[..|rules|][j] == more[j];
    }
  }

  lemma {:induction false} DescendantsSameShape(a: seq<RuleNode>, b: seq<RuleNode>, id: RuleId)
    requires ValidArena(a) && ValidArena(b) && SameShape(a, b) && id < |a|
    ensures Descendants(a, id) == Descendants(b, id)
    decreases id, 1
  {
    DescendantsOfSameShape(a, b, id, Subs(a[id].kind));
  }

  lemma {:induction false} DescendantsOfSameShape(a: seq<RuleNode>, b: seq<RuleNode>, parent: RuleId, subs: seq<RuleId>)
    requires ValidArena(a) && ValidArena(b) && SameShape(a, b) && parent < |a|
    requires forall k :: 0 <= k < |subs| ==> subs[k] < parent
    ensures DescendantsOf(a, parent, subs) == DescendantsOf(b, parent, subs)
    decreases parent, 0, |subs|
  {
    if subs != [] {
      DescendantsSameShape(a, b, subs[0]);
      DescendantsOfSameShape(a, b, parent, subs[1..]);
    }
  }

  /** The descendants of a list of sub-rules, one sub-rule appended at a time. */
  lemma {:induction false} DescendantsOfSnoc(rules: seq<RuleNode>, parent: RuleId, subs: seq<RuleId>, c: RuleId)
    requires ValidArena(rules) && parent < |rules| && c < parent
    requires forall k :: 0 <= k < |subs| ==> subs[k] < parent
    ensures DescendantsOf(rules, parent, subs + [c]) == DescendantsOf(rules, parent, subs) + Descendants(rules, c)
    decreases |subs|
  {
    if subs == [] {
      assert subs + [c] == [c];
      assert [c][1..] == [];
    } else {
      assert (subs + [c])[1..] == subs[1..] + [c];
      DescendantsOfSnoc(rules, parent, subs[1..], c);
    }
  }

  /** A rule's descendants are the rule itself and its sub-rules' descendants. */
  lemma DescendantsUnfold(rules: seq<RuleNode>, id: RuleId)
    requires ValidArena(rules) && id < |rules|
    ensures var subs := Subs(rules[id].kind);
      Descendants(rules, id) == {id} + DescendantsOf(rules, id, subs[..|subs|])
  {
    var subs := Subs(rules[id].kind);
    assert subs[..|subs|] == subs;
  }

  /** The rules in `done` that are Supers renamed to `name`, the others as in `rules`. */
  function RenamedIn(rules: seq<RuleNode>, done: set<RuleId>, name: string, j: nat): RuleNode
    requires j < |rules|
  {
    if j in done && rules[j].kind.Super? then rules[j].(kind := Super(name)) else rules[j]
  }

  /** The rules in `done` moved to grammar `g`, the others as in `rules`. */
  function RegroupedIn(rules: seq<RuleNode>, done: set<RuleId>, g: GrammarId, j: nat): RuleNode
    requires j < |rules|
  {
    if j in done then rules[j].(grammar := Some(g)) else rules[j]
  }

  /** Renaming below one more sub-rule extends the renamed set by its descendants. */
  lemma RenameStep(before: seq<RuleNode>, mid: seq<RuleNode>, after: seq<RuleNode>, done: set<RuleId>, more: set<RuleId>, name: string)
    requires |before| == |mid| == |after|
    requires forall j :: 0 <= j < |mid| ==> mid[j] == RenamedIn(before, done, name, j)
    requires forall j :: 0 <= j < |after| ==> after[j] == RenamedIn(mid, more, name, j)
    ensures forall j :: 0 <= j < |after| ==> after[j] == RenamedIn(before, done + more, name, j)
  {
  }

  /** One more sub-rule renamed by a recursive `setup_super` call. */
  lemma RenameBelow(before: seq<RuleNode>, mid: seq<RuleNode>, after: seq<RuleNode>, done: set<RuleId>, c: RuleId, name: string)
    requires ValidArena(before) && ValidArena(mid) && SameShape(before, mid) && SameShape(mid, after) && c < |before|
    requires forall j :: 0 <= j < |mid| ==> mid[j] == RenamedIn(before, done, name, j)
    requires forall j :: 0 <= j < |after| ==> after[j] == SuperRenamed(mid, c, name, j)
    ensures SameShape(before, after)
    ensures forall j :: 0 <= j < |after| ==> after[j] == RenamedIn(before, done + Descendants(before, c), name, j)
  {
    DescendantsSameShape(before, mid, c);
    RenameStep(before, mid, after, done, Descendants(before, c), name);
    SameShapeTrans(before, mid, after);
  }

  /** Moving one more sub-rule's descendants extends the moved set by them. */
  lemma RegroupStep(before: seq<RuleNode>, mid: seq<RuleNode>, after: seq<RuleNode>, done: set<RuleId>, more: set<RuleId>, g: GrammarId)
    requires |before| == |mid| == |after|
    requires forall j :: 0 <= j < |mid| ==> mid[j] == RegroupedIn(before, done, g, j)
    requires forall j :: 0 <= j < |after| ==> after[j] == RegroupedIn(mid, more, g, j)
    ensures forall j :: 0 <= j < |after| ==> after[j] == RegroupedIn(before, done + more, g, j)
  {
  }

  /** What `setup_super(rule, name)` leaves: every Super below `id` is renamed to `name`. */
  function SuperRenamed(rules: seq<RuleNode>, id: RuleId, name: string, j: nat): RuleNode
    requires ValidArena(rules) && id < |rules| && j < |rules|
  {
    RenamedIn(rules, Descendants(rules, id), name, j)
  }

  /** What `rule.grammar = g` leaves: `id` and every rule below it belong to `g` (nonterminal.rb:18-21). */
  function Regrammared(rules: seq<RuleNode>, id: RuleId, g: GrammarId, j: nat): RuleNode
    requires ValidArena(rules) && id < |rules| && j < |rules|
  {
    RegroupedIn(rules, Descendants(rules, id), g, j)
  }

  /**
   * What `rule(name, obj)` leaves once the new rule `id` is normalised
   * (grammar_methods.rb:96-98): `id` is named `name`, every Super below it is
   * renamed to `name`, everything below it belongs to `g`, the rest is as it was.
   */
  function Installed(rules: seq<RuleNode>, id: RuleId, name: string, g: GrammarId, j: nat): RuleNode
    requires ValidArena(rules) && id < |rules| && j < |rules|
  {
    var d := Descendants(rules, id);
    var n := if j == id then rules[j].(name := Some(name)) else rules[j];
    var n2 := if j in d && n.kind.Super? then n.(kind := Super(name)) else n;
    if j in d then n2.(grammar := Some(g)) else n2
  }

  /**
   * Once installed, every proxy below the new rule resolves in grammar `g`:
   * an Alias by `g`'s own lookup, a Super by `super_rule` of the rule's own
   * name (alias.rb:21-29, super.rb:22-31); the rules outside it are untouched.
   */
  lemma InstalledResolves(gs: seq<GrammarData>, before: seq<RuleNode>, after: seq<RuleNode>, id: RuleId, name: string, g: GrammarId)
    requires ValidArena(before) && id < |before| && |after| == |before| && ValidGrammars(gs, |after|) && g < |gs|
    requires forall j :: 0 <= j < |after| ==> after[j] == Installed(before, id, name, g, j)
    ensures SameShape(before, after) && ValidArena(after)
    ensures forall j :: 0 <= j < |after| && j !in Descendants(before, id) ==> after[j] == before[j]
    ensures forall j :: j in Descendants(before, id) ==> after[j].grammar == Some(g)
    ensures forall j :: j in Descendants(before, id) && before[j].kind.Super? ==>
      Resolve(gs, after, j) == (match SuperLookup(gs, |after|, g, name, 0)
                                case Some(t) => Ok(t)
                                case None => Err(NoRuleInHierarchy(name, gs[g].name)))
    ensures forall j :: j in Descendants(before, id) && before[j].kind.Alias? ==>
      Resolve(gs, after, j) == (match Lookup(gs, |after|, g, before[j].kind.ruleName)
                                case Some(t) => Ok(t)
                                case None => Err(NoRuleInGrammar(before[j].kind.ruleName, gs[g].name)))
  {
    assert SameShape(before, after);
    SameShapeArena(before, after);
  }

  /** One more sub-rule moved by a recursive `grammar=` call. */
  lemma RegroupBelow(before: seq<RuleNode>, mid: seq<RuleNode>, after: seq<RuleNode>, done: set<RuleId>, c: RuleId, g: GrammarId)
    requires ValidArena(before) && ValidArena(mid) && SameShape(before, mid) && SameShape(mid, after) && c < |before|
    requires forall j :: 0 <= j < |mid| ==> mid[j] == RegroupedIn(before, done, g, j)
    requires forall j :: 0 <= j < |after| ==> after[j] == Regrammared(mid, c, g, j)
    ensures SameShape(before, after)
    ensures forall j :: 0 <= j < |after| ==> after[j] == RegroupedIn(before, done + Descendants(before, c), g, j)
  {
    DescendantsSameShape(before, mid, c);
    RegroupStep(before, mid, after, done, Descendants(before, c), g);
    SameShapeTrans(before, mid, after);
  }

  // ---------------------------------------------------------------------
  // Rule-building helpers (grammar_methods.rb:149-186)
  // ---------------------------------------------------------------------

  /** `rep(rule, min = 1, max = Infinity)`. */
  function Rep(rules: seq<RuleNode>, o: Obj, min: nat, max: Bound): Result<(seq<RuleNode>, RuleId), ConfigError>
    requires ObjIn(rules, o)
  {
    NewRepeat(rules, o, min, max)
  }

  function OneOrMore(rules: seq<RuleNode>, o: Obj): Result<(seq<RuleNode>, RuleId), ConfigError>
    requires ObjIn(rules, o)
  {
    Rep(rules, o, 1, Infinity)
  }

  function ZeroOrMore(rules: seq<RuleNode>, o: Obj): Result<(seq<RuleNode>, RuleId), ConfigError>
    requires ObjIn(rules, o)
  {
    Rep(rules, o, 0, Infinity)
  }

  function ZeroOrOne(rules: seq<RuleNode>, o: Obj): Result<(seq<RuleNode>, RuleId), ConfigError>
    requires ObjIn(rules, o)
  {
    Rep(rules, o, 0, Finite(1))
  }

  /** The helpers build Repeat rules with the documented bounds, and never fail on bounds. */
  lemma RepeatHelpers(rules: seq<RuleNode>, o: Obj)
    requires ObjIn(rules, o) && For(rules, o).Ok?
    ensures var (rs, sub) := For(rules, o).value;
      && OneOrMore(rules, o) == Ok((rs + [Fresh(Repeat(sub, 1, Infinity))], |rs|))
      && ZeroOrMore(rules, o) == Ok((rs + [Fresh(Repeat(sub, 0, Infinity))], |rs|))
      && ZeroOrOne(rules, o) == Ok((rs + [Fresh(Repeat(sub, 0, Finite(1)))], |rs|))
  {
  }

  /** `label(rule, label)`: normalise the rule and set its label; the same rule is returned. */
  function Label(rules: seq<RuleNode>, o: Obj, text: string): (r: Result<(seq<RuleNode>, RuleId), ConfigError>)
    requires ObjIn(rules, o)
    ensures r.Ok? <==> For(rules, o).Ok?
    ensures r.Ok? ==>
      && r.value.1 == For(rules, o).value.1
      && r.value.1 < |r.value.0| && r.value.0[r.value.1].labelText == Some(text)
      && r.value.0[r.value.1] == For(rules, o).value.0[r.value.1].(labelText := Some(text))
      && |r.value.0| == |For(rules, o).value.0|
      && forall j :: 0 <= j < |r.value.0| && j != r.value.1 ==> r.value.0[j] == For(rules, o).value.0[j]
  {
    match For(rules, o)
    case Err(e) => Err(e)
    case Ok((rs, id)) => Ok((rs[id := rs[id].(labelText := Some(text))], id))
  }

  // ---------------------------------------------------------------------
  // The registry object
  // ---------------------------------------------------------------------

  class Registry {
    var rules: seq<RuleNode>
    var grammars: seq<GrammarData>
    /** The `@rule` of every proxy that has been resolved. */
    var resolved: map<RuleId, RuleId>

    ghost predicate Valid()
      reads this
    {
      ValidWorld(grammars, rules, resolved)
    }

    constructor ()
      ensures Valid() && rules == [Fresh(Terminal(AnyChar))] && grammars == [] && resolved == map[]
    {
      rules := [Fresh(Terminal(AnyChar))];
      grammars := [];
      resolved := map[];
    }

    /** A new, empty grammar that includes `included` (most recently included first). */
    method NewGrammar(name: string, included: seq<GrammarId>) returns (g: GrammarId)
      requires Valid()
      requires ValidGrammars(grammars + [GrammarData(name, map[], [], None, included)], |rules|)
      modifies this
      ensures Valid() && g == |old(grammars)|
      ensures grammars == old(grammars) + [GrammarData(name, map[], [], None, included)]
      ensures rules == old(rules) && resolved == old(resolved)
    {
      g := |grammars|;
      grammars := grammars + [GrammarData(name, map[], [], None, included)];
    }

    /** `rule.name = name` (rule.rb:25-27). */
    method SetName(id: RuleId, name: string)
      requires id < |rules|
      modifies this`rules
      ensures rules == old(rules)[id := old(rules)[id].(name := Some(name))]
    {
      rules := rules[id := rules[id].(name := Some(name))];
    }

    /** `setup_super(rule, name)` (grammar_methods.rb:60-66). */
    method SetupSuper(id: RuleId, name: string)
      requires ValidArena(rules) && id < |rules|
      modifies this`rules
      decreases id, 1
      ensures SameShape(old(rules), rules) && ValidArena(rules)
      ensures forall j :: 0 <= j < |rules| ==> rules[j] == SuperRenamed(old(rules), id, name, j)
    {
      ghost var before := rules;
      DescendantsUnfold(before, id);
      if rules[id].kind.Super? {
        rules := rules[id := rules[id].(kind := Super(name))];
        SameShapeArena(before, rules);
      } else if rules[id].kind.IsNonterminal() {
        SetupSuperKids(id, name);
      }
    }

    /** The `each` loop of `setup_super` over a nonterminal's sub-rules (grammar_methods.rb:63-65). */
    method SetupSuperKids(id: RuleId, name: string)
      requires ValidArena(rules) && id < |rules|
      modifies this`rules
      decreases id, 0
      ensures SameShape(old(rules), rules) && ValidArena(rules)
      ensures forall j :: 0 <= j < |rules| ==>
        rules[j] == RenamedIn(old(rules), DescendantsOf(old(rules), id, Subs(old(rules)[id].kind)), name, j)
    {
      ghost var before := rules;
      var subs := Subs(rules[id].kind);
      ghost var done: set<RuleId> := {};
      var i := 0;
      while i < |subs|
        invariant 0 <= i <= |subs| && SameShape(before, rules) && ValidArena(rules)
        invariant done == DescendantsOf(before, id, subs[..i])
        invariant forall j :: 0 <= j < |rules| ==> rules[j] == RenamedIn(before, done, name, j)
      {
        ghost var mid := rules;
        DescendantsOfSnoc(before, id, subs[..i], subs[i]);
        assert subs[..i + 1] == subs[..i] + [subs[i]];
        SetupSuper(subs[i], name);
        RenameBelow(before, mid, rules, done, subs[i], name);
        done := done + Descendants(before, subs[i]);
        i := i + 1;
      }
      assert subs[..i] == subs;
    }

    /** `rule.grammar = g` (rule.rb:22, nonterminal.rb:18-21). */
    method SetGrammar(id: RuleId, g: GrammarId)
      requires ValidArena(rules) && id < |rules|
      modifies this`rules
      decreases id, 1
      ensures SameShape(old(rules), rules) && ValidArena(rules)
      ensures forall j :: 0 <= j < |rules| ==> rules[j] == Regrammared(old(rules), id, g, j)
    {
      ghost var before := rules;
      DescendantsUnfold(before, id);
      rules := rules[id := rules[id].(grammar := Some(g))];
      SameShapeArena(before, rules);
      ghost var mid := rules;
      ghost var subs := Subs(before[id].kind);
      assert Subs(mid[id].kind) == subs;
      DescendantsOfSameShape(before, mid, id, subs);
      SetGrammarKids(id, g);
      RegroupStep(before, mid, rules, {id}, DescendantsOf(before, id, subs), g);
      assert subs[..|subs|] == subs;
    }

    /** The `each` loop of `grammar=` over a nonterminal's sub-rules (nonterminal.rb:20). */
    method SetGrammarKids(id: RuleId, g: GrammarId)
      requires ValidArena(rules) && id < |rules|
      modifies this`rules
      decreases id, 0
      ensures SameShape(old(rules), rules) && ValidArena(rules)
      ensures forall j :: 0 <= j < |rules| ==>
        rules[j] == RegroupedIn(old(rules), DescendantsOf(old(rules), id, Subs(old(rules)[id].kind)), g, j)
    {
      ghost var before := rules;
      var subs := Subs(rules[id].kind);
      ghost var done: set<RuleId> := {};
      var i := 0;
      while i < |subs|
        invariant 0 <= i <= |subs| && SameShape(before, rules) && ValidArena(rules)
        invariant done == DescendantsOf(before, id, subs[..i])
        invariant forall j :: 0 <= j < |rules| ==> rules[j] == RegroupedIn(before, done, g, j)
      {
        ghost var mid := rules;
        DescendantsOfSnoc(before, id, subs[..i], subs[i]);
        assert subs[..i + 1] == subs[..i] + [subs[i]];
        SetGrammar(subs[i], g);
        RegroupBelow(before, mid, rules, done, subs[i], g);
        done := done + Descendants(before, subs[i]);
        i := i + 1;
      }
      assert subs[..i] == subs;
    }

    /** Record a new rule name in `rule_names` (grammar_methods.rb:93). */
    method RecordName(g: GrammarId, name: string)
      requires Valid() && g < |grammars|
      modifies this`grammars
      ensures Valid() && |grammars| == |old(grammars)| && name in grammars[g].ruleNames
      ensures grammars == old(grammars)[g := old(grammars)[g].(ruleNames :=
        if name in old(grammars)[g].table then old(grammars)[g].ruleNames else old(grammars)[g].ruleNames + [name])]
    {
      if name !in grammars[g].table {
        grammars := grammars[g := grammars[g].(ruleNames := grammars[g].ruleNames + [name])];
      }
    }

    /**
     * Name a freshly normalised rule, point its Supers at the name, move it
     * into grammar `g` and enter it in the table (grammar_methods.rb:96-100).
     */
    method Install(g: GrammarId, name: string, id: RuleId)
      requires ValidArena(rules) && ValidGrammars(grammars, |rules|) && MemoValid(rules, resolved)
      requires GrammarsExist(rules, |grammars|) && g < |grammars| && id < |rules| && name in grammars[g].ruleNames
      modifies this`rules, this`grammars
      ensures Valid() && |rules| == |old(rules)| && |grammars| == |old(grammars)|
      ensures rules[id].name == Some(name) && rules[id].grammar == Some(g)
      ensures grammars == old(grammars)[g := old(grammars)[g].(table := old(grammars)[g].table[name := id])]
      ensures forall j :: 0 <= j < |rules| ==> rules[j] == Installed(old(rules), id, name, g, j)
    {
      ghost var r0 := rules;
      SetName(id, name);
      assert SameShape(r0, rules);
      SameShapeArena(r0, rules);
      ghost var r1 := rules;
      SetupSuper(id, name);
      ghost var r2 := rules;
      SetGrammar(id, g);
      assert rules[id] == r2[id].(grammar := Some(g));
      assert r2[id].name == Some(name) by {
        assert r2[id] == RenamedIn(r1, Descendants(r1, id), name, id);
      }
      SameShapeTrans(r0, r1, r2);
      SameShapeTrans(r0, r2, rules);
      DescendantsSameShape(r0, r1, id);
      DescendantsSameShape(r1, r2, id);
      assert GrammarsExist(rules, |grammars|) by {
        forall j | 0 <= j < |rules| && rules[j].grammar.Some? ensures rules[j].grammar.value < |grammars| {
          assert rules[j] == RegroupedIn(r2, Descendants(r2, id), g, j);
          assert r2[j] == RenamedIn(r1, Descendants(r1, id), name, j);
        }
      }
      grammars := grammars[g := grammars[g].(table := grammars[g].table[name := id])];
      SameShapeMemo(r0, rules, resolved);
    }

    /**
     * `rule(name, obj)` (grammar_methods.rb:87-106): define `name` in grammar
     * `g` from `obj` when one is given, then look the name up.  A new name is
     * recorded in `rule_names` before `obj` is normalised, as the source does.
     */
    method Define(g: GrammarId, name: string, obj: Option<Obj>) returns (r: Result<Option<RuleId>, ConfigError>)
      requires Valid() && g < |grammars| && (obj.Some? ==> ObjIn(rules, obj.value))
      modifies this
      ensures Valid() && |grammars| == |old(grammars)| && |rules| >= |old(rules)|
      ensures obj.None? ==> rules == old(rules) && grammars == old(grammars) && r == Ok(Lookup(grammars, |rules|, g, name))
      ensures obj.Some? && name in old(grammars)[g].table ==> grammars[g].ruleNames == old(grammars)[g].ruleNames
      ensures obj.Some? && name !in old(grammars)[g].table ==> grammars[g].ruleNames == old(grammars)[g].ruleNames + [name]
      ensures obj.Some? && For(old(rules), obj.value).Err? ==>
        r == Err(CannotCreateRule(name, InvalidRuleObject)) && grammars[g].table == old(grammars)[g].table && rules == old(rules)
      ensures obj.Some? && For(old(rules), obj.value).Ok? ==>
        && r.Ok? && r.value == Some(For(old(rules), obj.value).value.1)
        && |rules| == |For(old(rules), obj.value).value.0|
        && grammars[g].table == old(grammars)[g].table[name := For(old(rules), obj.value).value.1]
        && rules[r.value.value].name == Some(name) && rules[r.value.value].grammar == Some(g)
        && (ForValid(old(rules), obj.value);
            forall j :: 0 <= j < |rules| ==> rules[j] == Installed(For(old(rules), obj.value).value.0, r.value.value, name, g, j))
      ensures forall h :: 0 <= h < |grammars| && h != g ==> grammars[h] == old(grammars)[h]
      ensures grammars[g].included == old(grammars)[g].included && grammars[g].root == old(grammars)[g].root
      ensures resolved == old(resolved)
    {
      if obj.Some? {
        RecordName(g, name);
        match For(rules, obj.value) {
          case Err(e) =>
            return Err(CannotCreateRule(name, e));
          case Ok((rs, id)) =>
            ForValid(rules, obj.value);
            GrowsValid(grammars, rules, rs, resolved);
            rules := rs;
            Install(g, name, id);
            return Ok(Some(id));
        }
      }
      return Ok(Lookup(grammars, |rules|, g, name));
    }

    /** `root(name)` with a name: set the root explicitly (grammar_methods.rb:111). */
    method SetRoot(g: GrammarId, name: string)
      requires Valid() && g < |grammars|
      modifies this
      ensures Valid() && grammars == old(grammars)[g := old(grammars)[g].(root := Some(name))]
      ensures rules == old(rules) && resolved == old(resolved)
      ensures Root(grammars[g]) == Some(name)
    {
      grammars := grammars[g := grammars[g].(root := Some(name))];
    }

    /**
     * `super_rule(name)` (grammar_methods.rb:71-78): the first included
     * grammar, in order, whose lookup finds the name.
     */
    method SuperRule(g: GrammarId, name: string) returns (r: Option<RuleId>)
      requires Valid() && g < |grammars|
      ensures r == SuperLookup(grammars, |rules|, g, name, 0)
      ensures r.None? <==> forall j :: 0 <= j < |grammars[g].included| ==> Lookup(grammars, |rules|, grammars[g].included[j], name).None?
      ensures r.Some? ==>
        exists j :: 0 <= j < |grammars[g].included|
          && Lookup(grammars, |rules|, grammars[g].included[j], name) == r
          && forall k :: 0 <= k < j ==> Lookup(grammars, |rules|, grammars[g].included[k], name).None?
    {
      SuperLookupFirst(grammars, |rules|, g, name, 0);
      var incl := grammars[g].included;
      var i := 0;
      while i < |incl|
        invariant 0 <= i <= |incl|
        invariant SuperLookup(grammars, |rules|, g, name, i) == SuperLookup(grammars, |rules|, g, name, 0)
      {
        assert incl[i] in incl;
        var found := Lookup(grammars, |rules|, incl[i], name);
        if found.Some? {
          return found;
        }
        i := i + 1;
      }
      return None;
    }

    /** `Proxy#rule` (proxy.rb:23-25): resolve once and reuse the answer. */
    method ProxyRule(p: RuleId) returns (r: Result<RuleId, ConfigError>)
      requires Valid() && p < |rules| && rules[p].kind.IsProxy()
      modifies this`resolved
      ensures Valid()
      ensures r == Target(grammars, rules, old(resolved), p)
      ensures old(p in resolved) ==> resolved == old(resolved)
      ensures !old(p in resolved) ==> resolved == if r.Ok? then old(resolved)[p := r.value] else old(resolved)
    {
      if p in resolved {
        return Ok(resolved[p]);
      }
      r := Resolve(grammars, rules, p);
      if r.Ok? {
        resolved := resolved[p := r.value];
      }
    }

    /** `rep`, `one_or_more`, `zero_or_more`, `zero_or_one`: build a Repeat in the arena. */
    method MakeRepeat(o: Obj, min: nat, max: Bound) returns (r: Result<RuleId, ConfigError>)
      requires Valid() && ObjIn(rules, o)
      modifies this
      ensures Valid() && grammars == old(grammars) && resolved == old(resolved)
      ensures Rep(old(rules), o, min, max).Ok? ==> r == Ok(Rep(old(rules), o, min, max).value.1) && rules == Rep(old(rules), o, min, max).value.0
      ensures Rep(old(rules), o, min, max).Err? ==> r == Err(Rep(old(rules), o, min, max).error) && rules == old(rules)
    {
      match Rep(rules, o, min, max) {
        case Err(e) => r := Err(e);
        case Ok((rs, id)) =>
          GrowsValid(grammars, rules, rs, resolved);
          rules := rs; r := Ok(id);
      }
    }

    /** `all(*args)` (grammar_methods.rb:170-172): build a Sequence in the arena. */
    method MakeSequence(args: seq<Obj>) returns (r: Result<RuleId, ConfigError>)
      requires Valid() && forall i :: 0 <= i < |args| ==> ObjIn(rules, args[i])
      modifies this
      ensures Valid() && grammars == old(grammars) && resolved == old(resolved)
      ensures NewSequence(old(rules), args).Ok? ==>
        r == Ok(NewSequence(old(rules), args).value.1) && rules == NewSequence(old(rules), args).value.0
      ensures NewSequence(old(rules), args).Err? ==> r == Err(InvalidRuleObject) && rules == old(rules)
    {
      match NewSequence(rules, args) {
        case Err(e) => r := Err(e);
        case Ok((rs, id)) =>
          GrowsValid(grammars, rules, rs, resolved);
          rules := rs; r := Ok(id);
      }
    }

    /** `any(*args)` (grammar_methods.rb:176-178): build a Choice in the arena. */
    method MakeChoice(args: seq<Obj>) returns (r: Result<RuleId, ConfigError>)
      requires Valid() && forall i :: 0 <= i < |args| ==> ObjIn(rules, args[i])
      modifies this
      ensures Valid() && grammars == old(grammars) && resolved == old(resolved)
      ensures NewChoice(old(rules), args).Ok? ==>
        r == Ok(NewChoice(old(rules), args).value.1) && rules == NewChoice(old(rules), args).value.0
      ensures NewChoice(old(rules), args).Err? ==> r == Err(InvalidRuleObject) && rules == old(rules)
    {
      match NewChoice(rules, args) {
        case Err(e) => r := Err(e);
        case Ok((rs, id)) =>
          GrowsValid(grammars, rules, rs, resolved);
          rules := rs; r := Ok(id);
      }
    }

    /** `label(rule, label)`: the same rule, now labelled. */
    method MakeLabel(o: Obj, text: string) returns (r: Result<RuleId, ConfigError>)
      requires Valid() && ObjIn(rules, o)
      modifies this
      ensures Valid() && grammars == old(grammars) && resolved == old(resolved)
      ensures Label(old(rules), o, text).Ok? ==> r == Ok(Label(old(rules), o, text).value.1) && rules == Label(old(rules), o, text).value.0
      ensures Label(old(rules), o, text).Err? ==> r.Err? && rules == old(rules)
    {
      ForValid(rules, o);
      match Label(rules, o, text) {
        case Err(e) => r := Err(e);
        case Ok((rs, id)) =>
          var (fs, _) := For(rules, o).value;
          GrowsValid(grammars, rules, fs, resolved);
          assert SameShape(fs, rs);
          SameShapeArena(fs, rs);
          SameShapeMemo(fs, rs, resolved);
          rules := rs; r := Ok(id);
      }
    }
  }
}
