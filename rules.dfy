/**
 * The rule variants and the rule-building helpers of lib/citrus/grammar/rule.rb,
 * the files under lib/citrus/grammar/rules and lib/citrus/grammar/proxy.rb.
 *
 * Rules live in an arena (`seq<RuleNode>`) and refer to each other by index.
 * Nonterminals are built from their children, so a child always has a smaller
 * index than its parent; proxies refer to rules by name, not by index.
 * Index 0 holds ButPredicate::DOT_RULE, the terminal that matches any single
 * character (lib/citrus/grammar/rules/nonterminals/but_predicate.rb:12).
 */
module Rules {
  import opened Base
  import opened Events

  /**
   * What a terminal scans for.  Regular-expression matching belongs to Ruby's
   * StringScanner and is not modelled; a terminal is a literal string (as
   * StringTerminal), the any-character pattern Citrus::DOT, or a one-character
   * class.
   */
  datatype Pattern = Literal(s: string) | AnyChar | OneOf(chars: set<char>)

  /** `StringScanner#scan` at `pos`: the length of the match, anchored at `pos`. */
  function Scan(text: string, pos: nat, p: Pattern): (r: Option<nat>)
    ensures r.Some? ==> pos + r.value <= |text|
    ensures p.Literal? ==> (r.Some? <==> pos + |p.s| <= |text| && text[pos..pos + |p.s|] == p.s)
    ensures p.Literal? && r.Some? ==> r.value == |p.s|
    ensures p.AnyChar? ==> r == if pos < |text| then Some(1) else None
    ensures p.OneOf? ==> r == if pos < |text| && text[pos] in p.chars then Some(1) else None
  {
    match p
    case Literal(s) => if pos + |s| <= |text| && text[pos..pos + |s|] == s then Some(|s|) else None
    case AnyChar => if pos < |text| then Some(1) else None
    case OneOf(cs) => if pos < |text| && text[pos] in cs then Some(1) else None
  }

  /** A repetition bound: a number or Citrus::Infinity (lib/citrus.rb:18). */
  datatype Bound = Finite(n: nat) | Infinity

  /** `n < max` for a possibly infinite `max`. */
  predicate Below(n: nat, b: Bound)
  {
    b.Infinity? || n < b.n
  }

  /** `min > max` as Ruby compares a number with a number or with Infinity. */
  predicate MinExceeds(min: nat, max: Bound)
  {
    max.Finite? && min > max.n
  }

  datatype Kind =
    | Terminal(pattern: Pattern)
    | Sequence(subs: seq<RuleId>)
    | Choice(subs: seq<RuleId>)
    | Repeat(sub: RuleId, min: nat, max: Bound)
    | AndPredicate(sub: RuleId)
    | NotPredicate(sub: RuleId)
    | ButPredicate(sub: RuleId)
    | Alias(ruleName: string)
    | Super(ruleName: string)
  {
    predicate IsProxy() { Alias? || Super? }
    predicate IsNonterminal() { Sequence? || Choice? || Repeat? || AndPredicate? || NotPredicate? || ButPredicate? }
  }

  /** An extension module, or the anonymous module that `extension=` makes from a Proc. */
  datatype Extension = Module(id: nat) | ValueModule(proc: nat)

  /** What may be passed to `extension=`. */
  datatype ExtensionArg = ProcArg(proc: nat) | ModuleArg(id: nat) | OtherArg

  datatype RuleNode = RuleNode(
    kind: Kind,
    name: Option<string>,
    labelText: Option<string>,
    extension: Option<Extension>,
    grammar: Option<nat>)

  /** A freshly constructed rule: no name, label, extension or grammar yet. */
  function Fresh(k: Kind): (n: RuleNode)
    ensures n.kind == k && n.name.None? && n.labelText.None? && n.extension.None? && n.grammar.None?
  {
    RuleNode(k, None, None, None, None)
  }

  const DotRule: RuleId := 0

  /**
   * The failures the source raises as Ruby exceptions other than ParseError,
   * each carrying the names its message interpolates.  `NoGrammar` is the
   * `NoMethodError` of a proxy without a grammar calling `rule` or
   * `super_rule` on nil (alias.rb:22, super.rb:23).
   */
  datatype ConfigError =
    | InvalidRuleObject
    | MinGreaterThanMax
    | ExtensionNotModule
    | NoRuleInGrammar(name: string, grammar: string)
    | NoRuleInHierarchy(name: string, grammar: string)
    | NoGrammar(name: string)
    | NoRootRule
    | NoRuleNamed(name: string)
    | CannotCreateRule(rule: string, cause: ConfigError)

  /** `Nonterminal#rules`: the sub-rules a rule invokes directly. */
  function Subs(k: Kind): (s: seq<RuleId>)
    ensures !k.IsNonterminal() ==> s == []
    ensures (k.Repeat? || k.AndPredicate? || k.NotPredicate? || k.ButPredicate?) ==> |s| == 1
  {
    match k
    case Sequence(subs) => subs
    case Choice(subs) => subs
    case Repeat(sub, _, _) => [sub]
    case AndPredicate(sub) => [sub]
    case NotPredicate(sub) => [sub]
    case ButPredicate(sub) => [sub]
    case _ => []
  }

  /** The arena invariant: children precede their parents and slot 0 is DOT_RULE. */
  predicate ValidArena(rules: seq<RuleNode>)
  {
    && |rules| > 0
    && rules[DotRule].kind == Terminal(AnyChar)
    && forall i, k :: 0 <= i < |rules| && 0 <= k < |Subs(rules[i].kind)| ==> Subs(rules[i].kind)[k] < i
  }

  /** `terminal?` (rule.rb:108-110, terminal.rb:58-60). */
  predicate IsTerminal(k: Kind) { k.Terminal? }

  /**
   * `elide?` for every variant except proxies, whose answer is their target's
   * (proxy.rb:42-44, resolved in module Grammars): false by default
   * (rule.rb:114-116) and true for a Choice (choice.rb:35-37).
   */
  predicate OwnElide(k: Kind)
    requires !k.IsProxy()
  {
    k.Choice?
  }

  // ---------------------------------------------------------------------
  // Rule.for and the constructors that normalise their arguments through it
  // ---------------------------------------------------------------------

  /** The Ruby objects `Rule.for` accepts (rule.rb:7-19), plus anything else. */
  datatype Obj =
    | RuleObj(id: RuleId)
    | Sym(name: string)
    | Str(s: string)
    | Regex(pattern: Pattern)
    | Arr(items: seq<Obj>)
    | Rng(elements: seq<Obj>)
    | Num(n: int)
    | OtherObj

  /** Every rule an object refers to exists in the arena. */
  predicate ObjIn(rules: seq<RuleNode>, o: Obj)
  {
    match o
    case RuleObj(id) => id < |rules|
    case Arr(items) => forall i :: 0 <= i < |items| ==> ObjIn(rules, items[i])
    case Rng(items) => forall i :: 0 <= i < |items| ==> ObjIn(rules, items[i])
    case _ => true
  }

  lemma ObjInGrows(rules: seq<RuleNode>, more: seq<RuleNode>, o: Obj)
    requires ObjIn(rules, o) && |rules| <= |more|
    ensures ObjIn(more, o)
  {
    match o
    case Arr(items) =>
      forall i | 0 <= i < |items| ensures ObjIn(more, items[i]) { ObjInGrows(rules, more, items[i]); }
    case Rng(items) =>
      forall i | 0 <= i < |items| ensures ObjIn(more, items[i]) { ObjInGrows(rules, more, items[i]); }
    case _ =>
  }

  /**
   * `more` extends the arena `rules`: the old rules are kept as they were and
   * the new ones belong to no grammar yet.
   */
  predicate Grows(rules: seq<RuleNode>, more: seq<RuleNode>)
  {
    && |rules| <= |more| && more[..|rules|] == rules
    && forall j :: |rules| <= j < |more| ==> more[j].grammar.None?
  }

  /** Appending one fresh node to the arena returns the new node's index. */
  function Add(rules: seq<RuleNode>, k: Kind): (r: (seq<RuleNode>, RuleId))
    ensures r.0 == rules + [Fresh(k)] && r.1 == |rules|
  {
    (rules + [Fresh(k)], |rules|)
  }

  /**
   * `Rule.for(obj)`: the rule for a Ruby object, allocating the nodes it needs.
   * The arena only grows, and existing rules are returned as they are.
   */
  function For(rules: seq<RuleNode>, o: Obj): (r: Result<(seq<RuleNode>, RuleId), ConfigError>)
    requires ObjIn(rules, o)
    ensures r.Ok? ==> Grows(rules, r.value.0) && r.value.1 < |r.value.0|
    ensures r.Err? ==> r.error == InvalidRuleObject
    decreases o, 1
  {
    match o
    case RuleObj(id) => Ok((rules, id))
    case Sym(name) => Ok(Add(rules, Alias(name)))
    case Str(s) => Ok(Add(rules, Terminal(Literal(s))))
    case Regex(p) => Ok(Add(rules, Terminal(p)))
    case Arr(items) =>
      (match ForAll(rules, items)
       case Err(e) => Err(e)
       case Ok((rs, ids)) => Ok(Add(rs, Sequence(ids))))
    case Rng(items) =>
      (match ForAll(rules, items)
       case Err(e) => Err(e)
       case Ok((rs, ids)) => Ok(Add(rs, Choice(ids))))
    case Num(n) => Ok(Add(rules, Terminal(Literal(IntToString(n)))))
    case OtherObj => Err(InvalidRuleObject)
  }

  /** `rules.map {|r| Rule.for(r) }` (nonterminal.rb:11-13), threading the arena. */
  function ForAll(rules: seq<RuleNode>, items: seq<Obj>): (r: Result<(seq<RuleNode>, seq<RuleId>), ConfigError>)
    requires forall i :: 0 <= i < |items| ==> ObjIn(rules, items[i])
    ensures r.Ok? ==> Grows(rules, r.value.0)
    ensures r.Ok? ==> |r.value.1| == |items| && forall k :: 0 <= k < |r.value.1| ==> r.value.1[k] < |r.value.0|
    ensures r.Err? ==> r.error == InvalidRuleObject
    decreases items, 0
  {
    if items == [] then Ok((rules, []))
    else
      assert items[0] in items;
      match For(rules, items[0])
      case Err(e) => Err(e)
      case Ok((rs, id)) =>
        forall i | 0 <= i < |items[1..]| ensures ObjIn(rs, items[1..][i]) {
          ObjInGrows(rules, rs, items[1..][i]);
        }
        assert forall i :: 0 <= i < |items[1..]| ==> items[1..][i] in items;
        match ForAll(rs, items[1..])
        case Err(e) => Err(e)
        case Ok((rs2, ids)) =>
          assert rs2[..|rules|] == rs[..|rules|];
          Ok((rs2, [id] + ids))
  }

  /** `Rule.for` never breaks the arena invariant: every node it adds has its children before it. */
  lemma {:induction false} ForValid(rules: seq<RuleNode>, o: Obj)
    requires ValidArena(rules) && ObjIn(rules, o)
    ensures For(rules, o).Ok? ==> ValidArena(For(rules, o).value.0)
    decreases o, 1
  {
    match o
    case Arr(items) => ForAllValid(rules, items);
    case Rng(items) => ForAllValid(rules, items);
    case _ =>
  }

  lemma {:induction false} ForAllValid(rules: seq<RuleNode>, items: seq<Obj>)
    requires ValidArena(rules) && forall i :: 0 <= i < |items| ==> ObjIn(rules, items[i])
    ensures ForAll(rules, items).Ok? ==> ValidArena(ForAll(rules, items).value.0)
    decreases items, 0
  {
    if items != [] {
      assert items[0] in items;
      ForValid(rules, items[0]);
      match For(rules, items[0])
      case Err(_) =>
      case Ok((rs, id)) =>
        forall i | 0 <= i < |items[1..]| ensures ObjIn(rs, items[1..][i]) {
          ObjInGrows(rules, rs, items[1..][i]);
        }
        assert forall i :: 0 <= i < |items[1..]| ==> items[1..][i] in items;
        ForAllValid(rs, items[1..]);
    }
  }

  /** Rule.for maps an existing rule to itself and each other kind of object to its variant. */
  lemma ForKinds(rules: seq<RuleNode>, o: Obj)
    requires ObjIn(rules, o)
    ensures o.RuleObj? ==> For(rules, o) == Ok((rules, o.id))
    ensures o.Sym? ==> For(rules, o) == Ok((rules + [Fresh(Alias(o.name))], |rules|))
    ensures o.Str? ==> For(rules, o) == Ok((rules + [Fresh(Terminal(Literal(o.s)))], |rules|))
    ensures o.Regex? ==> For(rules, o) == Ok((rules + [Fresh(Terminal(o.pattern))], |rules|))
    ensures o.Num? ==> For(rules, o) == Ok((rules + [Fresh(Terminal(Literal(IntToString(o.n))))], |rules|))
    ensures o.OtherObj? ==> For(rules, o) == Err(InvalidRuleObject)
    ensures o.Arr? && For(rules, o).Ok? ==>
      var (rs, id) := For(rules, o).value;
      id == |rs| - 1 && rs[id] == Fresh(Sequence(ForAll(rules, o.items).value.1))
    ensures o.Rng? && For(rules, o).Ok? ==>
      var (rs, id) := For(rules, o).value;
      id == |rs| - 1 && rs[id] == Fresh(Choice(ForAll(rules, o.elements).value.1))
  {
  }

  /**
   * Normalising the arguments of a nonterminal keeps their order and count:
   * an argument that already is a rule is used as is, and the i-th child is
   * the rule made from the i-th argument.
   */
  lemma {:induction false} ForAllPreservesOrder(rules: seq<RuleNode>, items: seq<Obj>, i: nat)
    requires forall j :: 0 <= j < |items| ==> ObjIn(rules, items[j])
    requires ForAll(rules, items).Ok? && i < |items|
    ensures |ForAll(rules, items).value.1| == |items|
    ensures items[i].RuleObj? ==> ForAll(rules, items).value.1[i] == items[i].id
    ensures items[i].Sym? ==>
      var (rs, ids) := ForAll(rules, items).value;
      rs[ids[i]].kind == Alias(items[i].name)
    decreases items
  {
    assert items[0] in items;
    var (rs, id) := For(rules, items[0]).value;
    forall j | 0 <= j < |items[1..]| ensures ObjIn(rs, items[1..][j]) {
      ObjInGrows(rules, rs, items[1..][j]);
    }
    var (rs2, ids) := ForAll(rs, items[1..]).value;
    if i == 0 {
      if items[0].Sym? {
        assert rs[id].kind == Alias(items[0].name);
        assert rs2[..|rs|] == rs;
        assert rs2[id] == rs2[..|rs|][id];
      }
    } else {
      assert items[1..][i - 1] == items[i];
      ForAllPreservesOrder(rs, items[1..], i - 1);
    }
  }

  /**
   * `Sequence.new(args)` (nonterminal.rb:11-13): a fresh Sequence, last in
   * the arena, over `Rule.for` of each argument in order.
   */
  function NewSequence(rules: seq<RuleNode>, args: seq<Obj>): (r: Result<(seq<RuleNode>, RuleId), ConfigError>)
    requires forall i :: 0 <= i < |args| ==> ObjIn(rules, args[i])
    ensures r.Ok? <==> ForAll(rules, args).Ok?
    ensures r.Err? ==> r.error == InvalidRuleObject
    ensures r.Ok? ==>
      && Grows(rules, r.value.0) && r.value.1 == |r.value.0| - 1
      && r.value.0[r.value.1] == Fresh(Sequence(ForAll(rules, args).value.1))
      && r.value.0[..r.value.1] == ForAll(rules, args).value.0
    ensures r.Ok? && ValidArena(rules) ==> ValidArena(r.value.0)
  {
    match ForAll(rules, args)
    case Err(e) => Err(e)
    case Ok((rs, ids)) =>
      AppendGrows(rules, rs, Sequence(ids));
      if ValidArena(rules) then
        ForAllValid(rules, args);
        Ok(Add(rs, Sequence(ids)))
      else Ok(Add(rs, Sequence(ids)))
  }

  /**
   * `Choice.new(args)` (nonterminal.rb:11-13): a fresh Choice, last in the
   * arena, over `Rule.for` of each alternative in order.
   */
  function NewChoice(rules: seq<RuleNode>, args: seq<Obj>): (r: Result<(seq<RuleNode>, RuleId), ConfigError>)
    requires forall i :: 0 <= i < |args| ==> ObjIn(rules, args[i])
    ensures r.Ok? <==> ForAll(rules, args).Ok?
    ensures r.Err? ==> r.error == InvalidRuleObject
    ensures r.Ok? ==>
      && Grows(rules, r.value.0) && r.value.1 == |r.value.0| - 1
      && r.value.0[r.value.1] == Fresh(Choice(ForAll(rules, args).value.1))
      && r.value.0[..r.value.1] == ForAll(rules, args).value.0
    ensures r.Ok? && ValidArena(rules) ==> ValidArena(r.value.0)
  {
    match ForAll(rules, args)
    case Err(e) => Err(e)
    case Ok((rs, ids)) =>
      AppendGrows(rules, rs, Choice(ids));
      if ValidArena(rules) then
        ForAllValid(rules, args);
        Ok(Add(rs, Choice(ids)))
      else Ok(Add(rs, Choice(ids)))
  }

  /** Appending a fresh node to a grown arena still only grows it. */
  lemma AppendGrows(rules: seq<RuleNode>, rs: seq<RuleNode>, k: Kind)
    requires Grows(rules, rs)
    ensures Grows(rules, rs + [Fresh(k)]) && (rs + [Fresh(k)])[..|rs|] == rs
  {
    var more := rs + [Fresh(k)];
    assert more[..|rs|] == rs;
    assert more[..|rules|] == rs[..|rules|];
  }

  /**
   * `Repeat.new(rule, min, max)` (repeat.rb:25-30): the bounds are checked
   * before the sub-rule is normalised.
   */
  function NewRepeat(rules: seq<RuleNode>, o: Obj, min: nat, max: Bound): (r: Result<(seq<RuleNode>, RuleId), ConfigError>)
    requires ObjIn(rules, o)
    ensures MinExceeds(min, max) ==> r == Err(MinGreaterThanMax)
    ensures !MinExceeds(min, max) && For(rules, o).Ok? ==>
      var (rs, sub) := For(rules, o).value;
      r == Ok((rs + [Fresh(Repeat(sub, min, max))], |rs|))
    ensures !MinExceeds(min, max) && For(rules, o).Err? ==> r == Err(InvalidRuleObject)
    ensures r.Ok? ==> Grows(rules, r.value.0) && r.value.1 == |r.value.0| - 1
    ensures r.Ok? && ValidArena(rules) ==> ValidArena(r.value.0)
  {
    if MinExceeds(min, max) then Err(MinGreaterThanMax)
    else
      match For(rules, o)
      case Err(e) => Err(e)
      case Ok((rs, sub)) =>
        AppendGrows(rules, rs, Repeat(sub, min, max));
        if ValidArena(rules) then
          ForValid(rules, o);
          Ok(Add(rs, Repeat(sub, min, max)))
        else Ok(Add(rs, Repeat(sub, min, max)))
  }

  /** The single-rule nonterminals: `AndPredicate.new`, `NotPredicate.new`, `ButPredicate.new`. */
  datatype PredicateKind = AndKind | NotKind | ButKind

  function NewPredicate(rules: seq<RuleNode>, which: PredicateKind, o: Obj): (r: Result<(seq<RuleNode>, RuleId), ConfigError>)
    requires ObjIn(rules, o)
    ensures r.Ok? ==> For(rules, o).Ok? && r.value.1 == |r.value.0| - 1 && Subs(r.value.0[r.value.1].kind) == [For(rules, o).value.1]
  {
    match For(rules, o)
    case Err(e) => Err(e)
    case Ok((rs, sub)) =>
      Ok(Add(rs, match which
                 case AndKind => AndPredicate(sub)
                 case NotKind => NotPredicate(sub)
                 case ButKind => ButPredicate(sub)))
  }

  // ---------------------------------------------------------------------
  // Attributes and rendering
  // ---------------------------------------------------------------------

  /** `extension=` (rule.rb:45-53): a Proc becomes a module defining `value`; a non-module is refused. */
  function SetExtension(n: RuleNode, arg: ExtensionArg): (r: Result<RuleNode, ConfigError>)
    ensures arg.ProcArg? ==> r == Ok(n.(extension := Some(ValueModule(arg.proc))))
    ensures arg.ModuleArg? ==> r == Ok(n.(extension := Some(Module(arg.id))))
    ensures arg.OtherArg? ==> r == Err(ExtensionNotModule)
  {
    match arg
    case ProcArg(p) => Ok(n.(extension := Some(ValueModule(p))))
    case ModuleArg(m) => Ok(n.(extension := Some(Module(m))))
    case OtherArg => Err(ExtensionNotModule)
  }

  /** The options of `Rule#parse` (rule.rb:59-64). */
  datatype Options = Options(consume: bool, memoize: bool, offset: nat)

  const DefaultOptions: Options := Options(true, false, 0)

  /** `needs_paren?` (rule.rb:120-122): a nonterminal with more than one sub-rule. */
  predicate NeedsParen(k: Kind)
  {
    k.IsNonterminal() && |Subs(k)| > 1
  }

  /**
   * `to_s` (rule.rb:125-131) over a rule's own Citrus notation `citrus`
   * (`to_citrus`, which is not modelled for terminals).
   */
  function ToS(k: Kind, labelText: Option<string>, citrus: string): (s: string)
    ensures labelText.None? ==> s == citrus
    ensures labelText.Some? && !NeedsParen(k) ==> s == labelText.value + ":" + citrus
    ensures labelText.Some? && NeedsParen(k) ==> s == labelText.value + ":(" + citrus + ")"
  {
    match labelText
    case None => citrus
    case Some(l) => l + ":" + (if NeedsParen(k) then "(" + citrus + ")" else citrus)
  }

  /** The first colon of `l:rest`, for a colon-free `l`, is the one after `l`. */
  lemma FirstColon(l: string, rest: string)
    requires ':' !in l
    ensures (l + ":" + rest)[|l|] == ':'
    ensures forall i :: 0 <= i < |l| ==> (l + ":" + rest)[i] != ':'
  {
    forall i | 0 <= i < |l| ensures (l + ":" + rest)[i] != ':' {
      assert (l + ":" + rest)[i] == l[i];
    }
  }

  /**
   * A labelled rule's text determines its label and its notation, for labels
   * without a colon: the label is everything before the first `:`.
   */
  lemma ToSInjective(k: Kind, l1: string, l2: string, c1: string, c2: string)
    requires ':' !in l1 && ':' !in l2
    requires ToS(k, Some(l1), c1) == ToS(k, Some(l2), c2)
    ensures l1 == l2 && c1 == c2
  {
    var s := ToS(k, Some(l1), c1);
    FirstColon(l1, if NeedsParen(k) then "(" + c1 + ")" else c1);
    FirstColon(l2, if NeedsParen(k) then "(" + c2 + ")" else c2);
    assert l1 == s[..|l1|] == l2;
    var r1 := if NeedsParen(k) then "(" + c1 + ")" else c1;
    var r2 := if NeedsParen(k) then "(" + c2 + ")" else c2;
    assert r1 == s[|l1| + 1..] == r2;
    if NeedsParen(k) {
      assert c1 == r1[1..|r1| - 1] && c2 == r2[1..|r2| - 1];
    }
  }

  // ---------------------------------------------------------------------
  // Repeat#operator
  // ---------------------------------------------------------------------

  /** One side of "N*M": blank for 0 and for Infinity (repeat.rb:75). */
  function BoundText(b: Bound): (s: string)
    ensures forall i :: 0 <= i < |s| ==> IsDigit(s[i])
    ensures s == "" <==> (b.Infinity? || b.n == 0)
  {
    if b.Infinity? || b.n == 0 then "" else NatToString(b.n)
  }

  /** `Repeat#operator` (repeat.rb:69-77). */
  function Operator(min: nat, max: Bound): string
  {
    if min == 0 && max == Finite(0) then ""
    else if min == 0 && max == Finite(1) then "?"
    else if min == 1 && max == Infinity then "+"
    else BoundText(Finite(min)) + "*" + BoundText(max)
  }

  /** The index of the first '*' in `s`, or |s|. */
  function StarAt(s: string): (i: nat)
    ensures i <= |s| && (i < |s| ==> s[i] == '*') && forall j :: 0 <= j < i ==> s[j] != '*'
  {
    if s == [] then 0 else if s[0] == '*' then 0 else 1 + StarAt(s[1..])
  }

  predicate AllDigits(s: string) { forall i :: 0 <= i < |s| ==> IsDigit(s[i]) }

  /** Reads an operator back into its bounds: the inverse of `Operator` on valid bounds. */
  function ParseOperator(s: string): Option<(nat, Bound)>
  {
    if s == "" then Some((0, Finite(0)))
    else if s == "?" then Some((0, Finite(1)))
    else if s == "+" then Some((1, Infinity))
    else
      var i := StarAt(s);
      if i == |s| then None
      else
        var l, r := s[..i], s[i + 1..];
        if !AllDigits(l) || !AllDigits(r) then None
        else Some((if l == "" then 0 else DecimalValue(l), if r == "" then Infinity else Finite(DecimalValue(r))))
  }

  /** "N*M" with digit strings on both sides reads back as those two numbers. */
  lemma ParseStarred(l: string, r: string)
    requires AllDigits(l) && AllDigits(r)
    ensures ParseOperator(l + "*" + r)
         == Some((if l == "" then 0 else DecimalValue(l), if r == "" then Infinity else Finite(DecimalValue(r))))
  {
    var op := l + "*" + r;
    assert forall j :: 0 <= j < |l| ==> op[j] == l[j] && op[j] != '*';
    assert op[|l|] == '*';
    assert StarAt(op) == |l|;
    assert op[..|l|] == l && op[|l| + 1..] == r;
    assert op != "" && op != "?" && op != "+" by {
      assert |op| >= 1 && (|op| == 1 ==> op[0] == '*');
    }
  }

  /** Every valid pair of bounds has a distinct operator: `Operator` loses nothing. */
  lemma OperatorRoundTrip(min: nat, max: Bound)
    requires !MinExceeds(min, max)
    ensures ParseOperator(Operator(min, max)) == Some((min, max))
  {
    if !(min == 0 && max == Finite(0)) && !(min == 0 && max == Finite(1)) && !(min == 1 && max == Infinity) {
      var l, r := BoundText(Finite(min)), BoundText(max);
      ParseStarred(l, r);
      if l != "" { DecimalRoundTrip(min); }
      if r != "" { DecimalRoundTrip(max.n); }
    }
  }
}
