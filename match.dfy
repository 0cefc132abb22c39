/**
 * `Citrus::Match` (lib/citrus/match.rb): a match over a slice of the input,
 * described by the flat event stream of the rule that made it.
 *
 * The constructor strips the leading elided markers of its stream and
 * records the extension modules it applies. `process_events!` is the stack
 * machine that finds the immediate sub-matches and the named captures. It is
 * proved against trees: for a stream `Flatten(t)` the sub-matches are the
 * children of `t` at the offsets their earlier siblings add up to, and the
 * captures are the descendants not hidden under a proxy, in the order in
 * which they close.
 *
 * A sub-match is represented by the arguments `Match.new` is given for it
 * (`Sub`: its slice of the events and its offset), and a capture refers to
 * this match itself (`Self`) or to such a sub-match.
 */
module Matches {
  import opened Base
  import opened Events
  import opened Rules
  import opened Grammars

  // ---------------------------------------------------------------------
  // What the decoder asks of a rule
  // ---------------------------------------------------------------------

  /** `elide?`, `Proxy#rule_name` (proxies only), `label`, and the modules `extend_match` applies, in order. */
  datatype RuleInfo = RuleInfo(elide: bool, proxyName: Option<string>, tag: Option<string>, extensions: seq<Extension>)

  /** The information of rule `r`; a rule outside the table is a plain rule (only the default stream's `Rule.for(string)` is). */
  function InfoAt(infos: seq<RuleInfo>, r: RuleId): RuleInfo
  {
    if r < |infos| then infos[r] else RuleInfo(false, None, None, [])
  }

  /**
   * The decoder's view of a registry rule, following at most `|rules|`
   * proxies: `elide?` is a Choice's, and a proxy borrows its target's answer
   * and extensions before its own (proxy.rb:42-51).
   */
  function InfoOf(gs: seq<GrammarData>, rules: seq<RuleNode>, memo: map<RuleId, RuleId>, id: RuleId): (i: RuleInfo)
    requires ValidWorld(gs, rules, memo) && id < |rules|
    ensures !rules[id].kind.IsProxy() ==>
      i == RuleInfo(rules[id].kind.Choice?, None, rules[id].labelText, OwnExtensions(rules[id]))
    ensures rules[id].kind.IsProxy() ==> i.proxyName == Some(rules[id].kind.ruleName) && i.tag == rules[id].labelText
    ensures i.elide <==> ElideOf(gs, rules, memo, id, |rules|) == Some(true)
  {
    var k := rules[id].kind;
    RuleInfo(
      ElideOf(gs, rules, memo, id, |rules|) == Some(true),
      if k.IsProxy() then Some(k.ruleName) else None,
      rules[id].labelText,
      match ExtensionsOf(gs, rules, memo, id, |rules|)
      case Some(es) => es
      case None => [])
  }

  /** The decoder's view of every rule of a registry. */
  function InfoTable(gs: seq<GrammarData>, rules: seq<RuleNode>, memo: map<RuleId, RuleId>): (t: seq<RuleInfo>)
    requires ValidWorld(gs, rules, memo)
    ensures |t| == |rules|
    ensures forall i :: 0 <= i < |rules| ==> t[i] == InfoOf(gs, rules, memo, i)
  {
    seq(|rules|, i requires 0 <= i < |rules| && ValidWorld(gs, rules, memo) => InfoOf(gs, rules, memo, i))
  }

  // ---------------------------------------------------------------------
  // Trees the decoder understands
  // ---------------------------------------------------------------------

  /**
   * Every match with children is exactly as long as they are together, as
   * every rule that records children makes it (Sequence, Repeat, Choice and
   * the proxies over them).
   */
  predicate Consistent(t: Tree)
    decreases t, 1
  {
    (t.kids != [] ==> t.len == SumLens(t.kids)) && ConsistentAll(t.kids)
  }

  predicate ConsistentAll(ts: seq<Tree>)
    decreases ts, 0
  {
    ts == [] || (Consistent(ts[0]) && ConsistentAll(ts[1..]))
  }

  /** A child match, by what `Match.new` is given for it. */
  datatype Sub = Sub(events: seq<Event>, offset: nat)

  /** What a capture refers to. */
  datatype MatchRef = Self | Child(sub: Sub)

  /** The immediate sub-matches of `kids`, the first starting at `start` in the match and the match at `base` in the input. */
  function ChildSubs(kids: seq<Tree>, start: nat, base: nat): (subs: seq<Sub>)
    ensures |subs| == |kids|
  {
    if kids == [] then [] else [Sub(Flatten(kids[0]), base + start)] + ChildSubs(kids[1..], start + kids[0].len, base)
  }

  /**
   * The captured matches below and including `t`, which is itself captured
   * and starts at `start`, in the order in which they close; nothing under
   * a proxy is captured (match.rb:231-239).
   */
  function Log(infos: seq<RuleInfo>, t: Tree, start: nat, base: nat): seq<(RuleId, MatchRef)>
    decreases t, 1
  {
    (if InfoAt(infos, t.rule).proxyName.Some? then [] else LogAll(infos, t.kids, start, base))
      + [(t.rule, Child(Sub(Flatten(t), base + start)))]
  }

  function LogAll(infos: seq<RuleInfo>, kids: seq<Tree>, start: nat, base: nat): seq<(RuleId, MatchRef)>
    decreases kids, 0
  {
    if kids == [] then [] else Log(infos, kids[0], start, base) + LogAll(infos, kids[1..], start + kids[0].len, base)
  }

  /** Append `m` to the captures under `key`. */
  function AddCapture(named: map<string, seq<MatchRef>>, key: string, m: MatchRef): map<string, seq<MatchRef>>
  {
    named[key := (if key in named then named[key] else []) + [m]]
  }

  /** `capture!(rule, match)` (match.rb:246-266): under the proxy's rule name, then under the label. */
  function Capture(infos: seq<RuleInfo>, named: map<string, seq<MatchRef>>, r: RuleId, m: MatchRef): map<string, seq<MatchRef>>
  {
    var info := InfoAt(infos, r);
    var byName := if info.proxyName.Some? then AddCapture(named, info.proxyName.value, m) else named;
    if info.tag.Some? then AddCapture(byName, info.tag.value, m) else byName
  }

  function CaptureAll(infos: seq<RuleInfo>, named: map<string, seq<MatchRef>>, log: seq<(RuleId, MatchRef)>): map<string, seq<MatchRef>>
    decreases |log|
  {
    if log == [] then named else CaptureAll(infos, Capture(infos, named, log[0].0, log[0].1), log[1..])
  }

  /** The named captures of a match over `Flatten(t)` at `base`: itself first, then its descendants. */
  function CapturesOf(infos: seq<RuleInfo>, t: Tree, base: nat): map<string, seq<MatchRef>>
  {
    CaptureAll(infos, Capture(infos, map[], t.rule, Self), LogAll(infos, t.kids, 0, base))
  }

  lemma {:induction false} CaptureAllAppend(infos: seq<RuleInfo>, named: map<string, seq<MatchRef>>, a: seq<(RuleId, MatchRef)>, b: seq<(RuleId, MatchRef)>)
    ensures CaptureAll(infos, named, a + b) == CaptureAll(infos, CaptureAll(infos, named, a), b)
    decreases |a|
  {
    if a == [] {
      assert a + b == b;
    } else {
      assert (a + b)[0] == a[0];
      assert (a + b)[1..] == a[1..] + b;
      CaptureAllAppend(infos, Capture(infos, named, a[0].0, a[0].1), a[1..], b);
    }
  }

  // ---------------------------------------------------------------------
  // The stack machine of process_events! (match.rb:180-244)
  // ---------------------------------------------------------------------

  /**
   * What one rule event leaves on the stack: its index alone, or for a
   * captured rule its index, its offset and the rule. The source keeps these
   * items in one flat array; `Size` is that array's length.
   */
  datatype Frame = Plain(index: nat) | Captured(index: nat, offset: nat, rule: RuleId)

  function FrameSize(f: Frame): nat
  {
    if f.Plain? then 1 else 3
  }

  function Size(s: seq<Frame>): nat
  {
    if s == [] then 0 else Size(s[..|s| - 1]) + FrameSize(s[|s| - 1])
  }

  /** The decoder's state: the local variables of `process_events!` and the two collections it fills. */
  datatype Walk = Walk(index: nat, stack: seq<Frame>, offset: nat, close: bool, last: Option<nat>, capture: bool,
                       matches: seq<Sub>, named: map<string, seq<MatchRef>>)

  /** The stream being decoded, with the rule table and the match's own offset. */
  datatype Ctx = Ctx(infos: seq<RuleInfo>, evs: seq<Event>, base: nat)

  /** Where the next rule event starts: `offset` plus a pending `last_length`. */
  function Cursor(w: Walk): nat
  {
    w.offset + (if w.last.Some? then w.last.value else 0)
  }

  /** A rule event: push it, and capture it unless an enclosing proxy masks it or it is the match's own rule. */
  function Opened(cx: Ctx, w: Walk, r: RuleId): Walk
  {
    var off := Cursor(w);
    if w.capture && Size(w.stack) + 1 != 1 then
      w.(stack := w.stack + [Captured(w.index, off, r)], offset := off, last := None,
         capture := InfoAt(cx.infos, r).proxyName.None?)
    else
      w.(stack := w.stack + [Plain(w.index)], offset := off, last := None)
  }

  /** The match a captured frame makes when its length arrives at `index`: `Match.new(input, events[start..index], offset + os)`. */
  function Made(cx: Ctx, f: Frame, index: nat): Sub
    requires f.Captured? && index < |cx.evs|
  {
    Sub(if f.index <= index then cx.evs[f.index..index + 1] else [], cx.base + f.offset)
  }

  /** The length after a CLOSE: pop the closing rule and, if it was captured, create and record its match. */
  function Closed(cx: Ctx, w: Walk, ev: Event): Walk
    requires w.index < |cx.evs|
  {
    var popped :=
      if w.stack == [] then w
      else
        var f := w.stack[|w.stack| - 1];
        var rest := w.stack[..|w.stack| - 1];
        if f.Plain? then w.(stack := rest)
        else
          var m := Made(cx, f, w.index);
          w.(stack := rest, named := Capture(cx.infos, w.named, f.rule, Child(m)),
             matches := if Size(rest) == 1 then w.matches + [m] else w.matches, capture := true);
    popped.(last := if w.last.Some? || !ev.Len? then w.last else Some(ev.n), close := false)
  }

  /**
   * One iteration of the loop. A length outside a close does not occur in a
   * stream of whole matches, and is skipped.
   */
  function Step(cx: Ctx, w: Walk): (r: Walk)
    requires w.index < |cx.evs|
    ensures r.index == w.index + 1
  {
    var ev := cx.evs[w.index];
    var next :=
      if w.close then Closed(cx, w, ev)
      else if ev.Close? then w.(close := true)
      else if ev.Ref? then Opened(cx, w, ev.rule)
      else w;
    next.(index := w.index + 1)
  }

  /** `n` iterations of the loop. */
  function Run(cx: Ctx, w: Walk, n: nat): (r: Walk)
    requires w.index + n <= |cx.evs|
    ensures r.index == w.index + n
    decreases n
  {
    if n == 0 then w else Run(cx, Step(cx, w), n - 1)
  }

  lemma {:induction false} RunAdd(cx: Ctx, w: Walk, a: nat, b: nat)
    requires w.index + a + b <= |cx.evs|
    ensures Run(cx, w, a + b) == Run(cx, Run(cx, w, a), b)
    decreases a
  {
    if a > 0 {
      RunAdd(cx, Step(cx, w), a - 1, b);
    }
  }

  lemma {:induction false} RunSnoc(cx: Ctx, w: Walk, n: nat)
    requires w.index + n + 1 <= |cx.evs|
    ensures Run(cx, w, n + 1) == Step(cx, Run(cx, w, n))
  {
    RunAdd(cx, w, n, 1);
  }

  lemma {:induction false} SizeSnoc(s: seq<Frame>, f: Frame)
    ensures Size(s + [f]) == Size(s) + FrameSize(f)
  {
    assert (s + [f])[..|s|] == s;
  }

  lemma {:induction false} SizeZero(s: seq<Frame>)
    ensures Size(s) == 0 <==> s == []
  {
  }

  /** A rule event opens a frame: captured unless the capture flag is off or the stack is empty. */
  lemma {:induction false} OpenStep(cx: Ctx, w: Walk, r: RuleId)
    requires w.index < |cx.evs| && cx.evs[w.index] == Ref(r) && !w.close
    ensures var c := w.capture && w.stack != []; var w1 := Step(cx, w);
      && w1.index == w.index + 1 && !w1.close && w1.offset == Cursor(w) && w1.last.None?
      && w1.stack == w.stack + [if c then Captured(w.index, Cursor(w), r) else Plain(w.index)]
      && w1.capture == (if c then InfoAt(cx.infos, r).proxyName.None? else w.capture)
      && w1.matches == w.matches && w1.named == w.named
  {
    SizeZero(w.stack);
  }

  /** A CLOSE only raises the flag. */
  lemma {:induction false} CloseStep(cx: Ctx, w: Walk)
    requires w.index < |cx.evs| && cx.evs[w.index] == Close && !w.close
    ensures Step(cx, w) == w.(close := true, index := w.index + 1)
  {
  }

  /** The length after a CLOSE pops the top frame and, for a captured one, records its match. */
  lemma {:induction false} LenStep(cx: Ctx, w: Walk, rest: seq<Frame>, f: Frame, n: nat)
    requires w.index < |cx.evs| && cx.evs[w.index] == Len(n) && w.close && w.stack == rest + [f]
    ensures var w1 := Step(cx, w);
      var m := if f.Captured? then Made(cx, f, w.index) else Sub([], 0);
      && w1.index == w.index + 1 && !w1.close && w1.stack == rest && w1.offset == w.offset
      && w1.last == (if w.last.Some? then w.last else Some(n))
      && w1.capture == (if f.Captured? then true else w.capture)
      && w1.named == (if f.Captured? then Capture(cx.infos, w.named, f.rule, Child(m)) else w.named)
      && w1.matches == (if f.Captured? && Size(rest) == 1 then w.matches + [m] else w.matches)
  {
    assert w.stack[..|w.stack| - 1] == rest;
  }

  lemma {:induction false} RunOne(cx: Ctx, w: Walk)
    requires w.index < |cx.evs|
    ensures Run(cx, w, 1) == Step(cx, w)
  {
  }

  /** Where the events of one tree lie inside the stream. */
  lemma {:induction false} FlattenParts(evs: seq<Event>, i: nat, t: Tree)
    requires i + |Flatten(t)| <= |evs| && evs[i..i + |Flatten(t)|] == Flatten(t)
    ensures var n := |FlattenAll(t.kids)|;
      && |Flatten(t)| == n + 3 && evs[i] == Ref(t.rule)
      && evs[i + 1..i + 1 + n] == FlattenAll(t.kids)
      && evs[i + 1 + n] == Close && evs[i + 2 + n] == Len(t.len)
  {
    var f := Flatten(t);
    var n := |FlattenAll(t.kids)|;
    assert |f| == n + 3;
    var s := evs[i..i + |f|];
    assert evs[i] == s[0] == f[0];
    assert f[1..1 + n] == FlattenAll(t.kids);
    SliceSlice(evs, i, i + |f|, 1, 1 + n);
    assert evs[i + 1 + n] == s[1 + n] == f[1 + n];
    assert evs[i + 2 + n] == s[2 + n] == f[2 + n];
  }

  /** Where the events of the first tree of a forest, and of the rest, lie inside the stream. */
  lemma {:induction false} FlattenAllParts(evs: seq<Event>, i: nat, kids: seq<Tree>)
    requires kids != []
    requires i + |FlattenAll(kids)| <= |evs| && evs[i..i + |FlattenAll(kids)|] == FlattenAll(kids)
    ensures var a := |Flatten(kids[0])|; var b := |FlattenAll(kids[1..])|;
      && |FlattenAll(kids)| == a + b
      && evs[i..i + a] == Flatten(kids[0]) && evs[i + a..i + a + b] == FlattenAll(kids[1..])
  {
    var f := FlattenAll(kids);
    var a := |Flatten(kids[0])|;
    var s := evs[i..i + |f|];
    assert f == Flatten(kids[0]) + FlattenAll(kids[1..]);
    assert evs[i..i + a] == s[..a] == f[..a];
    assert evs[i + a..i + |f|] == s[a..] == f[a..];
  }

  /**
   * The effect of decoding the events of one whole tree `t` from a state
   * `w` between two events of its parent: the stack, the capture flag and
   * the pending close stay as they were and the cursor moves past the tree.
   * The tree's match joins the sub-matches when it is an immediate child,
   * and its children's when it is the match's own tree. The captured
   * matches of the tree are recorded in the order they close: all of them
   * for a captured tree, its children's subtrees for the match's own tree.
   */
  ghost predicate WalkedTree(cx: Ctx, t: Tree, w: Walk, w': Walk)
  {
    var c := w.capture && w.stack != [];
    var start := Cursor(w);
    && w'.stack == w.stack && !w'.close && w'.capture == w.capture
    && w'.last.Some? && Cursor(w') == start + t.len
    && w'.matches == w.matches + (if c && Size(w.stack) == 1 then [Sub(Flatten(t), cx.base + start)] else [])
                               + (if w.capture && w.stack == [] then ChildSubs(t.kids, start, cx.base) else [])
    && w'.named == CaptureAll(cx.infos, w.named,
         if c then Log(cx.infos, t, start, cx.base)
         else if w.capture then LogAll(cx.infos, t.kids, start, cx.base)
         else [])
  }

  /** The effect of decoding a forest of siblings, inside an open frame (see `WalkedTree`). */
  ghost predicate WalkedKids(cx: Ctx, kids: seq<Tree>, w: Walk, w': Walk)
  {
    var start := Cursor(w);
    && w'.stack == w.stack && !w'.close && w'.capture == w.capture
    && w'.last.Some? && Cursor(w') == start + SumLens(kids)
    && w'.matches == w.matches + (if w.capture && Size(w.stack) == 1 then ChildSubs(kids, start, cx.base) else [])
    && w'.named == CaptureAll(cx.infos, w.named, if w.capture then LogAll(cx.infos, kids, start, cx.base) else [])
  }

  /** Decoding the events of one whole tree has the effect `WalkedTree` describes. */
  lemma {:induction false} TreeWalk(cx: Ctx, t: Tree, w: Walk)
    requires Consistent(t) && !w.close
    requires w.index + |Flatten(t)| <= |cx.evs| && cx.evs[w.index..w.index + |Flatten(t)|] == Flatten(t)
    ensures WalkedTree(cx, t, w, Run(cx, w, |Flatten(t)|))
    decreases t, 1
  {
    var n := |FlattenAll(t.kids)|;
    FlattenParts(cx.evs, w.index, t);
    OpenStep(cx, w, t.rule);
    RunOne(cx, w);
    var w1 := Step(cx, w);
    RunAdd(cx, w, 1, n + 2);
    var w2 := Run(cx, w1, n);
    if t.kids != [] {
      KidsWalk(cx, t.kids, w1);
    }
    RunAdd(cx, w1, n, 2);
    TreeWalkClose(cx, t, w, w1, w2);
    TreeCombine(cx, t, w, w1, w2, Run(cx, w2, 2));
  }

  /** The CLOSE and the length that end a tree: pop its frame and, if it was captured, record its match. */
  lemma {:induction false} TreeWalkClose(cx: Ctx, t: Tree, w: Walk, w1: Walk, w2: Walk)
    requires w.index + |Flatten(t)| <= |cx.evs| && cx.evs[w.index..w.index + |Flatten(t)|] == Flatten(t)
    requires var n := |FlattenAll(t.kids)|;
      && |Flatten(t)| == n + 3 && w2.index == w.index + 1 + n
      && cx.evs[w.index + 1 + n] == Close && cx.evs[w.index + 2 + n] == Len(t.len)
    requires var c := w.capture && w.stack != [];
      w2.stack == w.stack + [if c then Captured(w.index, Cursor(w), t.rule) else Plain(w.index)]
    requires !w2.close
    ensures var c := w.capture && w.stack != []; var w4 := Run(cx, w2, 2);
      var m := Sub(Flatten(t), cx.base + Cursor(w));
      && w4.stack == w.stack && !w4.close && w4.offset == w2.offset
      && w4.last == (if w2.last.Some? then w2.last else Some(t.len))
      && w4.capture == (if c then true else w2.capture)
      && w4.named == (if c then Capture(cx.infos, w2.named, t.rule, Child(m)) else w2.named)
      && w4.matches == (if c && Size(w.stack) == 1 then w2.matches + [m] else w2.matches)
  {
    var f := w2.stack[|w2.stack| - 1];
    CloseStep(cx, w2);
    var w3 := Step(cx, w2);
    LenStep(cx, w3, w.stack, f, t.len);
    assert Run(cx, w2, 2) == Step(cx, w3);
    if f.Captured? {
      assert Made(cx, f, w3.index) == Sub(Flatten(t), cx.base + Cursor(w));
    }
  }

  /** The sub-matches part of `TreeCombine`. */
  lemma TreeCombineMatches(cx: Ctx, t: Tree, w: Walk, w1: Walk, w2: Walk, w4: Walk)
    requires var c := w.capture && w.stack != [];
      && w1.stack == w.stack + [if c then Captured(w.index, Cursor(w), t.rule) else Plain(w.index)]
      && w1.capture == (if c then InfoAt(cx.infos, t.rule).proxyName.None? else w.capture)
      && w1.matches == w.matches
    requires t.kids == [] ==> w2.matches == w1.matches
    requires t.kids != [] ==> w2.matches == w1.matches + (if w1.capture && Size(w1.stack) == 1 then ChildSubs(t.kids, Cursor(w), cx.base) else [])
    requires var c := w.capture && w.stack != []; var m := Sub(Flatten(t), cx.base + Cursor(w));
      w4.matches == (if c && Size(w.stack) == 1 then w2.matches + [m] else w2.matches)
    ensures var c := w.capture && w.stack != []; var start := Cursor(w);
      w4.matches == w.matches + (if c && Size(w.stack) == 1 then [Sub(Flatten(t), cx.base + start)] else [])
                              + (if w.capture && w.stack == [] then ChildSubs(t.kids, start, cx.base) else [])
  {
    var c := w.capture && w.stack != [];
    var f := if c then Captured(w.index, Cursor(w), t.rule) else Plain(w.index);
    SizeSnoc(w.stack, f);
    SizeZero(w.stack);
    if t.kids == [] {
      assert ChildSubs(t.kids, Cursor(w), cx.base) == [];
    }
  }

  /** The named-captures part of `TreeCombine`. */
  lemma TreeCombineNamed(cx: Ctx, t: Tree, w: Walk, w1: Walk, w2: Walk, w4: Walk)
    requires var c := w.capture && w.stack != [];
      && w1.capture == (if c then InfoAt(cx.infos, t.rule).proxyName.None? else w.capture)
      && w1.named == w.named
    requires t.kids == [] ==> w2.named == w1.named
    requires t.kids != [] ==> w2.named == CaptureAll(cx.infos, w1.named, if w1.capture then LogAll(cx.infos, t.kids, Cursor(w), cx.base) else [])
    requires var c := w.capture && w.stack != []; var m := Sub(Flatten(t), cx.base + Cursor(w));
      w4.named == (if c then Capture(cx.infos, w2.named, t.rule, Child(m)) else w2.named)
    ensures var c := w.capture && w.stack != []; var start := Cursor(w);
      w4.named == CaptureAll(cx.infos, w.named,
         if c then Log(cx.infos, t, start, cx.base)
         else if w.capture then LogAll(cx.infos, t.kids, start, cx.base)
         else [])
  {
    var c := w.capture && w.stack != [];
    var start := Cursor(w);
    var m := Sub(Flatten(t), cx.base + start);
    var logKids := if w1.capture then LogAll(cx.infos, t.kids, start, cx.base) else [];
    if t.kids == [] {
      assert logKids == [];
    }
    assert w2.named == CaptureAll(cx.infos, w.named, logKids);
    if c {
      CaptureAllAppend(cx.infos, w.named, logKids, [(t.rule, Child(m))]);
      assert Log(cx.infos, t, start, cx.base) == logKids + [(t.rule, Child(m))];
    }
  }

  /** Putting together the effects of the marker, the children and the close of one tree. */
  lemma TreeCombine(cx: Ctx, t: Tree, w: Walk, w1: Walk, w2: Walk, w4: Walk)
    requires Consistent(t)
    requires var c := w.capture && w.stack != [];
      && w1.stack == w.stack + [if c then Captured(w.index, Cursor(w), t.rule) else Plain(w.index)]
      && w1.capture == (if c then InfoAt(cx.infos, t.rule).proxyName.None? else w.capture)
      && w1.offset == Cursor(w) && w1.last.None? && w1.matches == w.matches && w1.named == w.named
    requires t.kids == [] ==>
      (w2.stack == w1.stack && w2.capture == w1.capture && w2.offset == w1.offset
       && w2.last == w1.last && w2.matches == w1.matches && w2.named == w1.named)
    requires t.kids != [] ==> WalkedKids(cx, t.kids, w1, w2)
    requires var c := w.capture && w.stack != []; var m := Sub(Flatten(t), cx.base + Cursor(w));
      && w4.stack == w.stack && !w4.close && w4.offset == w2.offset
      && w4.last == (if w2.last.Some? then w2.last else Some(t.len))
      && w4.capture == (if c then true else w2.capture)
      && w4.named == (if c then Capture(cx.infos, w2.named, t.rule, Child(m)) else w2.named)
      && w4.matches == (if c && Size(w.stack) == 1 then w2.matches + [m] else w2.matches)
    ensures WalkedTree(cx, t, w, w4)
  {
    TreeCombineMatches(cx, t, w, w1, w2, w4);
    TreeCombineNamed(cx, t, w, w1, w2, w4);
  }

  /** Decoding the events of a forest of siblings has the effect `WalkedKids` describes. */
  lemma {:induction false} KidsWalk(cx: Ctx, kids: seq<Tree>, w: Walk)
    requires kids != [] && ConsistentAll(kids) && !w.close && w.stack != []
    requires w.index + |FlattenAll(kids)| <= |cx.evs| && cx.evs[w.index..w.index + |FlattenAll(kids)|] == FlattenAll(kids)
    ensures WalkedKids(cx, kids, w, Run(cx, w, |FlattenAll(kids)|))
    decreases kids, 0
  {
    var a := |Flatten(kids[0])|;
    var b := |FlattenAll(kids[1..])|;
    FlattenAllParts(cx.evs, w.index, kids);
    TreeWalk(cx, kids[0], w);
    var w1 := Run(cx, w, a);
    RunAdd(cx, w, a, b);
    if kids[1..] != [] {
      KidsWalk(cx, kids[1..], w1);
    }
    KidsCombine(cx, kids, w, w1, Run(cx, w1, b));
  }

  /** Putting together the effects of the first tree of a forest and of the rest. */
  lemma {:induction false} KidsCombine(cx: Ctx, kids: seq<Tree>, w: Walk, w1: Walk, w2: Walk)
    requires kids != [] && w.stack != []
    requires WalkedTree(cx, kids[0], w, w1)
    requires kids[1..] == [] ==> w2 == w1
    requires kids[1..] != [] ==> WalkedKids(cx, kids[1..], w1, w2)
    ensures WalkedKids(cx, kids, w, w2)
  {
    var k := kids[0];
    var rest := kids[1..];
    var start := Cursor(w);
    var top := w.capture && Size(w.stack) == 1;
    var here := if top then [Sub(Flatten(k), cx.base + start)] else [];
    var logK := if w.capture then Log(cx.infos, k, start, cx.base) else [];
    var restSubs := if top then ChildSubs(rest, start + k.len, cx.base) else [];
    var restLog := if w.capture then LogAll(cx.infos, rest, start + k.len, cx.base) else [];
    assert w1.matches == w.matches + here;
    assert w1.named == CaptureAll(cx.infos, w.named, logK);
    if rest == [] {
      assert restSubs == [] && restLog == [];
    }
    assert w2.matches == w1.matches + restSubs;
    assert w2.named == CaptureAll(cx.infos, w1.named, restLog);
    AppendAssoc(w.matches, here, restSubs);
    CaptureAllAppend(cx.infos, w.named, logK, restLog);
    assert here + restSubs == (if top then ChildSubs(kids, start, cx.base) else []);
    assert logK + restLog == (if w.capture then LogAll(cx.infos, kids, start, cx.base) else []);
  }

  /**
   * The length that follows a CLOSE (match.rb:195-215): pop the closing
   * rule's frame; for a captured rule create its match, record it, and add it
   * to the sub-matches when it is an immediate child; then keep the first
   * pending length.
   */
  method PopMatch(cx: Ctx, w: Walk, event: Event)
      returns (stack: seq<Frame>, last: Option<nat>, capture: bool, matches: seq<Sub>, named: map<string, seq<MatchRef>>)
    requires w.index < |cx.evs| && w.close && event == cx.evs[w.index]
    ensures Closed(cx, w, event) == w.(stack := stack, last := last, capture := capture, matches := matches,
                                       named := named, close := false)
  {
    stack, last, capture, matches, named := w.stack, w.last, w.capture, w.matches, w.named;
    if stack != [] {
      var f := stack[|stack| - 1];
      stack := stack[..|stack| - 1];
      if f.Captured? {
        var m := Made(cx, f, w.index);
        named := Capture(cx.infos, named, f.rule, Child(m));
        if Size(stack) == 1 {
          matches := matches + [m];
        }
        capture := true;
      }
    }
    if last.None? && event.Len? {
      last := Some(event.n);
    }
  }

  /** The state `process_events!` starts from, after `capture!(@events[0], self)`. */
  function Start(infos: seq<RuleInfo>, t: Tree): Walk
  {
    Walk(0, [], 0, false, None, true, [], Capture(infos, map[], t.rule, Self))
  }

  /** Decoding a whole match: its immediate sub-matches and its named captures. */
  lemma {:induction false} Decodes(infos: seq<RuleInfo>, t: Tree, base: nat)
    requires Consistent(t)
    ensures var w := Run(Ctx(infos, Flatten(t), base), Start(infos, t), |Flatten(t)|);
      w.matches == ChildSubs(t.kids, 0, base) && w.named == CapturesOf(infos, t, base)
  {
    var cx := Ctx(infos, Flatten(t), base);
    assert cx.evs[0..|Flatten(t)|] == Flatten(t);
    TreeWalk(cx, t, Start(infos, t));
  }

  /**
   * `process_events!` (match.rb:180-244) over the stream of a match at
   * `base`: the immediate sub-matches and the named captures.
   */
  method ProcessEvents(infos: seq<RuleInfo>, evs: seq<Event>, base: nat, ghost t: Tree)
      returns (matches: seq<Sub>, named: map<string, seq<MatchRef>>)
    requires evs == Flatten(t) && Consistent(t)
    ensures matches == ChildSubs(t.kids, 0, base)
    ensures named == CapturesOf(infos, t, base)
  {
    var cx := Ctx(infos, evs, base);
    matches := [];
    named := Capture(infos, map[], evs[0].rule, Self);
    var stack: seq<Frame> := [];
    var offset: nat := 0;
    var close := false;
    var index: nat := 0;
    var last: Option<nat> := None;
    var capture := true;
    ghost var cur := Start(infos, t);
    while index < |evs|
      invariant index <= |evs| && cur == Run(cx, Start(infos, t), index)
      invariant cur.index == index && cur.stack == stack && cur.offset == offset && cur.close == close
      invariant cur.last == last && cur.capture == capture && cur.matches == matches && cur.named == named
    {
      RunSnoc(cx, Start(infos, t), index);
      var event := evs[index];
      if close {
        stack, last, capture, matches, named := PopMatch(cx, Walk(index, stack, offset, close, last, capture, matches, named), event);
        close := false;
      } else if event.Close? {
        close := true;
      } else if event.Ref? {
        if last.Some? {
          offset := offset + last.value;
          last := None;
        }
        if capture && Size(stack) + 1 != 1 {
          stack := stack + [Captured(index, offset, event.rule)];
          if InfoAt(infos, event.rule).proxyName.Some? {
            capture := false;
          }
        } else {
          stack := stack + [Plain(index)];
        }
      }
      cur := Step(cx, cur);
      index := index + 1;
    }
    Decodes(infos, t, base);
  }

  // ---------------------------------------------------------------------
  // What the decoded collections say
  // ---------------------------------------------------------------------

  /** The i-th sub-match is the i-th child, at the parent's offset plus the lengths of the siblings before it. */
  lemma {:induction false} ChildSubsAt(kids: seq<Tree>, start: nat, base: nat, i: nat)
    requires i < |kids|
    ensures ChildSubs(kids, start, base)[i] == Sub(Flatten(kids[i]), base + start + SumLens(kids[..i]))
    decreases i
  {
    if i > 0 {
      ChildSubsAt(kids[1..], start + kids[0].len, base, i - 1);
      assert kids[1..][i - 1] == kids[i];
      assert kids[..i] == [kids[0]] + kids[1..][..i - 1];
      assert SumLens(kids[..i]) == kids[0].len + SumLens(kids[1..][..i - 1]);
    }
  }

  /** The sub-matches' events, put back between the match's marker and its close, are the match's own events. */
  lemma {:induction false} ChildSubsReassemble(kids: seq<Tree>, start: nat, base: nat)
    ensures EventsOf(ChildSubs(kids, start, base)) == FlattenAll(kids)
  {
    if kids != [] {
      ChildSubsReassemble(kids[1..], start + kids[0].len, base);
    }
  }

  function EventsOf(subs: seq<Sub>): seq<Event>
  {
    if subs == [] then [] else subs[0].events + EventsOf(subs[1..])
  }

  /** Captures only ever grow: a match recorded under a key stays there. */
  lemma {:induction false} CaptureAllKeeps(infos: seq<RuleInfo>, named: map<string, seq<MatchRef>>, log: seq<(RuleId, MatchRef)>, key: string, m: MatchRef)
    requires key in named && m in named[key]
    ensures var r := CaptureAll(infos, named, log); key in r && m in r[key]
    decreases |log|
  {
    if log != [] {
      var n1 := Capture(infos, named, log[0].0, log[0].1);
      CaptureKeeps(infos, named, log[0].0, log[0].1, key, m);
      CaptureAllKeeps(infos, n1, log[1..], key, m);
    }
  }

  lemma {:induction false} CaptureKeeps(infos: seq<RuleInfo>, named: map<string, seq<MatchRef>>, r: RuleId, m': MatchRef, key: string, m: MatchRef)
    requires key in named && m in named[key]
    ensures var n := Capture(infos, named, r, m'); key in n && m in n[key]
  {
    var info := InfoAt(infos, r);
    var byName := if info.proxyName.Some? then AddCapture(named, info.proxyName.value, m') else named;
    assert key in byName && m in byName[key];
  }

  /** A logged match made by a proxy or a labelled rule ends up under that name. */
  lemma {:induction false} CaptureAllFinds(infos: seq<RuleInfo>, named: map<string, seq<MatchRef>>, log: seq<(RuleId, MatchRef)>, j: nat, key: string)
    requires j < |log|
    requires InfoAt(infos, log[j].0).proxyName == Some(key) || InfoAt(infos, log[j].0).tag == Some(key)
    ensures var r := CaptureAll(infos, named, log); key in r && log[j].1 in r[key]
    decreases j
  {
    var n1 := Capture(infos, named, log[0].0, log[0].1);
    if j == 0 {
      var info := InfoAt(infos, log[0].0);
      var byName := if info.proxyName.Some? then AddCapture(named, info.proxyName.value, log[0].1) else named;
      assert info.proxyName == Some(key) ==> key in byName && log[0].1 in byName[key];
      assert key in n1 && log[0].1 in n1[key];
      CaptureAllKeeps(infos, n1, log[1..], key, log[0].1);
    } else {
      assert log[1..][j - 1] == log[j];
      CaptureAllFinds(infos, n1, log[1..], j - 1, key);
    }
  }

  /** Each immediate child closes into the log, as its own entry. */
  lemma {:induction false} LogAllHasChild(infos: seq<RuleInfo>, kids: seq<Tree>, start: nat, base: nat, i: nat)
    requires i < |kids|
    ensures exists j :: 0 <= j < |LogAll(infos, kids, start, base)| &&
              LogAll(infos, kids, start, base)[j] == (kids[i].rule, Child(ChildSubs(kids, start, base)[i]))
    decreases i
  {
    var l := LogAll(infos, kids, start, base);
    var first := Log(infos, kids[0], start, base);
    var rest := LogAll(infos, kids[1..], start + kids[0].len, base);
    assert l == first + rest;
    if i == 0 {
      assert l[|first| - 1] == first[|first| - 1];
    } else {
      LogAllHasChild(infos, kids[1..], start + kids[0].len, base, i - 1);
      var j :| 0 <= j < |rest| && rest[j] == (kids[1..][i - 1].rule, Child(ChildSubs(kids[1..], start + kids[0].len, base)[i - 1]));
      assert l[|first| + j] == rest[j];
    }
  }

  /**
   * An immediate child made by a proxy can be looked up by the name of the
   * rule it stands for, and one made by a labelled rule by its label.
   */
  lemma {:induction false} ChildCapturedByName(infos: seq<RuleInfo>, t: Tree, base: nat, i: nat, key: string)
    requires i < |t.kids|
    requires InfoAt(infos, t.kids[i].rule).proxyName == Some(key) || InfoAt(infos, t.kids[i].rule).tag == Some(key)
    ensures var caps := CapturesOf(infos, t, base);
      key in caps && Child(ChildSubs(t.kids, 0, base)[i]) in caps[key]
  {
    LogAllHasChild(infos, t.kids, 0, base, i);
    var log := LogAll(infos, t.kids, 0, base);
    var j :| 0 <= j < |log| && log[j] == (t.kids[i].rule, Child(ChildSubs(t.kids, 0, base)[i]));
    CaptureAllFinds(infos, Capture(infos, map[], t.rule, Self), log, j, key);
  }

  // ---------------------------------------------------------------------
  // Lookups: captures[key] and self[key]
  // ---------------------------------------------------------------------

  /** The keys a caller may look up with. */
  datatype Key = IntKey(i: int) | FloatKey | SymKey(sym: string) | StrKey(str: string) | OtherKey

  /** What a lookup yields: `nil`, one match, or an array of matches. */
  datatype Found = Nil | One(m: MatchRef) | Many(ms: seq<MatchRef>)

  /**
   * `captures[key]` (match.rb:185, 210, 271-282): a name gives the matches
   * recorded under it, or an empty array; a String is folded to its Symbol;
   * 0 gives the match itself and `1..n` the sub-matches; any other number
   * gives `nil`, and any other key an empty array.
   */
  function CaptureLookup(named: map<string, seq<MatchRef>>, subs: seq<Sub>, key: Key): Found
  {
    match key
    case SymKey(s) => Many(if s in named then named[s] else [])
    case StrKey(s) => Many(if s in named then named[s] else [])
    case IntKey(i) => if i == 0 then One(Self) else if 1 <= i <= |subs| then One(Child(subs[i - 1])) else Nil
    case FloatKey => Nil
    case OtherKey => Many([])
  }

  /** `to_a`: the match itself, then its sub-matches. */
  function ToA(subs: seq<Sub>): (a: seq<MatchRef>)
    ensures |a| == |subs| + 1 && a[0] == Self
    ensures forall i :: 0 <= i < |subs| ==> a[i + 1] == Child(subs[i])
  {
    [Self] + seq(|subs|, i requires 0 <= i < |subs| => Child(subs[i]))
  }

  /** `Array#[]` with one Integer: negative indices count from the end, and out of range is `nil`. */
  function ArrayAt(a: seq<MatchRef>, i: int): Found
  {
    if 0 <= i < |a| then One(a[i]) else if -|a| <= i < 0 then One(a[|a| + i]) else Nil
  }

  /** `self[key]` (match.rb:107-114): an Integer indexes `to_a`, anything else looks up the captures. */
  function Index(named: map<string, seq<MatchRef>>, subs: seq<Sub>, key: Key): Found
  {
    if key.IntKey? then ArrayAt(ToA(subs), key.i) else CaptureLookup(named, subs, key)
  }

  /**
   * `self[i]` and `captures[i]` agree for `0 <= i <= n`; a negative index
   * counts from the end in `self[i]` and is `nil` in `captures[i]`; names are
   * looked up the same way, a String as its Symbol.
   */
  lemma {:induction false} IndexAgrees(named: map<string, seq<MatchRef>>, subs: seq<Sub>, key: Key)
    ensures key.IntKey? && 0 <= key.i <= |subs| ==> Index(named, subs, key) == CaptureLookup(named, subs, key)
    ensures key.IntKey? && -(|subs| + 1) <= key.i < 0 ==>
      CaptureLookup(named, subs, key) == Nil && Index(named, subs, key) == One(ToA(subs)[|subs| + 1 + key.i])
    ensures !key.IntKey? ==> Index(named, subs, key) == CaptureLookup(named, subs, key)
    ensures key.StrKey? ==> Index(named, subs, key) == Index(named, subs, SymKey(key.str))
  {
    if key.IntKey? && 0 < key.i <= |subs| {
      assert ToA(subs)[key.i] == Child(subs[key.i - 1]);
    }
  }

  // ---------------------------------------------------------------------
  // The constructor's elision stripping (match.rb:11-23)
  // ---------------------------------------------------------------------

  /** Every elided rule the stream starts with has exactly one child, as a Choice does. */
  predicate ElidedSpine(infos: seq<RuleInfo>, t: Tree)
    decreases t
  {
    InfoAt(infos, t.rule).elide ==> |t.kids| == 1 && ElidedSpine(infos, t.kids[0])
  }

  /** The first tree along the spine whose rule is not elided: what the match keeps. */
  function Peel(infos: seq<RuleInfo>, t: Tree): (u: Tree)
    requires ElidedSpine(infos, t)
    ensures !InfoAt(infos, u.rule).elide
    decreases t
  {
    if InfoAt(infos, t.rule).elide then Peel(infos, t.kids[0]) else t
  }

  /** The modules applied: the kept rule's first, then those of the stripped rules from the innermost out. */
  function Applied(infos: seq<RuleInfo>, t: Tree): seq<Extension>
    requires ElidedSpine(infos, t)
    decreases t
  {
    if InfoAt(infos, t.rule).elide then Applied(infos, t.kids[0]) + InfoAt(infos, t.rule).extensions
    else InfoAt(infos, t.rule).extensions
  }

  /**
   * `extension=` on rule `id` (rule.rb:45-53) decides what `extend_match`
   * applies to its matches (rule.rb:165-167, proxy.rb:46-51): the module it
   * sets is the one a plain rule applies, and the last one a match of the
   * rule has applied, after those of any rule it elides or delegates to.
   */
  lemma ExtensionApplied(gs: seq<GrammarData>, rules: seq<RuleNode>, memo: map<RuleId, RuleId>, id: RuleId, arg: ExtensionArg, after: seq<RuleNode>, t: Tree)
    requires ValidWorld(gs, rules, memo) && id < |rules| && SetExtension(rules[id], arg).Ok?
    requires after == rules[id := SetExtension(rules[id], arg).value]
    ensures ValidWorld(gs, after, memo)
    ensures var m := if arg.ProcArg? then ValueModule(arg.proc) else Module(arg.id);
      && (!rules[id].kind.IsProxy() ==> InfoOf(gs, after, memo, id).extensions == [m])
      && (ExtensionsOf(gs, after, memo, id, |after|).Some? && t.rule == id && ElidedSpine(InfoTable(gs, after, memo), t) ==>
            |Applied(InfoTable(gs, after, memo), t)| > 0 && Applied(InfoTable(gs, after, memo), t)[|Applied(InfoTable(gs, after, memo), t)| - 1] == m)
  {
    assert SameShape(rules, after);
    SameShapeArena(rules, after);
    SameShapeMemo(rules, after, memo);
    var m := if arg.ProcArg? then ValueModule(arg.proc) else Module(arg.id);
    assert OwnExtensions(after[id]) == [m];
    var infos := InfoTable(gs, after, memo);
    if ExtensionsOf(gs, after, memo, id, |after|).Some? && t.rule == id && ElidedSpine(infos, t) {
      var es := ExtensionsOf(gs, after, memo, id, |after|).value;
      assert es[|es| - 1] == m;
      assert InfoAt(infos, id).extensions == es;
    }
  }

  /** The modules of a list of rules, in that order. */
  function ExtensionsIn(infos: seq<RuleInfo>, rs: seq<RuleId>): seq<Extension>
  {
    if rs == [] then [] else InfoAt(infos, rs[0]).extensions + ExtensionsIn(infos, rs[1..])
  }

  lemma {:induction false} ExtensionsInAppend(infos: seq<RuleInfo>, a: seq<RuleId>, b: seq<RuleId>)
    ensures ExtensionsIn(infos, a + b) == ExtensionsIn(infos, a) + ExtensionsIn(infos, b)
  {
    if a == [] {
      assert a + b == b;
    } else {
      assert (a + b)[1..] == a[1..] + b;
      ExtensionsInAppend(infos, a[1..], b);
      AppendAssoc(InfoAt(infos, a[0]).extensions, ExtensionsIn(infos, a[1..]), ExtensionsIn(infos, b));
    }
  }

  lemma {:induction false} ExtensionsInSnoc(infos: seq<RuleInfo>, rs: seq<RuleId>, i: nat)
    requires i < |rs|
    ensures ExtensionsIn(infos, rs[..i + 1]) == ExtensionsIn(infos, rs[..i]) + InfoAt(infos, rs[i]).extensions
  {
    assert rs[..i + 1] == rs[..i] + [rs[i]];
    ExtensionsInAppend(infos, rs[..i], [rs[i]]);
    assert ExtensionsIn(infos, [rs[i]]) == InfoAt(infos, rs[i]).extensions + [];
  }

  /** A subtree of a consistent tree along the spine is consistent. */
  lemma {:induction false} PeelConsistent(infos: seq<RuleInfo>, t: Tree)
    requires ElidedSpine(infos, t) && Consistent(t)
    ensures Consistent(Peel(infos, t))
    decreases t
  {
    if InfoAt(infos, t.rule).elide {
      PeelConsistent(infos, t.kids[0]);
    }
  }

  /** An elided match with its one child: stripping its marker and its close leaves the child's events. */
  lemma {:induction false} StripOne(t: Tree)
    requires |t.kids| == 1
    ensures Flatten(t)[1..][..|Flatten(t)| - 3] == Flatten(t.kids[0])
  {
    assert t.kids == [t.kids[0]];
    FlattenOne(t.kids[0]);
    var f := Flatten(t);
    assert f == [Ref(t.rule)] + Flatten(t.kids[0]) + [Close, Len(t.len)];
    assert f[1..] == Flatten(t.kids[0]) + [Close, Len(t.len)];
  }

  /** One turn of the constructor's stripping loop keeps its invariants. */
  lemma StripStep(infos: seq<RuleInfo>, t: Tree, cur: Tree, es: seq<Event>, elisions: seq<RuleId>)
    requires ElidedSpine(infos, t) && ElidedSpine(infos, cur) && Consistent(cur) && es == Flatten(cur)
    requires Peel(infos, t) == Peel(infos, cur)
    requires Applied(infos, t) == Applied(infos, cur) + ExtensionsIn(infos, elisions)
    requires es[0].Ref? && InfoAt(infos, es[0].rule).elide
    ensures |es| >= 3 && |cur.kids| == 1
    ensures var k := cur.kids[0];
      && ElidedSpine(infos, k) && Consistent(k) && es[1..][..|es| - 3] == Flatten(k)
      && Peel(infos, t) == Peel(infos, k)
      && Applied(infos, t) == Applied(infos, k) + ExtensionsIn(infos, [es[0].rule] + elisions)
  {
    assert es[0] == Ref(cur.rule);
    StripOne(cur);
    AppendAssoc(Applied(infos, cur.kids[0]), InfoAt(infos, cur.rule).extensions, ExtensionsIn(infos, elisions));
    assert ([es[0].rule] + elisions)[1..] == elisions;
  }

  /** `Match#length`, `Match#string` and `Match#==` work on the slice `input.to_str[offset, length]`. */
  function RubySlice(s: string, start: nat, len: nat): (r: Option<string>)
    ensures r.None? <==> start > |s|
    ensures r.Some? ==> |r.value| == Min(len, |s| - start) && r.value == s[start..start + |r.value|]
  {
    if start > |s| then None else Some(s[start..Min(start + len, |s|)])
  }

  /** The other side of `Match#==` (match.rb:116-125). */
  datatype Operand = StrOperand(s: string) | MatchOperand(str: Option<string>) | OtherOperand

  // ---------------------------------------------------------------------
  // The Match object
  // ---------------------------------------------------------------------

  class Match {
    const text: string
    const infos: seq<RuleInfo>
    const offset: nat
    const events: seq<Event>
    /** The modules the match was extended with, in order. */
    const extensions: seq<Extension>
    /** The match tree the events flatten. */
    ghost const tree: Tree
    /** Whether `@captures` and `@matches` have been filled. */
    var decoded: bool
    var submatches: seq<Sub>
    var named: map<string, seq<MatchRef>>

    ghost predicate Valid()
      reads this
    {
      && events == Flatten(tree) && Consistent(tree)
      && (decoded ==> submatches == ChildSubs(tree.kids, 0, offset) && named == CapturesOf(infos, tree, offset))
    }

    /**
     * `Match.new(input, events, offset)`: with events, strip every leading
     * elided marker with one trailing CLOSE and length each, then extend with
     * the kept rule's module and the stripped rules' from the innermost out;
     * with none, the stream of `Rule.for(string)` (here the rule `forText`)
     * over the whole input.
     */
    constructor (text: string, infos: seq<RuleInfo>, evs: seq<Event>, offset: nat, forText: RuleId, ghost t: Tree)
      requires evs != [] ==> evs == Flatten(t) && Consistent(t) && ElidedSpine(infos, t)
      ensures Valid() && !decoded
      ensures this.text == text && this.infos == infos && this.offset == offset
      ensures evs != [] ==> tree == Peel(infos, t) && extensions == Applied(infos, t)
      ensures evs == [] ==> tree == Node(forText, [], |text|) && extensions == []
    {
      this.text := text;
      this.infos := infos;
      this.offset := offset;
      if evs != [] {
        var es := evs;
        var elisions: seq<RuleId> := [];
        ghost var cur := t;
        while es[0].Ref? && InfoAt(infos, es[0].rule).elide
          invariant ElidedSpine(infos, cur) && Consistent(cur) && es == Flatten(cur)
          invariant Peel(infos, t) == Peel(infos, cur)
          invariant Applied(infos, t) == Applied(infos, cur) + ExtensionsIn(infos, elisions)
          decreases |es|
        {
          StripStep(infos, t, cur, es, elisions);
          elisions := [es[0].rule] + elisions;
          es := es[1..];
          es := es[..|es| - 2];
          cur := cur.kids[0];
        }
        var exts := InfoAt(infos, es[0].rule).extensions;
        var i := 0;
        while i < |elisions|
          invariant i <= |elisions|
          invariant exts == InfoAt(infos, cur.rule).extensions + ExtensionsIn(infos, elisions[..i])
        {
          ExtensionsInSnoc(infos, elisions, i);
          exts := exts + InfoAt(infos, elisions[i]).extensions;
          i := i + 1;
        }
        assert elisions[..i] == elisions;
        this.events := es;
        this.extensions := exts;
        this.tree := cur;
      } else {
        this.events := [Ref(forText), Close, Len(|text|)];
        this.extensions := [];
        this.tree := Node(forText, [], |text|);
      }
      this.decoded := false;
      this.submatches := [];
      this.named := map[];
    }

    /** `length` (match.rb:43-45): the last event, the length of the match tree. */
    function Length(): (n: nat)
      reads this
      requires Valid()
      ensures n == tree.len
    {
      LastLen(events).value
    }

    /** `string` / `to_s` (match.rb:53-55): the input from `offset`, `length` characters, `nil` past the end. */
    function StringValue(): (s: Option<string>)
      reads this
      requires Valid()
      ensures s.None? <==> offset > |text|
      ensures s.Some? && offset + tree.len <= |text| ==> s.value == text[offset..offset + tree.len]
    {
      RubySlice(text, offset, Length())
    }

    /** `==` (match.rb:116-125): a String or another Match compares by string; anything else is not equal. */
    function Equals(other: Operand): (b: bool)
      reads this
      requires Valid()
      ensures other.OtherOperand? ==> !b
      ensures other.StrOperand? ==> (b <==> StringValue() == Some(other.s))
      ensures other.MatchOperand? ==> (b <==> StringValue() == other.str)
    {
      match other
      case StrOperand(s) => StringValue() == Some(s)
      case MatchOperand(str) => StringValue() == str
      case OtherOperand => false
    }

    /** `process_events!`: fill `@matches` and `@captures`. */
    method Decode()
      requires Valid()
      modifies this
      ensures Valid() && decoded
      ensures submatches == ChildSubs(tree.kids, 0, offset) && named == CapturesOf(infos, tree, offset)
    {
      submatches, named := ProcessEvents(infos, events, offset, tree);
      decoded := true;
    }

    /** `matches`: the immediate sub-matches, decoding the events on first use. */
    method Matches() returns (ms: seq<Sub>)
      requires Valid()
      modifies this
      ensures Valid() && decoded
      ensures ms == ChildSubs(tree.kids, 0, offset)
    {
      if !decoded {
        Decode();
      }
      ms := submatches;
    }

    /** `captures[key]`, decoding the events on first use. */
    method Captures(key: Key) returns (r: Found)
      requires Valid()
      modifies this
      ensures Valid() && decoded
      ensures r == CaptureLookup(CapturesOf(infos, tree, offset), ChildSubs(tree.kids, 0, offset), key)
    {
      if !decoded {
        Decode();
      }
      r := CaptureLookup(named, submatches, key);
    }

    /** `self[key]` (match.rb:107-114). */
    method Get(key: Key) returns (r: Found)
      requires Valid()
      modifies this
      ensures Valid() && decoded
      ensures r == Index(CapturesOf(infos, tree, offset), ChildSubs(tree.kids, 0, offset), key)
    {
      if !decoded {
        Decode();
      }
      match key
      case IntKey(i) =>
        r := ArrayAt(ToA(submatches), i);
      case _ =>
        r := CaptureLookup(named, submatches, key);
    }
  }
}
