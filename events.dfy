/**
 * The flat event stream that every rule appends to while it matches
 * (lib/citrus.rb:20 and the comment at lib/citrus/input.rb:75-77).
 *
 * An event is a reference to a rule (the start of an attempt, by arena id),
 * the CLOSE sentinel, or the length consumed by the attempt that just closed.
 * The source encodes CLOSE as the integer -1 next to non-negative lengths;
 * here the two are separate constructors, so they cannot be confused.
 *
 * A successful attempt is described by a `Tree`; the events it contributes
 * are `Flatten(t) == [Ref(rule), ...children..., Close, Len(len)]`.
 */
module Events {
  import opened Base

  type RuleId = nat

  datatype Event = Ref(rule: RuleId) | Close | Len(n: nat)

  /** Citrus::CLOSE. */
  const CLOSE: Event := Close

  datatype Tree = Node(rule: RuleId, kids: seq<Tree>, len: nat)

  function Flatten(t: Tree): (evs: seq<Event>)
    decreases t, 1
  {
    [Ref(t.rule)] + FlattenAll(t.kids) + [Close, Len(t.len)]
  }

  function FlattenAll(ts: seq<Tree>): seq<Event>
    decreases ts, 0
  {
    if ts == [] then [] else Flatten(ts[0]) + FlattenAll(ts[1..])
  }

  /** The events of an attempt that either failed (nothing) or produced `t`. */
  function FlatOpt(o: Option<Tree>): seq<Event>
  {
    match o
    case None => []
    case Some(t) => Flatten(t)
  }

  /** The number of characters an attempt consumed (0 for a failure). */
  function LenOpt(o: Option<Tree>): nat
  {
    match o
    case None => 0
    case Some(t) => t.len
  }

  function SumLens(ts: seq<Tree>): nat
  {
    if ts == [] then 0 else ts[0].len + SumLens(ts[1..])
  }

  lemma {:induction false} FlattenAllAppend(a: seq<Tree>, b: seq<Tree>)
    ensures FlattenAll(a + b) == FlattenAll(a) + FlattenAll(b)
  {
    if a == [] {
      assert a + b == b;
    } else {
      assert (a + b)[1..] == a[1..] + b;
      FlattenAllAppend(a[1..], b);
    }
  }

  lemma {:induction false} SumLensAppend(a: seq<Tree>, b: seq<Tree>)
    ensures SumLens(a + b) == SumLens(a) + SumLens(b)
  {
    if a == [] {
      assert a + b == b;
    } else {
      assert (a + b)[1..] == a[1..] + b;
      SumLensAppend(a[1..], b);
    }
  }

  /** The events of a forest, one tree appended at a time. */
  lemma FlattenAllSnoc(a: seq<Tree>, t: Tree)
    ensures FlattenAll(a + [t]) == FlattenAll(a) + Flatten(t)
    ensures SumLens(a + [t]) == SumLens(a) + t.len
  {
    FlattenAllAppend(a, [t]);
    SumLensAppend(a, [t]);
    assert FlattenAll([t]) == Flatten(t) + FlattenAll([]);
  }

  /** An open marker followed by whole trees, one more tree appended. */
  lemma OpenSnoc(before: seq<Event>, r: RuleId, kids: seq<Tree>, t: Tree)
    ensures before + [Ref(r)] + FlattenAll(kids) + Flatten(t) == before + [Ref(r)] + FlattenAll(kids + [t])
  {
    FlattenAllSnoc(kids, t);
  }

  /** An open marker followed by whole trees, closed. */
  lemma OpenClose(before: seq<Event>, r: RuleId, kids: seq<Tree>, len: nat)
    ensures before + [Ref(r)] + FlattenAll(kids) + [Close, Len(len)] == before + Flatten(Node(r, kids, len))
  {
  }

  /** A single tree as a forest. */
  lemma FlattenOne(t: Tree)
    ensures FlattenAll([t]) == Flatten(t)
  {
    assert [t][1..] == [];
  }

  /** A proxy overwrites the marker of its target's events with its own. */
  lemma Retag(before: seq<Event>, t: Tree, r: RuleId)
    ensures (before + Flatten(t))[|before| := Ref(r)] == before + Flatten(Node(r, t.kids, t.len))
  {
    var a := (before + Flatten(t))[|before| := Ref(r)];
    var b := before + Flatten(Node(r, t.kids, t.len));
    assert |a| == |b|;
    forall i | 0 <= i < |a|
      ensures a[i] == b[i]
    {
      if i > |before| {
        assert a[i] == Flatten(t)[i - |before|];
      }
    }
  }

  /** A stream that ends in a length: issued by `Input#exec` callers as `events[-1]`. */
  function LastLen(evs: seq<Event>): (r: Option<nat>)
    ensures r.Some? <==> |evs| > 0 && evs[|evs| - 1].Len?
    ensures r.Some? ==> r.value == evs[|evs| - 1].n
  {
    if |evs| > 0 && evs[|evs| - 1].Len? then Some(evs[|evs| - 1].n) else None
  }
}
