/**
 * The line helpers of `Citrus::Input` (lib/citrus/input.rb:23-68), used by
 * the parse-error diagnostics.
 *
 * `Lines` is Ruby's `String#each_line` with the default separator: every
 * line keeps its trailing newline, and only the last may lack one. The
 * helpers walk those lines adding up their lengths; the first line whose
 * end lies at or past `pos` is the one reported. A position at the very
 * start of a line therefore belongs to the line before it (the character
 * reported is the one at `pos - 1`), which `LineStartBelongsToPrevious`
 * states.
 */
module TextLines {
  import opened Base

  // ---------------------------------------------------------------------
  // Splitting into lines
  // ---------------------------------------------------------------------

  /** The length of the first line of `s`, its newline included. */
  function LineEnd(s: string): (n: nat)
    requires |s| > 0
    ensures 0 < n <= |s|
    ensures forall k :: 0 <= k < n - 1 ==> s[k] != '\n'
    ensures n < |s| ==> s[n - 1] == '\n'
    decreases |s|
  {
    if s[0] == '\n' || |s| == 1 then 1 else 1 + LineEnd(s[1..])
  }

  /** `String#each_line` / `Input#lines`. */
  function Lines(s: string): seq<string>
    decreases |s|
  {
    if s == [] then [] else var n := LineEnd(s); [s[..n]] + Lines(s[n..])
  }

  function Concat(ls: seq<string>): string
  {
    if ls == [] then [] else ls[0] + Concat(ls[1..])
  }

  /** The total length of `ls`. */
  function Total(ls: seq<string>): nat
  {
    if ls == [] then 0 else |ls[0]| + Total(ls[1..])
  }

  /** A line is non-empty, has no newline before its last character, and ends in one unless it is the last line. */
  predicate LineShaped(l: string, last: bool)
  {
    && |l| > 0
    && (forall k :: 0 <= k < |l| - 1 ==> l[k] != '\n')
    && (!last ==> l[|l| - 1] == '\n')
  }

  /** Every line of `ls` is shaped like a line, the last one possibly without its newline. */
  predicate AllShaped(ls: seq<string>)
  {
    forall i :: 0 <= i < |ls| ==> LineShaped(ls[i], i == |ls| - 1)
  }

  /** A line followed by well-shaped lines is again well shaped when it ends in a newline or is last. */
  lemma ShapedCons(l: string, rest: seq<string>)
    requires LineShaped(l, rest == []) && AllShaped(rest)
    ensures AllShaped([l] + rest)
  {
    var ls := [l] + rest;
    forall i | 0 <= i < |ls| ensures LineShaped(ls[i], i == |ls| - 1) {
      if i > 0 {
        assert ls[i] == rest[i - 1];
      }
    }
  }

  /** The lines put back together are the text. */
  lemma {:induction false} LinesConcat(s: string)
    ensures Concat(Lines(s)) == s
    decreases |s|
  {
    if s != [] {
      var n := LineEnd(s);
      LinesConcat(s[n..]);
      var ls := Lines(s);
      assert ls[1..] == Lines(s[n..]);
      assert s[..n] + s[n..] == s;
    }
  }

  /** Each line is shaped like a line. */
  lemma {:induction false} LinesAllShaped(s: string)
    ensures AllShaped(Lines(s))
    decreases |s|
  {
    if s != [] {
      var n := LineEnd(s);
      LinesAllShaped(s[n..]);
      assert s[n..] == [] ==> Lines(s[n..]) == [];
      ShapedCons(s[..n], Lines(s[n..]));
    }
  }

  /** The lines put back together are the text, and each is shaped like a line. */
  lemma LinesShape(s: string)
    ensures Concat(Lines(s)) == s
    ensures AllShaped(Lines(s))
  {
    LinesConcat(s);
    LinesAllShaped(s);
  }

  lemma {:induction false} TotalConcat(ls: seq<string>)
    ensures Total(ls) == |Concat(ls)|
  {
    if ls != [] {
      TotalConcat(ls[1..]);
    }
  }

  lemma {:induction false} TotalAppend(a: seq<string>, b: seq<string>)
    ensures Total(a + b) == Total(a) + Total(b)
  {
    if a == [] {
      assert a + b == b;
    } else {
      assert (a + b)[1..] == a[1..] + b;
      TotalAppend(a[1..], b);
    }
  }

  /** Where line `i + 1` starts: one line further than line `i`. */
  lemma PrefixTotalNext(ls: seq<string>, i: nat)
    requires i < |ls|
    ensures Total(ls[..i + 1]) == Total(ls[..i]) + |ls[i]|
  {
    assert ls[..i + 1] == ls[..i] + [ls[i]];
    TotalAppend(ls[..i], [ls[i]]);
  }

  /** Line starts only grow. */
  lemma PrefixTotalMono(ls: seq<string>, a: nat, b: nat)
    requires a <= b <= |ls|
    ensures Total(ls[..a]) <= Total(ls[..b])
  {
    assert ls[..b] == ls[..a] + ls[a..b];
    TotalAppend(ls[..a], ls[a..b]);
  }

  // ---------------------------------------------------------------------
  // The line containing a position
  // ---------------------------------------------------------------------

  /**
   * The index of the first line, from `i` on, whose end lies at or past
   * `pos`: a line `j` ends at `Total(ls[..j + 1])`.
   */
  function Reaching(ls: seq<string>, pos: nat, i: nat): (r: Option<nat>)
    requires i <= |ls| && (i == 0 || Total(ls[..i]) < pos)
    ensures r.Some? ==> i <= r.value < |ls| && pos <= Total(ls[..r.value + 1])
    ensures r.Some? ==> r.value == 0 || Total(ls[..r.value]) < pos
    ensures r.None? ==> |ls| == 0 || Total(ls[..|ls|]) < pos
    decreases |ls| - i
  {
    if i == |ls| then None
    else if Total(ls[..i + 1]) >= pos then Some(i)
    else Reaching(ls, pos, i + 1)
  }

  /** `Input#line_index`: 0-based, and 0 where no line reaches `pos`. */
  function LineIndexOf(text: string, pos: nat): nat
  {
    match Reaching(Lines(text), pos, 0)
    case None => 0
    case Some(i) => i
  }

  /** `Input#line_offset`: `pos` less the start of its line, and 0 where no line reaches `pos`. */
  function LineOffsetOf(text: string, pos: nat): nat
  {
    var ls := Lines(text);
    match Reaching(ls, pos, 0)
    case None => 0
    case Some(i) => pos - Total(ls[..i])
  }

  /** `Input#line_number`. */
  function LineNumberOf(text: string, pos: nat): (n: nat)
    ensures n == LineIndexOf(text, pos) + 1
  {
    LineIndexOf(text, pos) + 1
  }

  /** `Input#line`: `lines[line_index]`, which is `nil` only for an empty text. */
  function LineOf(text: string, pos: nat): (r: Option<string>)
    ensures r.None? <==> text == []
    ensures r.Some? ==> r.value == Lines(text)[LineIndexOf(text, pos)]
  {
    LinesShape(text);
    var ls := Lines(text);
    var i := LineIndexOf(text, pos);
    if i < |ls| then Some(ls[i]) else None
  }

  /**
   * For a position inside the text, the line reported is the one holding the
   * character just before `pos`, and the offset counts from that line's
   * start, between 1 and its length. Position 0 and positions past the text
   * give line 0 and offset 0.
   */
  lemma LineOfPosition(text: string, pos: nat)
    ensures 0 < pos <= |text| ==>
      var ls := Lines(text); var i := LineIndexOf(text, pos);
      && i < |ls| && Total(ls[..i]) < pos <= Total(ls[..i + 1])
      && LineOffsetOf(text, pos) == pos - Total(ls[..i])
      && 0 < LineOffsetOf(text, pos) <= |ls[i]|
    ensures pos == 0 || pos > |text| ==> LineIndexOf(text, pos) == 0 && LineOffsetOf(text, pos) == 0
  {
    var ls := Lines(text);
    LinesShape(text);
    TotalConcat(ls);
    assert ls[..|ls|] == ls;
    var r := Reaching(ls, pos, 0);
    if r.Some? {
      PrefixTotalNext(ls, r.value);
      PrefixTotalMono(ls, r.value + 1, |ls|);
    }
  }

  /**
   * The position where line `k > 0` starts is reported on line `k - 1`, at
   * an offset equal to that line's length.
   */
  lemma LineStartBelongsToPrevious(text: string, k: nat)
    requires 0 < k < |Lines(text)|
    ensures var ls := Lines(text); var pos := Total(ls[..k]);
      LineIndexOf(text, pos) == k - 1 && LineOffsetOf(text, pos) == |ls[k - 1]|
  {
    var ls := Lines(text);
    var pos := Total(ls[..k]);
    LinesShape(text);
    TotalConcat(ls);
    assert ls[..|ls|] == ls;
    PrefixTotalMono(ls, k, |ls|);
    PrefixTotalNext(ls, k - 1);
    assert LineShaped(ls[k - 1], k - 1 == |ls| - 1);
    LineOfPosition(text, pos);
    var i := LineIndexOf(text, pos);
    if i < k - 1 {
      PrefixTotalMono(ls, i + 1, k - 1);
    } else if i > k - 1 {
      PrefixTotalMono(ls, k, i);
    }
  }

  // ---------------------------------------------------------------------
  // The accumulator loops
  // ---------------------------------------------------------------------

  /** `Input#line_offset(pos)`. */
  method LineOffset(text: string, pos: nat) returns (off: nat)
    ensures off == LineOffsetOf(text, pos)
  {
    var ls := Lines(text);
    var p := 0;
    var i := 0;
    while i < |ls|
      invariant i <= |ls| && p == Total(ls[..i])
      invariant i == 0 || Total(ls[..i]) < pos
      invariant Reaching(ls, pos, 0) == Reaching(ls, pos, i)
    {
      var len := |ls[i]|;
      PrefixTotalNext(ls, i);
      if p + len >= pos {
        return pos - p;
      }
      p := p + len;
      i := i + 1;
    }
    return 0;
  }

  /** `Input#line_index(pos)`. */
  method LineIndex(text: string, pos: nat) returns (idx: nat)
    ensures idx == LineIndexOf(text, pos)
  {
    var ls := Lines(text);
    var p := 0;
    var n := 0;
    while n < |ls|
      invariant n <= |ls| && p == Total(ls[..n])
      invariant n == 0 || Total(ls[..n]) < pos
      invariant Reaching(ls, pos, 0) == Reaching(ls, pos, n)
    {
      PrefixTotalNext(ls, n);
      p := p + |ls[n]|;
      if p >= pos {
        return n;
      }
      n := n + 1;
    }
    return 0;
  }

  /** `Input#line_number(pos)` (also `lineno`). */
  method LineNumber(text: string, pos: nat) returns (n: nat)
    ensures n == LineNumberOf(text, pos)
  {
    var idx := LineIndex(text, pos);
    n := idx + 1;
  }

  /** `Input#line(pos)`. */
  method Line(text: string, pos: nat) returns (l: Option<string>)
    ensures l == LineOf(text, pos)
  {
    var ls := Lines(text);
    var idx := LineIndex(text, pos);
    l := if idx < |ls| then Some(ls[idx]) else None;
  }
}
