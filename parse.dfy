/**
 * Parsing a whole input: `Rule#parse` and `Rule#test` (lib/citrus/grammar/rule.rb:76-100),
 * `GrammarMethods#parse` (lib/citrus/grammar/grammar_methods.rb:15-21), and the
 * errors a failed parse reports (lib/citrus/exceptions.rb).
 */
module Parsing {
  import opened Base
  import opened Events
  import opened Rules
  import opened Grammars
  import opened Semantics
  import opened Agreement
  import opened Inputs
  import opened TextLines
  import opened Matches
  import opened Shapes

  // ---------------------------------------------------------------------
  // ParseError and SyntaxError
  // ---------------------------------------------------------------------

  /** A `ParseError`: where the parse got furthest, and that position's line, line number and column. */
  datatype ParseError = ParseError(offset: nat, lineOffset: nat, lineNumber: nat, line: Option<string>)

  /** Ruby's `"#{line}"`: an absent line interpolates as the empty string. */
  function LineText(l: Option<string>): string
  {
    if l.Some? then l.value else ""
  }

  /** `detail` (exceptions.rb:41-43): the line, and under it a caret `line_offset` columns in. */
  function Detail(e: ParseError): (d: string)
    ensures |d| == |LineText(e.line)| + e.lineOffset + 2
    ensures d[..|LineText(e.line)|] == LineText(e.line) && d[|LineText(e.line)|] == '\n'
    ensures d[|d| - 1] == '^' && forall k :: |LineText(e.line)| < k < |d| - 1 ==> d[k] == ' '
  {
    LineText(e.line) + "\n" + Replicate(' ', e.lineOffset) + "^"
  }

  /** What follows the error's name in both messages: the line number, the column and the detail. */
  function Location(e: ParseError): string
  {
    " on line " + (NatToString(e.lineNumber) + (" at offset " + (NatToString(e.lineOffset) + ("\n" + Detail(e)))))
  }

  const ParseErrorPrefix: string := "Failed to parse input"
  const SyntaxErrorPrefix: string := "Malformed Citrus syntax"

  /** The message of a `ParseError` (exceptions.rb:18-19). */
  function ParseMessage(e: ParseError): string
  {
    ParseErrorPrefix + Location(e)
  }

  /** `SyntaxError.new(error)` (exceptions.rb:49-54): only the message is kept. */
  datatype SyntaxError = SyntaxError(message: string)

  /** A `SyntaxError` reports the location and detail of the `ParseError` it wraps, under its own name. */
  function NewSyntaxError(e: ParseError): (s: SyntaxError)
    ensures |s.message| >= |SyntaxErrorPrefix| && s.message[..|SyntaxErrorPrefix|] == SyntaxErrorPrefix
    ensures ParseErrorPrefix + s.message[|SyntaxErrorPrefix|..] == ParseMessage(e)
  {
    var m := SyntaxErrorPrefix + Location(e);
    assert m[|SyntaxErrorPrefix|..] == Location(e);
    SyntaxError(m)
  }

  /** The error `ParseError.new(input)` makes for a text whose `max_offset` is `maxOffset`. */
  function ParseErrorAt(text: string, maxOffset: nat): (e: ParseError)
  {
    ParseError(maxOffset, LineOffsetOf(text, maxOffset), LineNumberOf(text, maxOffset), LineOf(text, maxOffset))
  }

  /** `ParseError.new(input)` (exceptions.rb:12-22): ask the input where `max_offset` lies. */
  method NewParseError(text: string, maxOffset: nat) returns (e: ParseError)
    ensures e == ParseErrorAt(text, maxOffset)
  {
    var lineOffset := LineOffset(text, maxOffset);
    var lineNumber := LineNumber(text, maxOffset);
    var line := Line(text, maxOffset);
    e := ParseError(maxOffset, lineOffset, lineNumber, line);
  }

  /**
   * The error points at its offset: for an offset inside the text, the line
   * reported is line `line_number` of the text, whose start plus `line_offset`
   * is the offset, with the caret at most one column past the line's last
   * character. Offset 0 is line 1, column 0. Only an empty text has no line.
   */
  lemma ParseErrorLocates(text: string, maxOffset: nat)
    ensures var e := ParseErrorAt(text, maxOffset); var ls := Lines(text);
      && e.offset == maxOffset && e.lineNumber >= 1
      && (e.line.None? <==> text == [])
      && (0 < maxOffset <= |text| ==>
        && e.lineNumber <= |ls| && e.line == Some(ls[e.lineNumber - 1])
        && Total(ls[..e.lineNumber - 1]) + e.lineOffset == maxOffset
        && 0 < e.lineOffset <= |ls[e.lineNumber - 1]|)
      && (maxOffset == 0 ==> e.lineNumber == 1 && e.lineOffset == 0)
  {
    LineOfPosition(text, maxOffset);
  }

  /** The number of decimal digits `s` starts with. */
  function LeadingDigits(s: string): (n: nat)
    ensures n <= |s|
  {
    if s != [] && IsDigit(s[0]) then 1 + LeadingDigits(s[1..]) else 0
  }

  /** Digits followed by a non-digit: the digits are exactly the leading ones. */
  lemma {:induction false} LeadingDigitsOf(x: string, p: string)
    requires forall i :: 0 <= i < |x| ==> IsDigit(x[i])
    requires p != [] && !IsDigit(p[0])
    ensures LeadingDigits(x + p) == |x|
  {
    if x == [] {
      assert x + p == p;
    } else {
      assert (x + p)[0] == x[0];
      assert (x + p)[1..] == x[1..] + p;
      LeadingDigitsOf(x[1..], p);
    }
  }

  /** Two digit strings each followed by a non-digit split the same way. */
  lemma DigitsSplit(x: string, p: string, y: string, q: string)
    requires forall i :: 0 <= i < |x| ==> IsDigit(x[i])
    requires forall i :: 0 <= i < |y| ==> IsDigit(y[i])
    requires p != [] && q != [] && !IsDigit(p[0]) && !IsDigit(q[0])
    requires x + p == y + q
    ensures x == y && p == q
  {
    LeadingDigitsOf(x, p);
    LeadingDigitsOf(y, q);
    assert x == (x + p)[..|x|] && p == (x + p)[|x|..];
    assert y == (y + q)[..|y|] && q == (y + q)[|y|..];
  }

  /** A number's text followed by a non-digit tells the number back. */
  lemma NumberSplit(a: nat, p: string, b: nat, q: string)
    requires p != [] && q != [] && !IsDigit(p[0]) && !IsDigit(q[0])
    requires NatToString(a) + p == NatToString(b) + q
    ensures a == b && p == q
  {
    DigitsSplit(NatToString(a), p, NatToString(b), q);
    NatToStringInjective(a, b);
  }

  lemma CancelPrefix(a: string, x: string, y: string)
    requires a + x == a + y
    ensures x == y
  {
    assert x == (a + x)[|a|..];
    assert y == (a + y)[|a|..];
  }

  /** The message tells the line number, the column and the detail: two errors with one message agree on them. */
  lemma ParseMessageDetermines(a: ParseError, b: ParseError)
    requires ParseMessage(a) == ParseMessage(b)
    ensures a.lineNumber == b.lineNumber && a.lineOffset == b.lineOffset && Detail(a) == Detail(b)
  {
    CancelPrefix(ParseErrorPrefix, Location(a), Location(b));
    CancelPrefix(" on line ",
      NatToString(a.lineNumber) + (" at offset " + (NatToString(a.lineOffset) + ("\n" + Detail(a)))),
      NatToString(b.lineNumber) + (" at offset " + (NatToString(b.lineOffset) + ("\n" + Detail(b)))));
    NumberSplit(a.lineNumber, " at offset " + (NatToString(a.lineOffset) + ("\n" + Detail(a))),
      b.lineNumber, " at offset " + (NatToString(b.lineOffset) + ("\n" + Detail(b))));
    CancelPrefix(" at offset ", NatToString(a.lineOffset) + ("\n" + Detail(a)), NatToString(b.lineOffset) + ("\n" + Detail(b)));
    NumberSplit(a.lineOffset, "\n" + Detail(a), b.lineOffset, "\n" + Detail(b));
    CancelPrefix("\n", Detail(a), Detail(b));
  }

  // ---------------------------------------------------------------------
  // Rule#parse
  // ---------------------------------------------------------------------

  /** Why a parse gave no match. */
  datatype ParseFailure =
    | Failed(error: ParseError)   // the `ParseError` of rule.rb:85-87
    | OffsetOutOfRange            // `input.pos = offset` past the end (StringScanner's RangeError)
    | Halted(why: Halt)           // an exception from a rule, a non-terminating repetition, or the budget

  /** The length of an attempt, as `events[-1]` gives it: nothing for a failure. */
  function MatchLength(o: Option<Tree>): (n: Option<nat>)
    ensures n == LastLen(FlatOpt(o))
  {
    if o.Some? then Some(o.value.len) else None
  }

  /** The length a match keeps once its elided markers are stripped is the one its stream ends in. */
  lemma {:induction false} PeelLength(infos: seq<RuleInfo>, t: Tree)
    requires Consistent(t) && ElidedSpine(infos, t)
    ensures Peel(infos, t).len == t.len
    decreases t
  {
    if InfoAt(infos, t.rule).elide {
      var k := t.kids[0];
      assert t.kids == [k];
      assert [k][1..] == [];
      assert SumLens([k]) == k.len + SumLens([]);
      assert Consistent(k);
      PeelLength(infos, k);
    }
  }

  /** The condition of rule.rb:85: no match, or a match that leaves input over when all of it must be consumed. */
  predicate Rejects(length: Option<nat>, consume: bool, textLength: nat, offset: nat)
  {
    length.None? || (consume && length.value + offset < textLength)
  }

  /**
   * `Rule#parse(source, options)` for the rule `r` of `reg`. The run is the
   * reference semantics `Exec` at the offset (exactly, on a plain input; on a
   * memoized one whenever it finishes). No match, or a match that stops short
   * of the end when `consume` is set, is a `ParseError` at the furthest
   * position any rule matched to; otherwise the result is a `Match` whose tree
   * is the run's tree, stripped of its elided markers.
   */
  method Parse(reg: Registry, r: RuleId, source: string, opts: Options, fuel: nat)
    returns (res: Result<Match, ParseFailure>, ghost got: Run<Option<Tree>>, ghost need: nat)
    requires reg.Valid() && r < |reg.rules|
    modifies reg`resolved
    ensures reg.Valid()
    ensures opts.offset > |source| ==> res == Err(OffsetOutOfRange)
    ensures opts.offset <= |source| ==>
      var e := Env(source, reg.grammars, reg.rules, old(reg.resolved));
      && ExecOk(e, r, opts.offset, fuel, !opts.memoize, got, need)
      && (got.Stop? ==> res == Err(Halted(got.why)))
      && (got.Done? && Rejects(MatchLength(got.v), opts.consume, |source|, opts.offset) ==> res == Err(Failed(ParseErrorAt(source, got.reached))))
      && (got.Done? && !Rejects(MatchLength(got.v), opts.consume, |source|, opts.offset) ==>
        && res.Ok? && fresh(res.value) && res.value.Valid() && !res.value.decoded
        && res.value.text == source && res.value.offset == opts.offset
        && res.value.infos == InfoTable(e.gs, e.rules, e.memo)
        && got.v.Some? && Decodable(e, got.v.value)
        && res.value.tree == Peel(res.value.infos, got.v.value)
        && res.value.extensions == Applied(res.value.infos, got.v.value))
  {
    got, need := Stop(OutOfFuel), 0;
    if opts.offset > |source| {
      return Err(OffsetOutOfRange), got, need;
    }
    ghost var e := Env(source, reg.grammars, reg.rules, reg.resolved);
    var infos := InfoTable(reg.grammars, reg.rules, reg.resolved);
    var input := new Input(source, reg, opts.memoize);
    input.pos := opts.offset;
    var evs, err;
    evs, err, got, need := input.Exec(r, [], fuel);
    if err.Some? {
      return Err(Halted(err.value)), got, need;
    }
    var length := LastLen(evs);
    assert evs == FlatOpt(got.v);
    if Rejects(length, opts.consume, |source|, opts.offset) {
      var pe := NewParseError(source, input.maxOffset);
      return Err(Failed(pe)), got, need;
    }
    var t := got.v.value;
    OkFinished(e, r, opts.offset, fuel, !opts.memoize, got, need);
    ExecDecodable(e, r, opts.offset, need);
    var m := new Match(source, infos, evs, opts.offset, r, t);
    res := Ok(m);
  }

  /** `Rule#test(string, options)` (rule.rb:96-100): the length of the match, or nothing where `parse` raises a `ParseError`. */
  method TestParse(reg: Registry, r: RuleId, source: string, opts: Options, fuel: nat)
    returns (res: Result<Option<nat>, ParseFailure>, ghost got: Run<Option<Tree>>, ghost need: nat)
    requires reg.Valid() && r < |reg.rules|
    modifies reg`resolved
    ensures reg.Valid()
    ensures opts.offset > |source| ==> res == Err(OffsetOutOfRange)
    ensures opts.offset <= |source| ==>
      var e := Env(source, reg.grammars, reg.rules, old(reg.resolved));
      && ExecOk(e, r, opts.offset, fuel, !opts.memoize, got, need)
      && (got.Stop? ==> res == Err(Halted(got.why)))
      && (got.Done? && Rejects(MatchLength(got.v), opts.consume, |source|, opts.offset) ==> res == Ok(None))
      && (got.Done? && !Rejects(MatchLength(got.v), opts.consume, |source|, opts.offset) ==> res == Ok(MatchLength(got.v)) && got.v.Some?)
  {
    var p;
    p, got, need := Parse(reg, r, source, opts, fuel);
    match p
    case Err(Failed(_)) => res := Ok(None);
    case Err(f) => res := Err(f);
    case Ok(m) =>
      PeelLength(m.infos, got.v.value);
      var n := m.Length();
      res := Ok(Some(n));
  }

  /**
   * `Rule#===(obj)` (rule.rb:103-105): whether the rule matches all of
   * `source` from its start, with the default options; a `ParseError` is a
   * plain `false`.
   */
  method CaseEquals(reg: Registry, r: RuleId, source: string, fuel: nat)
    returns (res: Result<bool, ParseFailure>, ghost got: Run<Option<Tree>>, ghost need: nat)
    requires reg.Valid() && r < |reg.rules|
    modifies reg`resolved
    ensures reg.Valid()
    ensures var e := Env(source, reg.grammars, reg.rules, old(reg.resolved));
      && ExecOk(e, r, 0, fuel, true, got, need)
      && (got.Stop? ==> res == Err(Halted(got.why)))
      && (got.Done? ==> res == Ok(got.v.Some? && got.v.value.len == |source|))
  {
    var t;
    t, got, need := TestParse(reg, r, source, DefaultOptions, fuel);
    match t
    case Err(f) => res := Err(f);
    case Ok(n) => res := Ok(n.Some?);
  }

  // ---------------------------------------------------------------------
  // GrammarMethods#parse
  // ---------------------------------------------------------------------

  /** The `:root` option, else the grammar's root (grammar_methods.rb:16). */
  function StartName(gd: GrammarData, root: Option<string>): Option<string>
  {
    if root.Some? then root else Root(gd)
  }

  /**
   * The rule `GrammarMethods#parse` starts at (grammar_methods.rb:16-19): no
   * name at all is "No root rule specified", a name the grammar and what it
   * includes do not define is "No rule named", and otherwise it is that rule.
   */
  function StartRule(gs: seq<GrammarData>, nrules: nat, g: GrammarId, root: Option<string>): (r: Result<RuleId, ConfigError>)
    requires ValidGrammars(gs, nrules) && g < |gs|
    ensures r.Ok? ==> r.value < nrules
    ensures StartName(gs[g], root).None? <==> r == Err(NoRootRule)
    ensures StartName(gs[g], root).Some? ==>
      var name := StartName(gs[g], root).value;
      && (r.Ok? <==> Lookup(gs, nrules, g, name).Some?)
      && (r.Ok? ==> Lookup(gs, nrules, g, name) == Some(r.value))
      && (r.Err? ==> r == Err(NoRuleNamed(name)))
  {
    match StartName(gs[g], root)
    case None => Err(NoRootRule)
    case Some(n) =>
      match Lookup(gs, nrules, g, n)
      case None => Err(NoRuleNamed(n))
      case Some(id) => Ok(id)
  }

  /** Why `GrammarMethods#parse` gave no match: no rule to start at, or a failure of `Rule#parse`. */
  datatype GrammarFailure = NoStart(error: ConfigError) | RuleFailed(failure: ParseFailure)

  /**
   * `GrammarMethods#parse(source, options)`: find the start rule, then parse
   * with it; the parse is the reference semantics of that rule.
   */
  method GrammarParse(reg: Registry, g: GrammarId, source: string, root: Option<string>, opts: Options, fuel: nat)
    returns (res: Result<Match, GrammarFailure>, ghost got: Run<Option<Tree>>, ghost need: nat)
    requires reg.Valid() && g < |reg.grammars|
    modifies reg`resolved
    ensures reg.Valid()
    ensures var start := StartRule(reg.grammars, |reg.rules|, g, root);
      && (start.Err? ==> res == Err(NoStart(start.error)) && reg.resolved == old(reg.resolved))
      && (start.Ok? && opts.offset > |source| ==> res == Err(RuleFailed(OffsetOutOfRange)))
      && (start.Ok? && opts.offset <= |source| ==>
        var e := Env(source, reg.grammars, reg.rules, old(reg.resolved));
        && ExecOk(e, start.value, opts.offset, fuel, !opts.memoize, got, need)
        && (res.Ok? <==> got.Done? && !Rejects(MatchLength(got.v), opts.consume, |source|, opts.offset))
        && (res.Ok? ==> fresh(res.value) && res.value.Valid() && res.value.text == source && res.value.offset == opts.offset)
        && (res.Err? ==> res.error.RuleFailed?))
  {
    got, need := Stop(OutOfFuel), 0;
    var start := StartRule(reg.grammars, |reg.rules|, g, root);
    if start.Err? {
      return Err(NoStart(start.error)), got, need;
    }
    var p;
    p, got, need := Parse(reg, start.value, source, opts, fuel);
    match p
    case Err(f) => res := Err(RuleFailed(f));
    case Ok(m) => res := Ok(m);
  }
}
