# Citrus execution engine, modelled and proved in Dafny

Citrus is a packrat PEG parser for Ruby. This project models its core and proves properties of the model. The core is:

- the cursor and execution wrapper `Citrus::Input`;
- its packrat subclass `Citrus::MemoizedInput`;
- every rule variant's `exec`: Terminal, Sequence, Choice, Repeat, the And/Not/But predicates, and the proxies Alias and Super;
- the grammar registry: rule definition and lookup, `root`, `super_rule`, `setup_super`, and the `rep`/`label` helpers;
- `Rule.for` and the rest of `Citrus::Grammar::Rule`;
- the lazy match-tree decoder `Citrus::Match`;
- the parse-error diagnostics `ParseError` and `SyntaxError`.

## How the model is built

- **Rules** live in an arena: `Rules.RuleNode` values in a `seq`, addressed by id. Every nonterminal's sub-rules have smaller ids, and id 0 is `DOT_RULE`. A proxy carries the name it resolves.
- **Grammars and the registry.** Grammars are `Grammars.GrammarData` values holding own table, `rule_names`, root and included grammars. The class `Grammars.Registry` holds the arena, the grammars and the proxies' memoised `@rule` targets. Its methods are the mutating operations of `GrammarMethods` and `Rule`.
- **Events.** The flat list that rules append to is a `seq<Events.Event>`, where `Event = Ref(rule) | Close | Len(n)`. A successful attempt is described by a `Tree`. What it appends is `Flatten(tree)`: `[rule, children…, CLOSE, length]`.
- **The reference semantics** (module `Semantics`) is a family of pure functions: `Exec`, `Test`, `Apply`, and one loop function per looping variant.
  - They take a fuel budget and return a `Run`: either `Done(tree-or-nothing, reached)` or `Stop(why)`.
  - `reached` is the furthest position an inner `Input#exec` reached. `max_offset` becomes the larger of its old value and `reached`.
  - `Stop` covers three cases: running out of fuel, `Diverges`, and `Unresolved`.
  - `Diverges` is an unbounded Repeat over a zero-length match, which loops forever in Ruby.
  - `Unresolved` is a proxy whose name cannot be resolved. Ruby raises `Citrus::Error` there.
- **The imperative engine** is the class `Inputs.Input`. A `memoized` flag selects `MemoizedInput`.
  - Each rule's `exec` is a method with the source's loops. It threads the caller's event list, moves `pos`, and raises `maxOffset`.
  - On a memoized input it fills the `(rule, position)` cache and counts `cacheHits`.
  - Each method returns the run it performed as a ghost value and is proved against the reference semantics.
  - On a plain input the run is exactly the reference semantics.
  - On a memoized input, the run is the reference run whenever that run finishes within the budget. With a budget of `need` or more, the reference run is always this run.
  - `Agreement.MemoTransparent` follows from this: the packrat cache changes no finished result.
- **Behaviour of each variant.** Module `Behaviour` proves what each variant does in terms of its sub-rules:
  - Sequence: in order, stopping at the first failure.
  - Choice: the first alternative that matches wins.
  - Repeat: greedy, with the `min`/`max` bounds.
  - the predicates, and `ButPredicate`'s scan.
  - Proxies: marker overwrite and target delegation.
- **Line helpers.** `Input`'s line helpers are in module `TextLines`, as loops proved against the line split of the text.
- **Decoder.** `Matches.Match` is the decoder class.
  - `process_events!` is the stack machine over the event list. It is proved to yield the immediate sub-matches, at their offsets, and the named captures of the tree the events flatten.
  - Module `Shapes` proves that every tree the engine builds is one the decoder accepts.
- **Parsing** (module `Parsing`) covers `Rule#parse`, `Rule#test`, `Rule#===`, `GrammarMethods#parse` and the errors. It ties them to the reference semantics and to `Match`.

## Model

| member | source | states |
|---|---|---|
| Rules.Scan | lib/citrus/grammar/rules/terminal.rb:29-39 | the scanner matches anchored at `pos` and within the text: a literal exactly when the text there equals it, the any-char pattern one character whenever one is left |
| Rules.For | lib/citrus/grammar/rule.rb:7-19 | `Rule.for` only adds nodes to the arena and returns an existing id; an unsupported object is the `ArgumentError` "Invalid rule object" |
| Rules.ForKinds | lib/citrus/grammar/rule.rb:7-19 | each kind of object maps to its variant: a Rule to itself, a Symbol to an Alias, a String or an Integer (its decimal text) to a literal terminal, a Regexp to a Terminal, an Array to a Sequence, a Range to a Choice, anything else to the error |
| Rules.ForValid | lib/citrus/grammar/rule.rb:7-19 | the nodes `Rule.for` adds keep the arena invariant (children before parents) |
| Rules.ForAll | lib/citrus/grammar/rules/nonterminal.rb:11-13 | normalising a nonterminal's arguments gives one rule per argument and only grows the arena |
| Rules.ForAllPreservesOrder | lib/citrus/grammar/rules/nonterminal.rb:11-13 | normalisation keeps order and count: the i-th argument gives the i-th sub-rule, a rule argument is used as is |
| Rules.ForAllValid | lib/citrus/grammar/rules/nonterminal.rb:11-13 | the normalised sub-rules keep the arena invariant |
| Rules.NewSequence | lib/citrus/grammar/rules/nonterminal.rb:11-13 | `Sequence.new` fails exactly when `Rule.for` fails on an argument; otherwise the arena only grows, the arguments' rules come first, and the new last node is a fresh Sequence over them in order, keeping the arena valid |
| Rules.NewChoice | lib/citrus/grammar/rules/nonterminal.rb:11-13 | `Choice.new` likewise: a fresh Choice over `Rule.for` of each alternative, in order, or "Invalid rule object" |
| Rules.NewRepeat | lib/citrus/grammar/rules/nonterminals/repeat.rb:25-30 | `min > max` is the `ArgumentError`, checked before the sub-rule is normalised; a success only appends fresh, grammar-less nodes, the last of them the Repeat, and keeps the arena valid (every sub-rule before its parent) |
| Rules.NewPredicate | lib/citrus/grammar/rules/and_predicate.rb:12-14 | a predicate is a fresh last node whose single sub-rule is `Rule.for` of its argument |
| Rules.SetExtension | lib/citrus/grammar/rule.rb:45-53 | a Proc becomes a module defining `value`, a module is kept, anything else is the `ArgumentError` |
| Matches.ExtensionApplied | lib/citrus/grammar/rule.rb:45-53 | after `extension=`, a plain rule's matches are extended by exactly that module, and every match of the rule, proxy or elided, has it applied last (rule.rb:165-167, proxy.rb:46-51); the registry stays valid |
| Rules.ToS | lib/citrus/grammar/rule.rb:125-131 | an unlabelled rule prints its notation; a labelled one is prefixed `label:`, with the notation in parentheses exactly when `needs_paren?` |
| Rules.ToSInjective | lib/citrus/grammar/rule.rb:125-131 | a labelled rule's text determines its label (when it has no colon) and its notation |
| Rules.BoundText | lib/citrus/grammar/rules/nonterminals/repeat.rb:69-77 | one side of "N*M" is all digits, and blank exactly for 0 and Infinity |
| Rules.OperatorRoundTrip | lib/citrus/grammar/rules/nonterminals/repeat.rb:69-77 | `operator` loses nothing: every pair of bounds with a natural-number minimum and a natural-number or infinite maximum reads back from its text, so distinct bounds print distinctly |
| Rules.ParseStarred | lib/citrus/grammar/rules/nonterminals/repeat.rb:75 | "N*M" with blank or decimal sides reads back as those numbers, blank meaning 0 and Infinity |
| Base.NatToString | lib/citrus/grammar/rule.rb:15 | `Integer#to_s`: decimal digits only, no leading zero |
| Base.DecimalRoundTrip | lib/citrus/grammar/rule.rb:15 | the decimal text of a number reads back as that number |
| Base.NatToStringInjective | lib/citrus/grammar/rule.rb:15 | distinct numbers give distinct terminals |
| Grammars.Lookup | lib/citrus/grammar/grammar_methods.rb:102 | a lookup finds only rules of the arena |
| Grammars.LookupPrefersOwn | lib/citrus/grammar/grammar_methods.rb:102 | `rules[sym] \|\| super_rule(sym)`: the own table first, then the included grammars, nil when there are none |
| Grammars.SuperLookupFirst | lib/citrus/grammar/grammar_methods.rb:71-78 | `super_rule` is nil exactly when no included grammar finds the name, else the answer of the first one in `included_grammars` order that does |
| Grammars.LookupAvoids | lib/citrus/grammar/grammar_methods.rb:71-78 | changing a younger grammar cannot change a lookup from an older one |
| Grammars.Root | lib/citrus/grammar/grammar_methods.rb:110-114 | the explicit root, else the first rule name, else nil |
| Grammars.Resolve | lib/citrus/grammar/alias.rb:21-29 | a resolved proxy names a rule of the arena |
| Grammars.ResolveAnswers | lib/citrus/grammar/rules/super.rb:22-31 | an Alias resolves exactly to what its grammar's lookup finds, a Super exactly to what `super_rule` finds (alias.rb:21-29); otherwise the `Citrus::Error` naming the rule and the grammar |
| Grammars.SuperIgnoresOwnTable | lib/citrus/grammar/rules/super.rb:22-31 | a Super never consults its own grammar's table: changing that table changes nothing it resolves to |
| Grammars.Target | lib/citrus/grammar/proxy.rb:23-25 | `@rule \|\|= resolve!`: the memoised target when there is one, otherwise what resolution finds now |
| Grammars.ElideOf | lib/citrus/grammar/proxy.rb:42-44 | a non-proxy is elided exactly when it is a Choice (rule.rb:114-116, choice.rb:35-37) |
| Grammars.ExtensionsOf | lib/citrus/grammar/proxy.rb:46-51 | a non-proxy applies just its own extension |
| Grammars.ProxyDelegates | lib/citrus/grammar/proxy.rb:42-51 | a proxy's `elide?` is its target's, and its extensions are its target's followed by its own |
| Grammars.RepeatHelpers | lib/citrus/grammar/grammar_methods.rb:149-167 | `one_or_more` is (1, Infinity), `zero_or_more` (0, Infinity), `zero_or_one` (0, 1) over `Rule.for` of the argument |
| Grammars.Label | lib/citrus/grammar/grammar_methods.rb:182-186 | the same rule `Rule.for` returns, now with the label, every other node unchanged |
| Grammars.Registry.NewGrammar | lib/citrus/grammar/grammar_methods.rb:37-39 | a new empty grammar with the given included grammars, nothing else changed |
| Grammars.Registry.SetName | lib/citrus/grammar/rule.rb:25-27 | sets that rule's name and nothing else |
| Grammars.Registry.SetupSuper | lib/citrus/grammar/grammar_methods.rb:60-66 | every Super among the rule's descendants, and only those, gets the rule name; the arena keeps its shape |
| Grammars.Registry.SetupSuperKids | lib/citrus/grammar/grammar_methods.rb:62 | the loop over the sub-rules renames the Supers below every sub-rule |
| Grammars.Registry.SetGrammar | lib/citrus/grammar/rules/nonterminal.rb:18-21 | the grammar reaches the rule and every descendant, and nothing else; sub-rule lists are unchanged |
| Grammars.Registry.SetGrammarKids | lib/citrus/grammar/rules/nonterminal.rb:20 | the loop over the sub-rules sets the grammar below every sub-rule |
| Grammars.Registry.RecordName | lib/citrus/grammar/grammar_methods.rb:92 | the name is appended to `rule_names` only when the grammar does not define it yet |
| Grammars.Registry.Install | lib/citrus/grammar/grammar_methods.rb:94-99 | the whole new arena: the rule is named, every Super below it takes the name, everything below it belongs to the grammar, every other rule is unchanged; the table maps the name to the rule and nothing else in the grammars changes |
| Grammars.InstalledResolves | lib/citrus/grammar/grammar_methods.rb:94-99 | after installation the rules outside the new rule are untouched, every Alias below it resolves in the grammar's own lookup and every Super below it resolves to `super_rule` of the new rule's name, with the error naming rule and grammar otherwise (alias.rb:21-29, rules/super.rb:22-31) |
| Grammars.Registry.Define | lib/citrus/grammar/grammar_methods.rb:87-106 | without an object a pure lookup; with one, `rule_names` grows only for a new name, the table maps the name to `Rule.for(obj)` and the arena is `Rule.for`'s with that rule installed as `Install` states, a bad object is "Cannot create rule" and leaves the arena and the table as they were, and other grammars are untouched |
| Grammars.Registry.SetRoot | lib/citrus/grammar/grammar_methods.rb:111 | after `root(name)`, `root` is that name |
| Grammars.Registry.SuperRule | lib/citrus/grammar/grammar_methods.rb:71-78 | the search loop returns the first included grammar's answer, nil when none has the name |
| Grammars.Registry.ProxyRule | lib/citrus/grammar/proxy.rb:23-25 | resolves at most once: an already resolved proxy keeps its target, a first resolution records it |
| Grammars.Registry.MakeRepeat | lib/citrus/grammar/grammar_methods.rb:149-152 | `rep` builds the Repeat `NewRepeat` describes, or changes nothing on error |
| Grammars.Registry.MakeSequence | lib/citrus/grammar/grammar_methods.rb:170-172 | `all` builds the Sequence `NewSequence` describes, or changes nothing on error |
| Grammars.Registry.MakeChoice | lib/citrus/grammar/grammar_methods.rb:176-178 | `any` builds the Choice `NewChoice` describes, or changes nothing on error |
| Grammars.Registry.MakeLabel | lib/citrus/grammar/grammar_methods.rb:182-186 | `label` changes the arena as `Label` describes and returns the same rule |
| Semantics.Exec | lib/citrus/input.rb:78-89 | a finished run reaches no further than the text, and a match found is of that rule and ends inside the text |
| Semantics.Test | lib/citrus/input.rb:93-98 | `test` gives a match of that rule ending inside the text, or nil |
| Semantics.Apply | lib/citrus/input.rb:119-121 | `rule.exec` for each variant keeps to the text |
| Semantics.SeqLoop | lib/citrus/grammar/rules/nonterminals/sequence.rb:12-34 | a matched Sequence has one child per remaining sub-rule, inside the text |
| Semantics.ChoiceLoop | lib/citrus/grammar/rules/nonterminals/choice.rb:12-31 | a Choice's match lies inside the text |
| Semantics.RepeatLoop | lib/citrus/grammar/rules/nonterminals/repeat.rb:38-59 | the repetitions lie inside the text |
| Semantics.ButLoop | lib/citrus/grammar/rules/nonterminals/but_predicate.rb:24-40 | the characters consumed lie inside the text |
| Semantics.DotStepIsExec | lib/citrus/grammar/rules/nonterminals/but_predicate.rb:12 | `input.exec(DOT_RULE)` takes one character wherever one is left |
| Agreement.ExecOkFrom | lib/citrus/input.rb:78-89 | `exec` around `apply_rule` performs the same run as the reference semantics, one step of budget more |
| Agreement.TestOkFrom | lib/citrus/input.rb:93-98 | the same for `test` |
| Agreement.ApplyOkCached | lib/citrus/memoized_input.rb:38-44 | a cached run that finished is a sound answer for any budget |
| Agreement.TerminalOk | lib/citrus/grammar/rules/terminal.rb:29-39 | a terminal's result does not depend on the budget |
| Agreement.MemoTransparent | lib/citrus/memoized_input.rb:35-55 | two runs of one rule at one position that both finish agree, whatever their budgets and whether they used the cache |
| Inputs.Input.constructor | lib/citrus/input.rb:5-9 | a new input is at position 0, with `max_offset` 0, an empty cache and no hits |
| Inputs.Input.Reset | lib/citrus/memoized_input.rb:22-26 | `reset` puts the cursor and `max_offset` back to 0, empties the cache and zeroes `cache_hits` |
| Inputs.Input.Exec | lib/citrus/input.rb:78-89 | on success the events of the match are appended to the caller's list, the cursor moves past it and `max_offset` rises to what was reached; on failure the cursor is restored; the run is the reference semantics |
| Inputs.Input.Test | lib/citrus/input.rb:93-98 | the cursor is always restored, and the result is the match's length or nil, as the reference semantics gives |
| Inputs.Input.ApplyRule | lib/citrus/memoized_input.rb:35-55 | a hit adds exactly one to `cache_hits` and appends the cached events; a finished miss stores its (rule, position) entry; the run agrees with the reference semantics |
| Inputs.Input.ExecRule | lib/citrus/input.rb:119-121 | dispatching on the variant, the run agrees with the reference semantics |
| Inputs.Input.TerminalExec | lib/citrus/grammar/rules/terminal.rb:29-39 | a scan that succeeds appends exactly `[self, CLOSE, length]`; one that fails appends nothing |
| Inputs.Input.SequenceExec | lib/citrus/grammar/rules/nonterminals/sequence.rb:12-34 | the sub-rules' events between the marker and its close, or nothing at all, as the reference semantics gives |
| Inputs.Input.ChoiceExec | lib/citrus/grammar/rules/nonterminals/choice.rb:12-31 | the winning alternative wrapped in the Choice's marker and close, or nothing |
| Inputs.Input.RepeatExec | lib/citrus/grammar/rules/nonterminals/repeat.rb:38-59 | the repetitions wrapped, kept only with at least `min` of them, or nothing; an unbounded loop over an empty match stops as divergent |
| Inputs.Input.AndExec | lib/citrus/grammar/rules/and_predicate.rb:22-30 | `[self, CLOSE, 0]` where `test` succeeds, else nothing |
| Inputs.Input.NotExec | lib/citrus/grammar/rules/nonterminals/not_predicate.rb:22-30 | `[self, CLOSE, 0]` where `test` fails, else nothing |
| Inputs.Input.ButExec | lib/citrus/grammar/rules/nonterminals/but_predicate.rb:24-40 | characters consumed with `DOT_RULE` until the sub-rule would match; `[self, CLOSE, length]` for a positive length |
| Inputs.Input.ProxyExec | lib/citrus/grammar/proxy.rb:28-38 | the target's events with only the first overwritten by the proxy; an unresolved name stops the run |
| Behaviour.SeqLoopInOrder | lib/citrus/grammar/rules/nonterminals/sequence.rb:20-28 | a successful Sequence loop matched every remaining sub-rule, each where the one before ended |
| Behaviour.InOrderSeqLoop | lib/citrus/grammar/rules/nonterminals/sequence.rb:20-28 | conversely, sub-rules that match in order make the loop match them |
| Behaviour.SeqLoopStops | lib/citrus/grammar/rules/nonterminals/sequence.rb:20-30 | a sub-rule that fails fails the whole Sequence, and the sub-rules after it are never consulted |
| Behaviour.SequenceMatches | lib/citrus/grammar/rules/nonterminals/sequence.rb:12-34 | a Sequence match has one child per sub-rule, matched in order, and the sum of their lengths |
| Behaviour.SequenceFromParts | lib/citrus/grammar/rules/nonterminals/sequence.rb:12-34 | sub-rules matching in order give exactly that Sequence match |
| Behaviour.SequenceEmpty | lib/citrus/grammar/rules/nonterminals/sequence.rb:18-28 | an empty Sequence matches the empty string with no children |
| Behaviour.ChoiceFirstWins | lib/citrus/grammar/rules/nonterminals/choice.rb:19 | the first alternative that matches after the earlier ones failed wins; later ones are never consulted |
| Behaviour.ChoiceAllFail | lib/citrus/grammar/rules/nonterminals/choice.rb:26-27 | when every alternative fails, the Choice fails |
| Behaviour.ChoiceWinner | lib/citrus/grammar/rules/nonterminals/choice.rb:19-25 | a Choice that matched took the first alternative that matched |
| Behaviour.ChoiceMatches | lib/citrus/grammar/rules/nonterminals/choice.rb:12-31 | a Choice match has exactly one child, the first alternative that matched, and its length |
| Behaviour.ChoiceEmpty | lib/citrus/grammar/rules/nonterminals/choice.rb:16-27 | a Choice without alternatives always fails |
| Behaviour.RepeatLoopRepeated | lib/citrus/grammar/rules/nonterminals/repeat.rb:45-50 | the repetitions are successive matches of the sub-rule, each where the last ended |
| Behaviour.RepeatLoopExhausted | lib/citrus/grammar/rules/nonterminals/repeat.rb:45 | the loop stops only at `max`, at the sub-rule's first failure, or on an unbounded empty match |
| Behaviour.RepeatLoopBounded | lib/citrus/grammar/rules/nonterminals/repeat.rb:45 | never more than `max` repetitions, and no empty one when unbounded |
| Behaviour.RepeatLoopShape | lib/citrus/grammar/rules/nonterminals/repeat.rb:45-56 | greedy: successive matches, within `max`, and as many as could be made |
| Behaviour.RepeatLoopFromParts | lib/citrus/grammar/rules/nonterminals/repeat.rb:45-56 | conversely, repetitions of that shape are what the loop yields |
| Behaviour.RepeatMatches | lib/citrus/grammar/rules/nonterminals/repeat.rb:38-59 | a Repeat match has between `min` and `max` greedy repetitions and their total length |
| Behaviour.RepeatFromParts | lib/citrus/grammar/rules/nonterminals/repeat.rb:38-59 | from its greedy repetitions: a match exactly when there are at least `min`, a failure otherwise |
| Behaviour.RepeatDiverges | lib/citrus/grammar/rules/nonterminals/repeat.rb:45 | an unbounded Repeat whose sub-rule matches emptily never ends in Ruby, and stops as divergent here |
| Behaviour.AndPredicateFollows | lib/citrus/grammar/rules/and_predicate.rb:22-30 | it matches the empty string exactly where `test` of its sub-rule is non-nil, even for an empty match |
| Behaviour.NotPredicateFollows | lib/citrus/grammar/rules/nonterminals/not_predicate.rb:22-30 | it matches the empty string exactly where `test` of its sub-rule is nil |
| Behaviour.ButLoopShape | lib/citrus/grammar/rules/nonterminals/but_predicate.rb:27-31 | the sub-rule matched at none of the consumed positions, and at the end it matches or the text is exhausted |
| Behaviour.ButFailsAtEntry | lib/citrus/grammar/rules/nonterminals/but_predicate.rb:27-33 | where the sub-rule matches at once, the ButPredicate fails |
| Behaviour.ButMatches | lib/citrus/grammar/rules/nonterminals/but_predicate.rb:24-40 | a match has no children and a positive length, up to where the sub-rule first matches or the text ends |
| Behaviour.ProxyFollowsTarget | lib/citrus/grammar/proxy.rb:28-38 | a proxy matches exactly what its target matches, under its own marker; an unresolvable one stops |
| Events.Retag | lib/citrus/grammar/proxy.rb:31-35 | overwriting the first appended event with the proxy gives the events of the proxy's own tree |
| Events.LastLen | lib/citrus/input.rb:97 | there is a last length exactly when the list ends in a length event, and it is that event's length |
| TextLines.LineEnd | lib/citrus/input.rb:24-30 | the first line runs to its newline, or to the end of the text |
| TextLines.LinesShape | lib/citrus/input.rb:24-30 | the lines put back together are the text; each is non-empty, holds no newline before its end, and all but the last end in one |
| TextLines.Reaching | lib/citrus/input.rb:46-54 | the first line from `i` on that ends at or past `pos`, or none |
| TextLines.LineOfPosition | lib/citrus/input.rb:34-54 | a position inside the text lies on the line holding the character before it, at `pos` minus that line's start; other positions are line 0, offset 0 |
| TextLines.LineStartBelongsToPrevious | lib/citrus/input.rb:34-54 | the first position of a line is reported at the end of the line before it |
| TextLines.LineOffset | lib/citrus/input.rb:34-42 | the accumulator loop computes `line_offset` |
| TextLines.LineIndex | lib/citrus/input.rb:46-54 | the counting loop computes `line_index` |
| TextLines.LineNumberOf | lib/citrus/input.rb:58-60 | `line_number` is `line_index` plus one |
| TextLines.LineNumber | lib/citrus/input.rb:58-60 | the method computes `line_number` |
| TextLines.LineOf | lib/citrus/input.rb:66-68 | `line` is the line at `line_index`, nil only for an empty text |
| TextLines.Line | lib/citrus/input.rb:66-68 | the method computes `line` |
| Matches.InfoOf | lib/citrus/grammar/rule.rb:114-116 | the decoder's view of a rule: a non-proxy is elided exactly when it is a Choice, a terminal never; a proxy carries its rule name and borrows its target's `elide?` |
| Matches.InfoTable | lib/citrus/grammar/proxy.rb:42-51 | one entry per rule of the registry |
| Matches.OpenStep | lib/citrus/match.rb:221-239 | a rule event opens a frame, captured unless capture is off or it is the outermost; a proxy turns capture off below it |
| Matches.CloseStep | lib/citrus/match.rb:219-220 | CLOSE only raises the close flag |
| Matches.LenStep | lib/citrus/match.rb:197-218 | the length after a CLOSE pops the frame; a captured one makes its match, records it under its names, and at depth one adds it to the immediate matches |
| Matches.PopMatch | lib/citrus/match.rb:197-218 | the imperative step does exactly what the decoding step describes |
| Matches.TreeWalk | lib/citrus/match.rb:194-243 | decoding the events of one whole tree has the effect described by `WalkedTree` |
| Matches.Decodes | lib/citrus/match.rb:180-244 | decoding a whole match gives its immediate sub-matches and its named captures |
| Matches.ProcessEvents | lib/citrus/match.rb:180-244 | the decoding loop yields exactly those sub-matches and captures |
| Matches.ChildSubsAt | lib/citrus/match.rb:205-211 | the i-th sub-match is the i-th child, at the parent's offset plus the lengths of the siblings before it |
| Matches.ChildSubsReassemble | lib/citrus/match.rb:205-211 | the sub-matches' events, put back together, are the children's events |
| Matches.CaptureAllKeeps | lib/citrus/match.rb:246-266 | captures only grow: a recorded match stays under its key |
| Matches.CaptureAllFinds | lib/citrus/match.rb:246-266 | a match made by a proxy is recorded under its rule name, and one made by a labelled rule under its label |
| Matches.LogAllHasChild | lib/citrus/match.rb:205-206 | every immediate child is created and recorded |
| Matches.ChildCapturedByName | lib/citrus/match.rb:246-266 | an immediate child made by a proxy or a labelled rule can be looked up by that name |
| Matches.ToA | lib/citrus/match.rb:100-102 | `to_a` is the match itself followed by its immediate sub-matches |
| Matches.IndexAgrees | lib/citrus/match.rb:107-114 | `self[i]` indexes `to_a`, negative from the end; an unknown integer capture is nil; other keys go to `captures`, a String folded to its Symbol (match.rb:271-282) |
| Matches.Peel | lib/citrus/match.rb:14-17 | what the constructor keeps is not elided |
| Matches.PeelConsistent | lib/citrus/match.rb:14-17 | stripping keeps a tree whose lengths are consistent |
| Matches.StripOne | lib/citrus/match.rb:15-16 | removing an elided marker and its trailing `[CLOSE, len]` leaves its one child's events |
| Matches.StripStep | lib/citrus/match.rb:14-17 | one turn of the stripping loop keeps what remains to strip and the extensions still owed |
| Matches.RubySlice | lib/citrus/match.rb:53-55 | `str[offset, length]`: nil past the end, otherwise at most `length` characters from `offset` |
| Matches.Match.constructor | lib/citrus/match.rb:7-41 | with events: every leading elided marker stripped, the remaining root's extension applied, then those of the stripped rules; without events: the default stream over the whole text |
| Matches.Match.Length | lib/citrus/match.rb:43-45 | the last event: the length of the match |
| Matches.Match.StringValue | lib/citrus/match.rb:53-55 | the input from `offset`, `length` characters, nil past the end |
| Matches.Match.Equals | lib/citrus/match.rb:116-125 | a String or a Match compares by string value; anything else is unequal |
| Matches.Match.Decode | lib/citrus/match.rb:180-244 | fills the immediate matches and the captures of the match tree |
| Matches.Match.Matches | lib/citrus/match.rb:65-69 | the immediate sub-matches, decoding on first use |
| Matches.Match.Captures | lib/citrus/match.rb:59-63 | `captures[key]`, decoding on first use |
| Matches.Match.Get | lib/citrus/match.rb:107-114 | `self[key]` over the decoded matches and captures |
| Shapes.ExecDecodable | lib/citrus/match.rb:11-23 | every match the engine produces has consistent lengths and one child under each elided marker, so the constructor and the decoder apply |
| Shapes.ProxyElidedTarget | lib/citrus/grammar/proxy.rb:42-44 | a proxy is elided only when its target is |
| Parsing.Detail | lib/citrus/exceptions.rb:41-43 | the line, a newline, `line_offset` spaces and a caret |
| Parsing.NewParseError | lib/citrus/exceptions.rb:12-22 | the error is built from the input's `max_offset` and its line helpers at that offset |
| Parsing.ParseErrorLocates | lib/citrus/exceptions.rb:12-16 | the error points at `max_offset`: its line and offset locate exactly that position in the text |
| Parsing.ParseMessageDetermines | lib/citrus/exceptions.rb:18-19 | the message determines the line number, the column and the detail |
| Parsing.NewSyntaxError | lib/citrus/exceptions.rb:49-54 | a SyntaxError has the wrapped error's line, offset and detail under its own heading |
| Parsing.MatchLength | lib/citrus/grammar/rule.rb:84 | `events[-1]`: the length of a match, nil for a failure |
| Parsing.PeelLength | lib/citrus/grammar/rule.rb:84-90 | the match kept after stripping has the length the stream ends in |
| Parsing.Parse | lib/citrus/grammar/rule.rb:76-91 | an offset past the end is refused; otherwise the run is the reference semantics; a failure, or unconsumed input under `consume`, is a `ParseError` at the input's `max_offset`; otherwise a new Match at the offset over the stripped tree |
| Parsing.TestParse | lib/citrus/grammar/rule.rb:96-100 | the match length, or nil exactly where `parse` raises a `ParseError` |
| Parsing.CaseEquals | lib/citrus/grammar/rule.rb:103-105 | true exactly when the rule matches the whole text from its start |
| Parsing.StartRule | lib/citrus/grammar/grammar_methods.rb:16-19 | no root is "No root rule specified", a name the grammar cannot find is "No rule named", otherwise the rule it finds |
| Parsing.GrammarParse | lib/citrus/grammar/grammar_methods.rb:15-21 | the start rule's `parse`, its result a Match exactly when that rule matches as `consume` requires |

## Left out

- Regular-expression semantics of `StringScanner#scan`. Terminals are literal strings, any-character and character-class patterns, because the Ruby regex engine is foreign code. `StringTerminal` is not part of this model and is treated as a literal terminal.
- Extensions and semantic actions are opaque tags. The model tracks only which ones are applied and in what order. It leaves out `Module.new`, `extend` and `method_missing`.
- `Match#dump`, `inspect`, and `to_citrus` beyond `Repeat#operator` and the label prefix of `to_s`: rendering only. `Rules.ToS` takes a rule's notation as a parameter.
- `Proxy#rule_name=` symbol conversion and the `'<proxy>'` default name: names are strings.
- `Input#source_text`, `Citrus.load`/`require`, `debug.rb`, `peg.rb` and the file-based `parse_file`: file-system access, IO and Ruby evaluation.
- `grammar.rb` module metaprogramming and the Ruby ancestor linearisation behind `included_grammars`. The list of included grammars is given as data, most recently included first.
- `Float::INFINITY` is the `Infinity` constructor of `Rules.Bound`.
- Non-termination. The source loops forever on an unbounded Repeat over a zero-length match, and on left recursion. Every run carries a fuel budget: the first case stops as `Diverges`, running out of budget stops as `OutOfFuel`, and neither is a claim about Ruby.
- An unresolvable proxy name raises `Citrus::Error` deep inside a parse. Here the run stops with `Unresolved`.
- Object identity of matches. A sub-match is a value: its events and its offset.
- `input.pos = offset` raises `RangeError` for an offset past the end. Here that is the `OffsetOutOfRange` failure.
- `Matches.InfoOf`: follows at most as many proxies as the registry has rules. A longer chain is a cycle, whose `elide?` never returns in Ruby.
- The decoder's view of each rule (`elide?` and extensions) is computed from the registry before matching rather than asked lazily. Resolving a proxy during the parse records the target it would have had anyway, so the two agree.
- `Matches.Step`: a length event outside a close does not occur in a stream of whole matches. It is skipped rather than pushed as Ruby would.
- `to_a[start, length]` and `Range` keys of `Match#[]`. Only single integer indices and names are modelled.
- Repeated `extend` of the same module, and the visible effect of extensions on the match.
- `Inputs.Input.ApplyRule`: "rule.exec runs at most once per (rule, position) between resets" is stated in two parts. A finished miss stores its entry, and a stored entry is answered without running the rule. That entries are never dropped before a reset is not stated as its own clause.
- Positions count characters of a `seq<char>`. `StringScanner#pos` counts bytes, so on multibyte text the offsets differ: the `pos` advance by the last length (memoized_input.rb:43), `max_offset`, `line_offset` and the slice `Match#string` takes (match.rb:54).
- `Rules.Obj`: `Num(n)` is an Integer only. A Float or Rational `Numeric` would become the literal of its own `to_s` (rule.rb:15), which is not modelled.
- `Rules.Obj`: `Rng(elements)` is a Range already expanded by `obj.to_a` (rule.rb:14). `String#succ` enumeration and the `TypeError` of a Float range are not modelled.
- `Grammars.Registry.MakeRepeat`, `Grammars.Registry.MakeLabel`: the optional block, which `ext` turns into the rule's extension (grammar_methods.rb:191-196), is not taken. `ext` itself is modelled only as `Rules.SetExtension` on one rule.
- Exception message texts. Each failure is a `Rules.ConfigError` constructor carrying the names its message interpolates; the text is not built. `NoGrammar` stands for Ruby's own `NoMethodError` when a proxy without a grammar calls `rule` or `super_rule` on nil (alias.rb:22, super.rb:23).
- `Rules.OperatorRoundTrip`, `Rules.Options`: ill-typed bounds and offsets are outside the model. `Rules.Kind`'s `Repeat` takes a `nat` minimum and a `nat` or `Infinity` maximum, while repeat.rb:25-30 accepts any comparable bounds (`[-1, Infinity]` prints `-1*`); `Rules.OperatorRoundTrip` holds over that domain only. `Rules.Options` takes a `nat` offset, while rule.rb:81,90 skips `pos=` for a negative offset and still hands it to `Match.new`.
- Concurrency: there is none in the source.
