# Trieste: a verified model of its matching core

Trieste rewrites trees. A pass holds rules, each a tree pattern with an
effect; a pattern may match the text of a node with a regular expression, and
the parser of a language is itself a list of regular expressions. This project
models that machinery and proves what it promises:

- **Regular expressions.** A pattern is scanned rune by rune into a postfix
  token stream, the stream becomes an automaton, the automaton's epsilon
  closures are cached, and two simulators run it over UTF-8 text: one for the
  longest prefix, one that carries captures in a bounded arena. The main
  result is end to end: an engine compiled from a written pattern reports the
  longest prefix which that pattern describes, and captures which belong to
  the preferred run over that prefix. `Search`, `GlobalReplace` and the
  dispatch table of a regex set are proved on top of it.
- **Rewriting.** Tree patterns have a declarative meaning on environments; the
  matcher keeps captures in a stack of frames and is proved to refine it,
  under a condition on captures inside actions that is shown to be exact. The
  quick check on parents and first kinds is proved sound, and so is the index
  of rules built from it; a pass that uses it ends only in normal forms. The
  analysis that reports a rule shadowed by an earlier one is proved sound, and
  the patterns on which it is undefined are characterized.
- **Trees.** Writing a tree as text and reading it back gives an equal tree. A
  generated tree passes the well-formedness check. The marks on ancestors, the
  lifting of nodes and the fixpoint worker keep their invariants.

The modules follow the source files. `RuneClasses` to `Agreement` model
`regex_engine.h` and `regex.h`; `TreePatterns` to `Sweeps`, `PrefixChecks` and
`PrefixEnds` model `rewrite.h`, `checker.h`, `defaultmap.h` and the rewriting
of `pass.h`; `TreeText`, `TreeReader`, `TreeRoundTrip`,
`TreeGenerator`, `NodeMarks`, `Lifting` and `NodeWorkers` model the rest. What
the source does step by step is a method with loops, or a class with the
source's fields, proved against a specification; the laws are lemmas about the
specifications.

`dafny verify dfyconfig.toml` checks the project.

Where the code differs from what its comments or callers suggest, the model
follows the code, shows an input, and states when the two agree:

- A capture inside an action is invisible to `has_captures`, so a lookahead,
  a negation, a repetition or a first branch may leave it behind
  (`HiddenCaptures`).
- Making a pattern optional keeps the parents of its quick check, so a rule
  can be skipped where it matches (`FastPatterns.OptSoundIff`).
- A regex set answers the empty text from a table that also counts matches
  under conditions which an empty text does not meet (`Dispatch.EmptyViewAnswer`).
- A node that registers twice with one unresolved node never wakes
  (`NodeWorkers.CountRightIff`).
- `add_flags` tells ancestors of an error or of a lift, not of both
  (`NodeMarks.AddFlags`, `NodeMarks.LoseMark`); lifting then leaves Lift nodes
  behind (`Lifting.LiftsAllIff`, `Lifting.MissingMarkStays`).
- A byte before a position tells whether a word character precedes it only if
  none is spelled overlong (`Search.ByteTellsWordIff`,
  `Search.OverlongMisleads`), and a text that begins with an ASCII character
  in two bytes hides matches from the dispatch table
  (`Dispatch.DishonestMisleads`).
- A dot or a shorthand without a label of its own shares the label of the first class
  (`ClassOverflow.OverflowMisleads`, `WrittenMeaning.LabelExact`).
- The shadowing analysis reads past the end of a pattern when a wildcard
  meets lookahead with which a group ends (`PrefixEnds.LookaheadUndefined`);
  `PrefixEnds.WalksOffIff` says for which patterns some prefix makes it do so.
- A sequence shape whose bounds are inverted is generated but not accepted
  (`TreeGenerator.SequenceFitsIff`). The subscript operator at
  include/trieste/wf.h:435-457 refuses such bounds, so only a `Sequence` that
  is constructed directly has them.
- An empty alternative, as in `a|` or `()`, is an internal error, although
  section 3 of RFC 9485 allows empty branches (`PatternRegexes.StreamDenotes`).

## Model

| member | source | states |
|---|---|---|
| `RuneClasses.Finalize` | include/trieste/regex_engine.h:260-281 | sorting and merging keeps exactly the members, whatever ranges were added, and leaves the ranges sorted, disjoint and not adjacent, with a bitmap that agrees with them |
| `RuneClasses.Complement` | include/trieste/regex_engine.h:284-333 | a scalar value is in the complement exactly if it is not in the class, even if a range starts or ends among the surrogates or beyond the last rune; of a class below the last rune the complement has scalar values only |
| `ClassTable.ShorthandFits` | include/trieste/regex_engine.h:1654-1678 | the classes of `\d`, `\s`, `\w` and of their complements have exactly the members that the letters stand for |
| `Brackets.ParseCharClass` | include/trieste/regex_engine.h:1871-2053 | the loop between brackets, on any byte string, reads what the element-by-element specification reads, or refuses with its error |
| `Brackets.BracketRead` | include/trieste/regex_engine.h:1871-2053 | wherever a bracket expression is written, with characters, escapes, ranges, shorthands, POSIX names, categories and dashes at either end, it is read back as its class, or refused for its first inverted range or unknown category; the classes of the categories read are given along, since they take labels |
| `Brackets.ExpressionMeaning` | include/trieste/regex_engine.h:1871-2053 | the class has exactly the runes that the expression describes, negation included |
| `Brackets.CategoryItemMeans` | include/trieste/regex_engine.h:1728-1773 | a category escape outside brackets matches exactly the runes of the category, or the scalar values outside it |
| `Brackets.PosixMeaning` | include/trieste/regex_engine.h:1777-1867 | each POSIX name has the members of its ASCII set |
| `Brackets.ReadersAreSound` | include/trieste/regex_engine.h:1728-2053 | on every byte string the readers stay inside the pattern, build classes that are ready for matching, and report an error otherwise |
| `Brackets.WrittenIsRead` | include/trieste/regex_engine.h:1871-2053 | a pattern whose brackets and categories are such expressions is read as it is meant, so the results below hold for it with these readers |
| `RuneClasses.FinalizedComplementable` | include/trieste/regex_engine.h:260-333 | whatever ranges between scalar values were added, the finalized class meets what the complement asks |
| `PatternBuilder.PostfixBuilder.RegexpToPostfix` | include/trieste/regex_engine.h:2643-2772 | the in-place scanner, with its stacks, spans and repeat expansion, yields the tokens, classes, group count and error of a pure scanning machine, on every byte string |
| `ScanMachine.StepMoves` | include/trieste/regex_engine.h:2643-2772 | every step of the scan consumes input and stays inside the pattern, so the scan ends |
| `PatternSyntax.ScanPrinted` | include/trieste/regex_engine.h:2176-2640 | scanning the written form of any pattern tree has the effect of walking that tree: the grammar is recognized unambiguously |
| `TokenStreams.PatternScanned` | include/trieste/regex_engine.h:2104-2151 | the tokens emitted while scanning, with the operators held back in group frames, are the postfix stream of the pattern tree, and the classes and groups are numbered in its order |
| `Limits.ScansIffWithin` | include/trieste/regex_engine.h:2323-2545 | a written pattern is accepted exactly if its repeat bounds, expansions, nesting, groups and references are within the configured limits, a condition on the pattern alone |
| `Repetition.ExpansionMeaning` | include/trieste/regex_engine.h:2323-2480 | the copies that `{n}`, `{n,}` and `{n,m}` are expanded to match exactly the stretches covered by an admitted number of consecutive matches |
| `Postfix.PostorderUnique` | include/trieste/regex_engine.h:2836-2944 | the stack reduction that the automaton builder performs leaves one operand exactly for the postorder of that operand: a stream denotes at most one regex |
| `PatternRegexes.StreamDenotes` | include/trieste/regex_engine.h:2836-2944 | a pattern's stream denotes a regex exactly if every operator has its operands; empty branches and groups are those that fail |
| `WrittenMeaning.PatternMeaning` | include/trieste/regex_engine.h:2176-2640 | the regex compiled from a pattern matches exactly the stretches which the notation describes, item by item, with repeat bounds, classes, categories and anchors, in every text, whenever every class has a right label |
| `Thompson.NfaBuilder.PostfixToNfa` | include/trieste/regex_engine.h:2836-2944 | succeeds exactly if the stream is within bounds and leaves one operand, with the reduction's own error otherwise; the states are then the automaton of that operand, with all dangling exits patched to accept |
| `Thompson.NfaBuilder.AddSplit` | include/trieste/regex_engine.h:2784-2834 | the split of `?`, `*`, `+` and their lazy forms closes the loop, leaves the right exits, and puts the preferred branch first |
| `Nfa.MatchReaches` | include/trieste/regex_engine.h:2784-2944 | every match of a regex, with its captures, is a run of the automaton with those captures |
| `Nfa.AcceptingRunMatches` | include/trieste/regex_engine.h:2784-2944 | every accepting run passes through the exit by a match of the regex with the run's captures |
| `Closures.PrecomputeClosures` | include/trieste/regex_engine.h:1246-1453 | every cached slot holds exactly the states reached by epsilon steps under the slot's flags, each once; it fails exactly if the cache would exceed its bound |
| `Reachability.LiveIffReached` | include/trieste/regex_engine.h:2972-3085 | the state sets computed rune by rune are those that runs from the start reach |
| `Reachability.AcceptIffMatches` | include/trieste/regex_engine.h:2946-3085 | the accept state is alive at a boundary exactly if the pattern matches the text up to there |
| `Engine.RegexEngine.FindPrefixNoncapturing` | include/trieste/regex_engine.h:1023-1111 | on every byte string and context the result is the byte length of the longest matching prefix, or none; closure caches, epochs, trivial states and ASCII bitmaps change nothing |
| `CapturePaths.PreferredUnique` | include/trieste/regex_engine.h:1139-1224 | of all simple paths to a state at a boundary at most one is the preferred one, under the order in which splits list their branches |
| `CaptureTours.TopPreferred` | include/trieste/regex_engine.h:1139-1224 | whenever the depth-first tour meets a state for the first time, it does so on the preferred path |
| `CaptureTours.TourDone` | include/trieste/regex_engine.h:1139-1224 | a finished tour leaves one thread for every terminal state that is reached, in order of preference |
| `CaptureMatch.AddStateCapturing` | include/trieste/regex_engine.h:1139-1224 | the explicit stack with copied capture frames follows that tour; a clone is dropped only when the arena is full |
| `CaptureMatch.ThreadPreferred` | include/trieste/regex_engine.h:1139-1224 | the first thread at a state carries the captures of its preferred path |
| `CaptureMatch.FindPrefixWithContext` | include/trieste/regex_engine.h:853-1019 | captures always come from one accepting run over the reported prefix; with room in the arena the prefix is the longest and the run is the preferred one; the frames taken are given exactly |
| `CaptureMatch.FramesAtTheEnd` | include/trieste/regex_engine.h:469-503 | a clone has been refused exactly if the capture states reached, boundary by boundary, outnumber the arena, a condition on automaton and text |
| `CaptureSpans.UnsetOrSpan` | include/trieste/regex_engine.h:1139-1224 | after a match each group is unset or spans a match of its own body inside the whole match |
| `Compile.CompilePattern` | include/trieste/regex_engine.h:598-617 | an engine results exactly for well-formed patterns within the limits whose automaton fits the closure cache; it then has the pattern's regex, classes and groups |
| `Compile.LongestMeaning` | include/trieste/regex_engine.h:598-617 | what it means for a length to be the longest prefix of the compiled regex is what the written pattern says; the simulators that report it are the two members above |
| `Compile.CapturesAreSpans` | include/trieste/regex_engine.h:853-1019 | each capture an engine reports is unset or spans a match of the written group inside the reported prefix |
| `Agreement.MatchBothWays` | include/trieste/regex_engine.h:598-1111 | compiling a pattern and matching with both simulators: both describe the longest prefix the pattern means, and with room for the captures they agree |
| `Agreement.LongestUnique` | include/trieste/regex_engine.h:1023-1111 | there is one longest prefix |
| `Agreement.ReportUnique` | include/trieste/regex_engine.h:853-1019 | with room in the arena the engine and the text determine the length and every capture |
| `RegexWriter.PatternWritten` | include/trieste/regex_engine.h:2176-2640 | a regex tree written with `(?:...)` by precedence denotes that tree again |
| `RegexWriter.WriterScans` | include/trieste/regex_engine.h:2643-2772 | scanning the written form gives the tree's postorder, unless the form exceeds a limit |
| `RegexWriter.CompileRegex` | include/trieste/regex_engine.h:598-617 | write, scan and compile: the engine's pattern is the tree, exactly if limits and cache allow it |
| `WrittenMeaning.LabelExact` | include/trieste/regex_engine.h:1681-1695 | a class matches as written, on every rune, exactly if a label is left for it or the first class has the same members |
| `WrittenMeaning.FewReferences` | include/trieste/regex_engine.h:1681-1695 | with no more class references than labels every class has a right one |
| `ClassOverflow.OverflowMisleads` | include/trieste/regex_engine.h:1681-1695 | more class references than labels: an accepted pattern stands for a digit, but its engine matches a letter |
| `Search.Search` | include/trieste/regex_engine.h:765-830 | the leftmost match and the longest one there, or none anywhere, whenever no word character is spelled overlong and the probes have room for captures; what is found always has a credible length and captures |
| `Search.OverlongMisleads` | include/trieste/regex_engine.h:765-830 | the two bytes C1 81 spell a letter: behind it the text has a word boundary that the search does not see |
| `Search.ByteTellsWordIff` | include/trieste/regex_engine.h:765-830 | looking back one byte decides the word-boundary context at every position exactly if no word character is spelled overlong |
| `Replacement.GlobalReplace` | include/trieste/regex.h:289-409 | the output is the input with the stretches of the hits replaced by the template, the count is theirs, and the hits are all leftmost longest matches one after the other; it ends on every input, empty matches included |
| `Replacement.MatchesAreUnique` | include/trieste/regex.h:289-409 | there is one such list of hits, so the output is determined |
| `Replacement.ReplacedByItself` | include/trieste/regex.h:289-409 | replacing every match by `\0` is the identity |
| `Dispatch.ComputeFirstCharInfo` | include/trieste/regex_engine.h:3094-3153 | the bitmap and flags cover every byte and condition under which a match can begin |
| `Dispatch.CandidatesDecide` | include/trieste/regex.h:760-832 | trying only the candidates of the first byte finds the regex that trying all of them in order would find |
| `Dispatch.DishonestMisleads` | include/trieste/regex.h:760-832 | for every text that begins with an ASCII character in more than one byte, the literal for it matches but is no candidate, so the condition on texts is needed |
| `Dispatch.TRegexSet.Match` | include/trieste/regex.h:760-832 | on a non-empty text the result is the first regex that matches a prefix, none being hidden by the table |
| `Dispatch.EmptyViewAnswer` | include/trieste/regex.h:760-832 | on an empty text the table's answer is right exactly if the first listed regex accepts the empty string under the flags of an empty text |
| `Dispatch.EmptyViewMisleads` | include/trieste/regex.h:760-832 | a lone word boundary is listed for the empty text but does not match it |
| `EmptyMatches.NullableMatches` | include/trieste/regex_engine.h:3094-3153 | a regex matches the empty stretch at a position exactly if it is nullable under the flags there |
| `TreePatterns.EndIgnoresEnv` | include/trieste/rewrite.h:386-1077 | where a pattern ends never depends on captures made before it |
| `MatchFrames.ChainRefines` | include/trieste/rewrite.h:20-112 | from every frame stack, matching with frames, return points and overwritten slots has the verdict, end and captures of the declarative meaning |
| `MatchFrames.TryPattern` | include/trieste/rewrite.h:386-1077 | the matcher on a reused match object has exactly the end and captures that the pattern means, with nothing left from earlier matches |
| `HiddenCaptures.PredExact` | include/trieste/rewrite.h:386-1077 | a lookahead for nodes, children, captures and actions keeps its captures apart exactly if it binds none, inside actions included |
| `HiddenCaptures.NegPredExact` | include/trieste/rewrite.h:386-1077 | the same of negative lookahead |
| `HiddenCaptures.RepExact` | include/trieste/rewrite.h:386-1077 | the same of repetition |
| `HiddenCaptures.NotExact` | include/trieste/rewrite.h:386-1077 | the same of a negated pattern |
| `HiddenCaptures.ChoiceExact` | include/trieste/rewrite.h:386-1077 | a first branch in which no capture shows is safe before every second branch exactly if it hides none |
| `HiddenCaptures.HiddenCaptureLeaks` | include/trieste/rewrite.h:386-1077 | a choice whose first branch fails after an action keeps that action's capture |
| `FastPatterns.FastPatternSound` | include/trieste/rewrite.h:120-303 | wherever a pattern built by the combinators matches, its quick check allows the parent and the first child |
| `FastPatterns.OptSoundIff` | include/trieste/rewrite.h:1112-1197 | the check of an optional pattern is sound exactly if the operand's check does not name parents without first kinds |
| `FastPatterns.RepSoundIff` | include/trieste/rewrite.h:1112-1197 | the same of a repeated pattern |
| `FastPatterns.OptionalParentMissed` | include/trieste/rewrite.h:1112-1197 | `In(x)` before any child, made optional, matches under a parent its check refuses |
| `RuleIndex.DefaultMap.ModifyAll` | include/trieste/defaultmap.h:64-71 | every key, explicit or not, sees the change |
| `RuleIndex.DefaultMap.Modify` | include/trieste/defaultmap.h:77-85 | exactly the keys that share the slot see the change, starting from the default |
| `RuleIndex.IndexLists` | include/trieste/pass.h:212-256 | under every parent and first kind the index lists at least the rules that apply, in order, though kinds share slots |
| `RuleIndex.IndexFindsFirst` | include/trieste/pass.h:310-344 | scanning the listed rules finds the first rule which a scan of all rules finds |
| `RuleIndex.Pass.SelectRule` | include/trieste/pass.h:310-344 | the rule that fires at a child, with its end and its change, is the one a scan of all rules stops at |
| `Sweeps.MatchChildren` | include/trieste/pass.h:310-369 | a sweep over the children makes the changes, in the order and at the places, that trying all rules at every child would make |
| `Sweeps.FinishedIsQuiet` | include/trieste/pass.h:310-369 | a sweep that starts again after every change is finished only when no rule fires at any child |
| `Sweeps.OnceEnds` | include/trieste/pass.h:347-369 | a sweep that goes on behind what it has put in ends within as many rounds as there are children and leaves alone what lies ahead |
| `Sweeps.UnchangedIsQuiet` | include/trieste/pass.h:310-369 | whatever the flags, a finished sweep without changes means that no rule fires at any child |
| `Sweeps.Apply` | include/trieste/pass.h:371-412 | from the top down or from the bottom up, a finished traversal without changes leaves the tree as it was, and no rule fires anywhere in it |
| `Sweeps.Run` | include/trieste/pass.h:146-181 | a pass that is run until nothing changes ends only in a tree in which no rule fires |
| `PrefixChecks.IncludesPrefix` | include/trieste/checker.h:365-481 | the two stacked iterators compute a recursive comparison of the patterns, with its undefined case told apart |
| `PrefixChecks.GroupSound` | include/trieste/checker.h:365-481 | if the analysis says that one pattern includes another as a prefix, it matches at every place, under every oracle, where the other does |
| `PrefixChecks.GroupMutual` | include/trieste/checker.h:365-481 | patterns that include each other match at the same places, which negation needs |
| `PrefixChecks.Shadows` | include/trieste/checker.h:770-822 | a rule reported as shadowing a later one matches wherever that one does |
| `PrefixEnds.WalksOffIff` | include/trieste/checker.h:365-481 | some prefix makes the analysis read past the end of a pattern exactly if lookahead that ends a group can be reached, past parts that a prefix can get past or inside one of them; this is decided on the pattern alone, for every pattern |
| `PrefixEnds.StaysInside` | include/trieste/checker.h:365-481 | where lookahead is followed by a node in its own group, no prefix makes it do so |
| `PrefixEnds.LookaheadUndefined` | include/trieste/checker.h:438-446 | a wildcard before one part of lookahead does |
| `PrefixChecks.UncheckedMisleads` | include/trieste/checker.h:485-586 | the checks on single patterns are needed: without them the analysis claims an inclusion that fails |
| `TreeText.Str` | include/trieste/ast.h:747-812 | the iterative writer with its origin stack writes the text of the recursive specification |
| `TreeReader.BuildAst` | include/trieste/regex.h:861-1033 | the reader's loop, on any text and position, builds what the token-by-token specification says, or rejects |
| `TreeRoundTrip.ReloadUndoesWriting` | include/trieste/regex.h:861-1033 | whatever surrounds it, the text of a tree is read back to that tree with its print nodes relocated as stated, for every length-prefixed content |
| `TreeRoundTrip.ReloadedEquals` | include/trieste/ast.h:697-707 | the tree read back equals the one written |
| `TreeRoundTrip.ReloadedPlaces` | include/trieste/regex.h:861-1033 | source names and positions come back in every node that has them |
| `TreeRoundTrip.WritingSettles` | include/trieste/ast.h:747-812 | a tree without bound symbols is written again as the same text |
| `TreeRoundTrip.SameTextSameTree` | include/trieste/ast.h:747-812 | trees written alike are equal |
| `TreeRoundTrip.Dump` | include/trieste/ast.h:747-812 | write behind a header, read back: an equal tree with the same places |
| `TreeGenerator.Generate` | include/trieste/wf.h:971-1029 | whatever the random choices, a completed tree is well-formed in shape and bindings |
| `TreeGenerator.BuiltPasses` | include/trieste/wf.h:819-886 | trees built shape by shape pass the check, whichever nodes carry flags |
| `TreeGenerator.SequenceFitsIff` | include/trieste/wf.h:410-541 | a generated sequence passes its own check exactly if its bounds are in order or an Error is among its children |
| `NodeMarks.AddFlags` | include/trieste/ast.h:202-226 | error marks stay complete; lift marks stay complete exactly if a node that holds an error had no lift its parent did not know of |
| `NodeMarks.PushBack` | include/trieste/ast.h:463-485 | the same for attaching a child; among nodes without errors both marks always stay complete |
| `NodeMarks.LoseMark` | include/trieste/ast.h:202-226 | a node that holds an Error and a Lift is attached, and the root has no Lift mark |
| `NodeMarks.AncestorsMarked` | include/trieste/ast.h:202-226 | complete marks show at every ancestor, so stopping at a marked one misses none |
| `NodeMarks.MarkedIsClosed` | include/trieste/pass.h:464-503 | complete marks make the tree one in which marks lead to all Lift nodes |
| `Lifting.Lift` | include/trieste/pass.h:464-503 | the splicing loop yields the cleaned tree and the escaping payloads of a recursive specification, and lets only payloads for other kinds escape, whatever the marks are |
| `Lifting.LiftsAllIff` | include/trieste/pass.h:464-503 | no Lift node is left in the tree or inside what escapes exactly if marks lead to all of them |
| `Lifting.MissingMarkStays` | include/trieste/pass.h:464-503 | one mark is missing: the Lift node below stays, although it is addressed to the root |
| `Lifting.LiftConserves` | include/trieste/pass.h:464-503 | lifting loses and adds no node: each is in the tree or in what escapes, as often as before |
| `NodeWorkers.NodeWorker.Run` | include/trieste/nodeworker.h:112-233 | a run ends with an empty worklist, no active node, and every blocked node waiting for a blocked one |
| `NodeWorkers.RunAll` | include/trieste/nodeworker.h:112-233 | if what nodes wait for has no cycle, every node met is resolved |
| `NodeWorkers.NodeWorker.BlockOnAll` | include/trieste/nodeworker.h:112-233 | a node sleeps exactly if some listed node is unresolved, and is then registered with all those |
| `NodeWorkers.CountRightIff` | include/trieste/nodeworker.h:112-233 | its count is right exactly if no unresolved node is listed twice |
| `NodeWorkers.RepeatedOriginSticks` | include/trieste/nodeworker.h:112-233 | one unresolved node listed twice leaves it blocked for good |
| `NodeWorkers.BlockedWaits` | include/trieste/nodeworker.h:112-233 | when the worklist is empty a blocked node is registered with a blocked one |

## Left out

- Strict mode: the scanner is modelled in the extended mode, which is the default.
- The Unicode category tables are a parameter; they are asked to hold ranges of runes that start at no inner surrogate.
- Labels are constructors instead of runes in a reserved range; the visited sets are sets of indices with an epoch, the capture arena is a list of frames, and per-state flags are sequences beside the states.
- Statistics, the thread-local match context, moves, reference counts and the ownership of states.
- `Compile.LongestMeaning`: asks that every class which is not removed has a right label, which holds for every pattern with at most 65536 class references (`WrittenMeaning.FewReferences`). For each single class that condition is exact (`WrittenMeaning.LabelExact`); for a whole pattern several wrong labels may cancel out.
- `CaptureMatch.FindPrefixWithContext`: preference among runs is stated on paths of the automaton, whose splits put the greedy or lazy branch first, and which do not come back to a state without reading a rune; it is not stated on parse trees of the regex, where nested lazy loops as in `(b*?)*` may be ordered differently.
- `MatchFrames.ChainRefines`: its condition is exact for each construct around a pattern of nodes, children, captures and actions, not for whole patterns, where a leak may be unreachable or overwritten (`HiddenCaptures.UnreachedIsHarmless`).
- `MatchFrames.TryPattern`: asks that repeated patterns consume a child; repeating one that does not would not end in the source either.
- `Sweeps.Run`: the lifting between two traversals and the functions to run before and after nodes are not part of it; rounds, depth and repetitions are bounded, since rules may keep on firing. Regex matches, actions and effects are parameters, and nodes have no locations.
- `Lifting.Lift`: works on values, linked to the marks of mutable nodes by `NodeMarks.MarkedIsClosed`; iterators into the children and reset marks are not captured.
- A tree pattern over the children of a childless node: the source reads the end iterator, the model calls it no match.
- `TreeReader.BuildAst`: its regular expressions are scanning functions on decoded runes, with the same alternatives in the same order; symbol tables are skipped, as in the source, so symbols do not come back.
- `TreeRoundTrip.ReloadUndoesWriting`: symbol names must not contain a closing brace; the location of a node that is not printed may come back outside its source.
- `TreeGenerator.Generate`: weights, distances to terminals and the generator of random numbers are a parameter, and depth is bounded by a budget, since termination is only probable.
- `PrefixChecks.Shadows`: the rendering of reports and the other checks of rules against a well-formedness specification are not modelled.
- `NodeWorkers.NodeWorker.Run`: a node's work is a function of the states, seeding and finalizing callbacks have no effects of their own, and a universe of nodes bounds the run.
- The language parsers, readers and writers, the fuzzer, symbol lookup, logging and source location printing.
- Matching at a position of the parser and its mode switching beyond the regex set's choice.
