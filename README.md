# Grammar toolkit core, modelled in Dafny

This project models the core of a small Python toolkit for formal grammars
G = (N, T, P, S) of Chomsky types 2 (context-free, "Tipo 2") and 3 (regular,
"Tipo 3"), and proves properties of that model. The toolkit lets a user
build a grammar, check it, test whether a string belongs to its language
(with a derivation tree), and list the first strings of the language.

The modules follow the source files:

- `wrappers.dfy` (`Wrappers`): the `Option` type.
- `strings.dfy` (`Strings`): the Python string operations the core relies on:
  `startswith`, slicing past the end, `strip()`, `split()`, `''.join`.
- `grammar.dfy` (`Grammars`), from `grammar.py`:
  - the `Grammar` class with its in-place builder methods;
  - `GrammarData`, a value snapshot of its fields, with the same operations as functions;
  - the fail-fast `validate`, with its verdict as a `Reason`;
  - the dictionary mapping of `to_dict` / `from_dict`.
- `terminals.dfy` (`Terminals`): terminal matching shared by both parsers.
  - Python's `sorted(terminals, key=len, reverse=True)`.
  - The first sorted terminal that is a prefix (`_try_match_terminal`).
  - The reference notion it computes: the longest terminal that is a prefix.
- `tokenizer.dfy` (`Tokenizer`): the symbol splitter `_parse_production_symbols`.
- `contextfree.dfy` (`ContextFree`): `Type2Parser`.
  - A recursive-descent parser with backtracking, as three mutually recursive functions.
  - Each expansion of a non-terminal uses one unit of *fuel*, and a three-way outcome `Success` / `Fail` / `OutOfFuel`.
  - The class methods are proved equal to those functions.
- `regular.dfy` (`Regular`): `Type3Parser`.
  - The transition table built from the productions.
  - The simulation that reads the longest terminal at each position and keeps the set of active states.
  - The chain-shaped derivation tree.
- `parsers.dfy` (`Parsers`): the factory `create_parser`.
- `generator.dfy` (`Generation`): `StringGenerator`.
  - The breadth-first search over sentential forms, with its visited set, first-non-terminal rewriting and a depth ceiling of 20.
  - It is proved against a ghost loop invariant (`Searching`) and terminates by a weight measure.
- `tree.dfy` (`DerivationTrees`): `TreeNode` and `DerivationTree`.
  - The renderer `to_text`, and a reference pre-order outline that the rendered lines are proved to follow.

A few behaviours of the code that the model keeps as they are:

- The context-free parser checks whether a symbol is a terminal before checking whether it is a non-terminal.
- The tokenizer tries only terminals, and otherwise takes one character.
- The first production that matches completely wins.
- There is no recursion-depth guard.

Where the code differs from its own description, the model follows the code:

- `generate_strings` is documented as returning "the first max_count shortest strings" (generator.py:18), "ordered by length" (generator.py:24).
  - What the code guarantees is order by derivation depth, and that is what `GenerateStrings` states.
  - For example, with S → `aaa` | `A` and A → `b`, the code lists `aaa` (depth 1) before `b` (depth 2).
  - For the same reason the strings returned need not be the shortest ones: with `max_count` = 1 the result is `aaa`, not `b`.

## Model

| member | source | states |
|---|---|---|
| Grammars.Grammar.constructor | grammar.py:13-26 | a new grammar has the given name and kind, empty N, T and P, and no start symbol |
| Grammars.Fresh | grammar.py:13-26 | the fresh snapshot has no symbols, no productions and no start, so its production keys equal N |
| Grammars.GrammarData.WithNonTerminal | grammar.py:28-32 | the symbol joins N; it gets an empty production list only if it had none; other lists, T, name, kind and start are unchanged; keys(P) == N is kept |
| Grammars.Grammar.AddNonTerminal | grammar.py:28-32 | the object's new fields are the old snapshot with the non-terminal added |
| Grammars.WithNonTerminalIdempotent | grammar.py:28-32 | adding a non-terminal twice is adding it once |
| Grammars.GrammarData.WithTerminal | grammar.py:34-36 | the symbol joins T and nothing else changes; keys(P) == N is kept |
| Grammars.Grammar.AddTerminal | grammar.py:34-36 | the object's new fields are the old snapshot with the terminal added |
| Grammars.GrammarData.WithProduction | grammar.py:38-48 | the left side joins N; the right side is appended at the end of its list; no other list changes; keys(P) == N is kept |
| Grammars.Grammar.AddProduction | grammar.py:38-48 | the object's new fields are the old snapshot with the production appended |
| Grammars.GrammarData.WithStart | grammar.py:50-54 | the start becomes the symbol, which is then in N, added as by `add_non_terminal` if it was missing; keys(P) == N is kept |
| Grammars.Grammar.SetStartSymbol | grammar.py:50-54 | the object's new fields are the old snapshot with the start symbol set |
| Grammars.Apply | grammar.py:13-54 | any sequence of builder calls keeps keys(P) == N, and the name and kind |
| Grammars.BuiltGrammarPassesLeftCheck | grammar.py:79-81 | a grammar built from a fresh one by builder calls never fails the left-side check |
| Grammars.LeftCheckNeverFailsWhenKeysMatch | grammar.py:79-81 | the left-side check cannot fail while keys(P) == N |
| Grammars.Grammar.Validate | grammar.py:56-93 | the result is the first failing check in the fixed order, or success when none fails; a "Tipo 3" violation names a left side and the first right side in its list with more than one non-terminal; valid is true exactly on success |
| Grammars.ValidIffAllChecksPass | grammar.py:63-93 | a grammar is accepted exactly when it passes every check, taken in any order |
| Grammars.ValidMessageOnlyWhenValid | grammar.py:63-93 | the message "Gramática válida" is returned exactly with the success verdict |
| Grammars.NoNonTerminalsUnreachable | grammar.py:66-70 | the "no non-terminals" verdict is never returned, because the start symbol is already known to be in N |
| Grammars.OnlyType3ChecksArity | grammar.py:84-91 | the arity verdict is only given to "Tipo 3" grammars, for a right side with two positions holding non-terminal characters |
| Grammars.TooManyIffTwoPositions | grammar.py:89-90 | the count of non-terminal characters exceeds one exactly when two positions hold a non-terminal character |
| Grammars.ListOf | grammar.py:100-101 | `list(set)` lists every element of the set exactly once |
| Grammars.Grammar.ToDict | grammar.py:95-104 | the dictionary holds the name, kind, N and T as lists of exactly their elements, the productions and the start |
| Grammars.GrammarDict.ToGrammar | grammar.py:106-114 | each field is read from the dictionary, or falls back to "", "Tipo 2", the empty set, {} or None when its key is missing |
| Grammars.Grammar.FromDict | grammar.py:106-114 | the new object's fields are the fields read from the dictionary |
| Grammars.FromEmptyDict | grammar.py:109-113 | an empty dictionary reads as a fresh unnamed "Tipo 2" grammar |
| Grammars.DictRoundTrip | grammar.py:95-114 | reading back what `to_dict` wrote reproduces name, kind, N, T, productions and start |
| DerivationTrees.TreeNode.IsLeaf | tree.py:19-21 | a node is a leaf exactly when its subtree is the node alone |
| DerivationTrees.TreeNode.AddChild | tree.py:15-17 | the new child is appended last, the existing children and the symbol are unchanged |
| DerivationTrees.AddChildGrows | tree.py:15-21 | after `add_child` the node is not a leaf, and the tree grew by exactly the child's nodes |
| DerivationTrees.DerivationTree.ToText | tree.py:30-54 | the text is the node's line followed by its children's text, left to right, starting at the root when no node is given |
| DerivationTrees.DerivationTree.Str | tree.py:56-58 | `str(tree)` is the rendering started at the root with an empty prefix |
| DerivationTrees.RenderedTree | tree.py:39-52 | there is one line per node; the first is the bare root symbol; the other nodes follow in pre-order, indented 4·(d−1) columns at depth d and drawn with "└── " exactly for a last child |
| DerivationTrees.LinesFollowOutline | tree.py:42-52 | below the root, each node's lines follow the pre-order outline: indentation grows by four columns per level, and the glyph marks last children |
| DerivationTrees.OutlineSize | tree.py:50-52 | the outline has one entry per node |
| Strings.StripEmptyIffBlank | parser.py:290-291 | `not s.strip()` holds exactly for whitespace-only text |
| Strings.WordsAreWords | parser.py:294-295 | `split()` yields no empty word and no word containing whitespace |
| Strings.WordsConcat | parser.py:294-295 | the words of `split()` concatenate to the text with its whitespace removed |
| Strings.StripEachOfWords | parser.py:295 | stripping and filtering the words of `split()` changes nothing |
| Terminals.SortByLength | parser.py:32 | the sorted terminals are in non-increasing length and are a permutation of T |
| Terminals.FirstPrefix | parser.py:109-113 | the search returns a listed terminal that is a prefix, with no earlier listed terminal a prefix; it finds nothing only when none is a prefix |
| Terminals.FirstPrefixIndex | parser.py:308-313 | the loop stops at the first terminal that is a prefix, or past the end when none is |
| Terminals.LongestTerminalFacts | parser.py:106-111 | the reference match is a non-empty terminal that is a prefix, and no terminal prefix is longer; it is absent only when the empty terminal is the only prefix |
| Terminals.FirstPrefixIsLongest | parser.py:106-113 | longest-first search finds the longest terminal prefix whatever the tie order, or only the empty terminal when no other fits |
| Terminals.TryMatchTerminal | parser.py:101-113 | a match is a terminal that is a prefix of the input from `pos`, with no earlier sorted terminal one, and the new position is past it; nothing is returned exactly when no sorted terminal is a prefix (the same function serves the copy at parser.py:215-230) |
| Terminals.TryMatchTerminalIsLongest | parser.py:215-230 | `_try_match_terminal` at `pos` returns the end position and the longest terminal prefix there, and nothing when there is none |
| Tokenizer.BlankHasNoSymbols | parser.py:290-291 | a right side has no symbols exactly when it is blank |
| Tokenizer.SpacedSymbols | parser.py:294-295 | a right side with a space splits into non-empty, whitespace-free symbols that concatenate to it without whitespace |
| Tokenizer.ScanConcat | parser.py:300-326 | the scanned symbols concatenate back to the scanned text |
| Tokenizer.ScanSymbols | parser.py:302-324 | each scanned symbol is non-empty: the longest terminal prefix at its position, or the single character there when none fits |
| Tokenizer.ScannedSymbols | parser.py:297-326 | space-free, non-blank text is scanned, and its symbols are non-empty and concatenate to it |
| ContextFree.Type2Parser.constructor | parser.py:189-192 | the parser keeps the grammar and its terminals in longest-first order |
| ContextFree.Type2Parser.ParseProductionSymbols | parser.py:286-326 | the method returns the symbols of the right side as defined by the three cases |
| ContextFree.Type2Parser.ScanProduction | parser.py:300-326 | the scanning loop returns the longest-terminal-or-one-character scan of the text |
| ContextFree.ScanStep | parser.py:302-324 | one loop pass takes the first sorted terminal that fits, which is the scan's next symbol, or else one character |
| ContextFree.Type2Parser.ParseRecursive | parser.py:232-284 | the method's outcome is the fuelled reference parse of the symbol at the position |
| ContextFree.Type2Parser.ParseProduction | parser.py:254-279 | one production's loop matches its symbols in order, with ε tokens giving ε leaves without moving |
| ContextFree.Type2Parser.Parse | parser.py:194-213 | the method's verdict is the reference verdict for the input |
| ContextFree.TerminalMatchesOnlyLongest | parser.py:242-250 | a terminal symbol matches exactly when it is a longest terminal prefix at the position, even if it is also a non-terminal; on a match the cursor moves past it and the node has one child with the same label; otherwise the match fails |
| ContextFree.FirstMatchWins | parser.py:253-282 | when the productions before k fail and production k matches, the node is built from production k |
| ContextFree.SuccessIsFirstMatch | parser.py:253-282 | a successful node comes from a production that matched, all productions before which failed |
| ContextFree.AllAlternativesFail | parser.py:253-284 | a non-terminal fails exactly when each of its productions fails |
| ContextFree.SymbolSpan | parser.py:242-282 | a success from `pos` ends at some p with pos ≤ p ≤ length, and `input[pos..p]` is the text the tree covers; the tree is labelled with the symbol |
| ContextFree.SequenceSpan | parser.py:264-279 | a production's symbols matched in sequence cover exactly `input[pos..p]` |
| ContextFree.SymbolFuel | parser.py:232-284 | a definite outcome is the same with any more fuel |
| ContextFree.DecideFuel | parser.py:194-213 | a definite verdict is the same with any more fuel |
| ContextFree.DecideAccepts | parser.py:194-213 | empty input is accepted exactly when the start symbol has an `''` or `ε` production, with tree start → ε; other input is accepted exactly when the start symbol matches from 0 to the end, and then the tree covers the input |
| Regular.EdgeShapes | parser.py:58-92 | a contributed transition has a non-empty label (ε or a terminal); it goes to FINAL only from `''`, `ε` or a terminal right side; otherwise the right side is the label followed by a one-character non-terminal destination |
| Regular.RightSideTransition | parser.py:58-92 | the branch chain for one right side yields the reference transition; the "remaining empty" branch is unreachable |
| Regular.AddEdge | parser.py:60-62 | adding a transition to a table adds exactly that entry, and keeps every list non-empty |
| Regular.EmptyTable | parser.py:46-47 | every state gets an empty row |
| Regular.AddTransitionsOf | parser.py:52-92 | the table gains exactly the transitions contributed by the right sides of one left side |
| Regular.BuildAutomaton | parser.py:35-99 | the states are N plus FINAL; the table lists exactly the transitions the productions contribute; initial is the start, final is FINAL |
| Regular.Type3Parser.constructor | parser.py:29-33 | the parser keeps the grammar, its terminals in longest-first order and the automaton built for it |
| Regular.StepOfAutomaton | parser.py:148-152 | the next states are the destinations of the active states' productions on the terminal read |
| Regular.NoEmptyLabel | parser.py:58-92 | no transition has the empty label |
| Regular.Type3Parser.FollowTransitions | parser.py:148-152 | the collected next set is the union of destinations on the terminal; the recorded transitions are exactly the table's transitions from the active states on that terminal; none are recorded exactly when the set is empty |
| Regular.Type3Parser.FollowState | parser.py:149-152 | one active state's pass adds its destinations on the terminal, if it has a row for it, to the next set, and its transitions to the record |
| Regular.Type3Parser.FollowFrom | parser.py:150-152 | every destination of one state joins the next set, and one transition per destination, in list order, is appended to the record |
| Regular.SimulateNoMatch | parser.py:139-143 | when no terminal matches at `pos`, the input is rejected |
| Regular.SimulateMatch | parser.py:139-159 | a match advances by the terminal's length; with no state reached the input is rejected; otherwise the run reads the terminal and continues from the new position and states |
| Regular.RunReadsInput | parser.py:133-159 | a finished run reads the input to its end, the globally longest terminal at each step, whatever the active states |
| Regular.ReadsLongestConcat | parser.py:133-159 | terminals read that way are declared, non-empty, and concatenate to the input |
| Regular.EpsilonNotFollowed | parser.py:139-152 | unless `ε` is declared as a terminal, ε transitions are never followed on non-empty input |
| Regular.Type3Parser.Parse | parser.py:115-166 | the method's outcome is the reference outcome for the input |
| Regular.AcceptedInput | parser.py:115-166 | empty input is accepted exactly when the start has an `''` or `ε` production, with tree start → ε; other input is accepted exactly when the run reads it all and FINAL is active at the end, and then the tree is the chain from the start through the terminals read, which concatenate to the input |
| Regular.Type3Parser.BuildTreeFromTrace | parser.py:168-183 | the tree is a chain from the start symbol through the terminal of the first transition recorded at each step |
| Regular.ChainIsPath | parser.py:172-183 | such a tree is a path with one node per step, labelled by the start and then the terminals in order |
| Parsers.CreateParser | parser.py:330-335 | "Tipo 3" grammars get the regular parser and all others the context-free one, each over the given grammar; the one failure is a regular grammar whose production key has no transition row |
| Generation.StringGenerator.constructor | generator.py:13-14 | the generator keeps the grammar |
| Generation.StringGenerator.GenerateStrings | generator.py:16-64 | `max_count` defaults to 10; at most `max_count` (Python slice) strings; no duplicates; each is an all-terminal form derived from the start at depth ≤ 20 with `ε` and spaces removed; depths are non-decreasing; each form is queued at most once; with no start symbol and `max_count` ≤ 0 the result is empty |
| Generation.StringGenerator.CollectForm | generator.py:43-48 | the cleaned text of an all-terminal form joins the results unless it is already there |
| Generation.StringGenerator.ExpandForm | generator.py:51-62 | the unvisited successors are queued at depth+1 and marked visited, and the search invariant is kept with a smaller weight |
| Generation.StringGenerator.Expand | generator.py:51-62 | the queue gains exactly the successors not yet visited, once each, at depth+1, and they are marked visited |
| Generation.StringGenerator.IsTerminalString | generator.py:66-71 | true exactly when no character is a non-terminal |
| Generation.StringGenerator.CleanString | generator.py:73-75 | the result has no `ε` or space |
| Generation.CleanRemovesExactly | generator.py:73-75 | cleaning removes every `ε` and space, keeps text without them as it is, and never lengthens |
| Generation.CleanConcat | generator.py:73-75 | cleaning a concatenation cleans each part, so the remaining characters keep their order |
| Generation.CleanIdempotent | generator.py:73-75 | cleaning twice is cleaning once |
| Generation.FirstNonTerminal | generator.py:51-53 | the index found is the first character that is a non-terminal, or the length when there is none |
| Generation.AllTerminalIffNoneFound | generator.py:51-53 | a form is all-terminal exactly when the search runs off its end |
| Generation.SuccessorsRewriteFirst | generator.py:51-62 | only the first non-terminal character is rewritten, once per right side in order, with the text around it kept |
| Generation.TerminalFormsAreFinal | generator.py:43-48 | an all-terminal form has no successors |
| Generation.UnvisitedFacts | generator.py:58-61 | the queued successors are new, pairwise distinct and no more in number than the successors, and every new successor is queued |
| Generation.UnvisitedStep | generator.py:58-61 | one more right side queues its form exactly when it was neither visited nor already queued |
| Generation.DerivesStep | generator.py:61 | a successor of a form at depth d is derived at depth d+1 |
| Generation.ExpandLowersWeight | generator.py:34-40 | replacing an entry at depth ≤ 20 by its unvisited successors at depth+1 lowers the queue's weight (termination) |
| Generation.PopLowersWeight | generator.py:37-40 | dropping the head lowers the queue's weight |
| Generation.SearchStart | generator.py:26-32 | the initial state, the start symbol queued and visited at depth 0, meets the search invariant |
| Generation.SearchPop | generator.py:37 | taking the head keeps the invariant at the head's depth, which is no smaller than before |
| Generation.SearchCollect | generator.py:45-47 | collecting a new cleaned string keeps the invariant |
| Generation.SearchExpand | generator.py:51-62 | queuing the unvisited successors keeps the invariant |
| Generation.SearchDone | generator.py:36-64 | the invariant gives every promise of the result, and the final slice changes nothing |
| Generation.Prefix | generator.py:64 | `generated[:max_count]`, including negative bounds |

## Left out

- The graphical interface (gui.py) and the demo script (analizar_punto2.py) are not part of this model.
- `save_to_file`, `load_from_file` (file and JSON I/O) and `Grammar.__str__` (display text) are left out.
- The abstract `Parser` base class is left out; each parser class names its grammar directly.
- The `used_productions` argument of `_parse_recursive` is never read, so it is dropped.
- Python's `RecursionError` on left-recursive or cyclic grammars is the `OutOfFuel` outcome. The fuel bounds the nesting of non-terminal expansions, and a verdict that needs no more fuel is proved not to depend on it.
- The iteration order of Python sets and dictionaries is not modelled. It decides the list order in `to_dict`, and which left side `validate` reports when several left sides fail one check. The model allows any order. Within one left side's list, `validate` reports the first violating right side, and the model states that.
- DerivationTrees.TreeNode.AddChild: a value operation returning the extended node. Sharing and in-place mutation are not captured. This matters in `_build_tree_from_trace`, which changes a node after attaching it; the model gives the final tree of that process directly.
- DerivationTrees.Lines: the root test of `to_text` compares trees by value, where the source compares object identity (`node != self.root`). The two differ only when `to_text` is given a node that is a different object from the root but equal to it in value.
- The parsers and the generator keep a snapshot of the grammar's fields; later changes to the `Grammar` object are not seen by them.
- Grammars.GrammarData.WithProduction: requires that a non-terminal already has a production list. The source raises KeyError otherwise, which only a directly assigned `non_terminals` field can cause.
- Regular.Type3Parser.constructor: requires that every production key whose right sides add a transition is a non-terminal or FINAL. The source raises KeyError at parser.py:60, 66, 85 or 90 otherwise. `Parsers.CreateParser` returns `None` in that case.
- ContextFree.Type2Parser.Parse: requires that the empty string is not a terminal, as do the other `Type2Parser` methods. With `""` as a terminal the tokenizer loop at parser.py:308-313 can stop advancing, at a position where no non-empty terminal sorted ahead of `""` fits.
- Generation.StringGenerator.GenerateStrings: requires a start symbol when `max_count` > 0. Without one, the source then fails with a TypeError in `_is_terminal_string(None)` (generator.py:43, 68). With `max_count` ≤ 0 the loop is never entered and the model returns `[]`, as the source does.
- Generation.StringGenerator.GenerateStrings: does not state that the result is complete, that is, that every derivable string within the ceiling is found before the count is reached. Such a statement needs a closure invariant: every dequeued form at depth ≤ 20 either gave its string or had all its successors visited. It also needs an argument that deduplication by `visited` loses no string, since a form first reached at one depth is never queued again at another. The ghost `enqueued` record is tied to the queue only by the loop invariant, so the contract alone does not rule out a search that stops early.
- Generation.StringGenerator.GenerateStrings: the forms behind the results, their depths and the queued forms are ghost outputs. Only the returned strings are computed.
- With no start symbol, the regular parser's active set starts empty rather than holding `None`; both reject every non-empty input.
- Helper methods split the source's nested loops. Each carries the contract of the loop it stands for:
  - `Regular.EmptyTable`, `Regular.AddTransitionsOf` and `Regular.RightSideTransition` for `_build_automaton`;
  - `Regular.Type3Parser.FollowTransitions`, `Regular.Type3Parser.FollowState` and `Regular.Type3Parser.FollowFrom` for `parse`;
  - `ContextFree.Type2Parser.ScanProduction` and `ContextFree.Type2Parser.ParseProduction` for the tokenizer and the loop over productions;
  - `Generation.StringGenerator.CollectForm`, `Generation.StringGenerator.ExpandForm` and `Generation.StringGenerator.Expand` for the loop body of `generate_strings`.
