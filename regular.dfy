/**
 * The parser for regular grammars (parser.py, `Type3Parser`): a transition
 * table built from the productions, and a simulation that reads the input
 * one longest terminal at a time while tracking the set of active states.
 */
module Regular {
  import opened Wrappers
  import opened Strings
  import opened Terminals
  import opened DerivationTrees
  import opened Grammars

  /** The accepting state added to the non-terminals. */
  const Final: string := "FINAL"

  /** `{state: {label: [destinations]}}` */
  type Table = map<string, map<string, seq<string>>>

  /** The dictionary `_build_automaton` returns. */
  datatype Automaton = Automaton(states: set<string>, transitions: Table, initial: Option<string>, final: string)

  /**
   * The transition one right-hand side contributes, as label and destination:
   * an empty or epsilon right side goes to the final state on `ε`, a terminal
   * goes to the final state on itself, and any other right side must be the
   * longest terminal it starts with followed by exactly one character that is
   * a non-terminal, the destination; anything else contributes nothing.
   */
  function RightSideEdge(g: GrammarData, right: string): Option<(string, string)> {
    if right == [] || right == Epsilon then Some((Epsilon, Final))
    else if right in g.terminals then Some((right, Final))
    else match LongestTerminal(g.terminals, right)
      case Some(t) => if |right| == |t| + 1 && right[|t|..] in g.nonTerminals then Some((t, right[|t|..])) else None
      case None => None
  }

  /**
   * What a contributed transition looks like: its label is never empty and
   * is `ε` or a terminal; it goes to the final state only from an empty,
   * epsilon or terminal right side; otherwise the right side is its label
   * followed by the destination, a one-character non-terminal.
   */
  lemma EdgeShapes(g: GrammarData, right: string)
    ensures RightSideEdge(g, right).Some? ==>
      RightSideEdge(g, right).value.0 != [] &&
      (RightSideEdge(g, right).value.0 == Epsilon || RightSideEdge(g, right).value.0 in g.terminals)
    ensures (right == [] || right == Epsilon) ==> RightSideEdge(g, right) == Some((Epsilon, Final))
    ensures RightSideEdge(g, right).Some? && RightSideEdge(g, right).value.1 == Final ==>
      right == [] || right == Epsilon || (right in g.terminals && RightSideEdge(g, right).value.0 == right)
    ensures RightSideEdge(g, right).Some? && RightSideEdge(g, right).value.1 != Final ==>
      right !in g.terminals && RightSideEdge(g, right).value.1 in g.nonTerminals &&
      |RightSideEdge(g, right).value.1| == 1 &&
      RightSideEdge(g, right).value.0 + RightSideEdge(g, right).value.1 == right
  {
    var e := RightSideEdge(g, right);
    LongestTerminalFacts(g.terminals, right);
    if e.Some? && right != [] && right != Epsilon && right !in g.terminals {
      var t := LongestTerminal(g.terminals, right).value;
      assert right == t + right[|t|..];
    }
  }

  /** Some right side among `rights` contributes `sym -> d`. */
  predicate EdgeAmong(g: GrammarData, rights: seq<string>, sym: string, d: string) {
    exists right :: right in rights && RightSideEdge(g, right) == Some((sym, d))
  }

  /** State `q` has the transition `sym -> d`: one of its right sides contributes it. */
  predicate HasEdge(g: GrammarData, q: string, sym: string, d: string) {
    q in g.productions && EdgeAmong(g, g.productions[q], sym, d)
  }

  /** `d` is listed under `t[q][sym]`. */
  predicate InTable(t: Table, q: string, sym: string, d: string) {
    q in t && sym in t[q] && d in t[q][sym]
  }

  predicate ListsNonEmpty(t: Table) {
    forall q, sym :: q in t && sym in t[q] ==> t[q][sym] != []
  }

  /** The table lists exactly the transitions the productions contribute. */
  ghost predicate IsTableOf(g: GrammarData, t: Table) {
    (forall q, sym, d :: HasEdge(g, q, sym, d) ==> InTable(t, q, sym, d)) &&
    (forall q, sym, d :: InTable(t, q, sym, d) ==> HasEdge(g, q, sym, d)) &&
    ListsNonEmpty(t)
  }

  /** The automaton built for `g`. */
  ghost predicate IsAutomatonOf(g: GrammarData, a: Automaton) {
    a.states == g.nonTerminals + {Final} && a.transitions.Keys == a.states &&
    IsTableOf(g, a.transitions) && a.initial == g.startSymbol && a.final == Final
  }

  /**
   * `transitions[left]` is only looked up for a right side that contributes a
   * transition, and it exists only for the non-terminals and the final state.
   */
  predicate EdgesLeaveStates(g: GrammarData) {
    forall left, right :: left in g.productions && right in g.productions[left] && RightSideEdge(g, right).Some? ==>
      left in g.nonTerminals || left == Final
  }

  /**
   * `if label not in transitions[q]: transitions[q][label] = []` followed by
   * `transitions[q][label].append(d)`.
   */
  function AddEdge(t: Table, q: string, sym: string, d: string): (r: Table)
    requires q in t
    ensures r.Keys == t.Keys
    ensures forall q', s', d' :: InTable(r, q', s', d') <==> InTable(t, q', s', d') || (q' == q && s' == sym && d' == d)
    ensures ListsNonEmpty(t) ==> ListsNonEmpty(r)
  {
    var row := if sym in t[q] then t[q] else t[q][sym := []];
    t[q := row[sym := row[sym] + [d]]]
  }

  lemma EdgeAmongSnoc(g: GrammarData, rights: seq<string>, right: string, sym: string, d: string)
    ensures EdgeAmong(g, rights + [right], sym, d) <==> EdgeAmong(g, rights, sym, d) || RightSideEdge(g, right) == Some((sym, d))
  {
    if EdgeAmong(g, rights + [right], sym, d) && RightSideEdge(g, right) != Some((sym, d)) {
      var r :| r in rights + [right] && RightSideEdge(g, r) == Some((sym, d));
      assert r in rights;
    }
  }

  /** A string that starts with `t` and is not `t` is longer than `t`. */
  lemma ProperPrefix(t: string, x: string)
    requires IsPrefix(t, x) && t != x
    ensures |t| < |x|
  {
  }

  /**
   * The body of the loop over the right sides in `_build_automaton`: the
   * checks for an empty right side and for a terminal, then the search for
   * the first of the sorted terminals the right side starts with.
   */
  method RightSideTransition(g: GrammarData, sorted: seq<string>, right: string) returns (edge: Option<(string, string)>)
    requires IsLengthOrder(sorted, g.terminals)
    ensures edge == RightSideEdge(g, right)
  {
    if right == [] || right == Epsilon {
      return Some((Epsilon, Final));
    }
    if right in g.terminals {
      return Some((right, Final));
    }
    var j := FirstPrefixIndex(sorted, right);
    FirstPrefixIsLongest(sorted, g.terminals, right);
    LongestTerminalFacts(g.terminals, right);
    if j < |sorted| {
      FirstPrefixAt(sorted, right, j);
    }
    edge := None;
    if j < |sorted| && sorted[j] != [] {
      var matched := sorted[j];
      ProperPrefix(matched, right);
      var remaining := right[|matched|..];
      if |remaining| == 0 {
        assert false;
      } else if |remaining| == 1 && remaining in g.nonTerminals {
        edge := Some((matched, remaining));
      }
    }
  }

  /** `for state in states: transitions[state] = {}` */
  method EmptyTable(states: set<string>) returns (t: Table)
    ensures t.Keys == states
    ensures forall q :: q in t ==> t[q] == map[]
  {
    t := map[];
    var pending := states;
    while pending != {}
      invariant pending <= states
      invariant t.Keys == states - pending
      invariant forall q :: q in t ==> t[q] == map[]
      decreases |pending|
    {
      var state :| state in pending;
      t := t[state := map[]];
      pending := pending - {state};
    }
  }

  /** `_build_automaton()` */
  method BuildAutomaton(g: GrammarData, sorted: seq<string>) returns (a: Automaton)
    requires IsLengthOrder(sorted, g.terminals)
    requires EdgesLeaveStates(g)
    ensures IsAutomatonOf(g, a)
  {
    var states := g.nonTerminals + {Final};
    var transitions := EmptyTable(states);
    var done: set<string> := {};
    var todo := g.productions.Keys;
    while todo != {}
      invariant todo <= g.productions.Keys && done == g.productions.Keys - todo
      invariant transitions.Keys == states && ListsNonEmpty(transitions)
      invariant forall q, sym, d :: InTable(transitions, q, sym, d) <==> q in done && HasEdge(g, q, sym, d)
      decreases |todo|
    {
      var left :| left in todo;
      transitions := AddTransitionsOf(g, sorted, transitions, left);
      done := done + {left};
      todo := todo - {left};
    }
    a := Automaton(states, transitions, g.startSymbol, Final);
  }

  /** The loop `for right in rights` of `_build_automaton`, for the productions of `left`. */
  method AddTransitionsOf(g: GrammarData, sorted: seq<string>, t: Table, left: string) returns (r: Table)
    requires IsLengthOrder(sorted, g.terminals) && left in g.productions
    requires forall right :: right in g.productions[left] && RightSideEdge(g, right).Some? ==> left in t
    ensures r.Keys == t.Keys
    ensures ListsNonEmpty(t) ==> ListsNonEmpty(r)
    ensures forall q, sym, d :: InTable(r, q, sym, d) <==> InTable(t, q, sym, d) || (q == left && HasEdge(g, q, sym, d))
  {
    var rights := g.productions[left];
    r := t;
    assert rights[..0] == [];
    for k := 0 to |rights|
      invariant r.Keys == t.Keys
      invariant ListsNonEmpty(t) ==> ListsNonEmpty(r)
      invariant forall q, sym, d :: InTable(r, q, sym, d) <==> InTable(t, q, sym, d) || (q == left && EdgeAmong(g, rights[..k], sym, d))
    {
      var right := rights[k];
      EdgesStep(g, rights, k);
      var edge := RightSideTransition(g, sorted, right);
      if edge.Some? {
        var (sym, dest) := edge.value;
        r := AddEdge(r, left, sym, dest);
      }
    }
    assert rights[..|rights|] == rights;
  }

  /** The transitions of the first `k + 1` right sides: those of the first `k` and those of right side `k`. */
  lemma EdgesStep(g: GrammarData, rights: seq<string>, k: nat)
    requires k < |rights|
    ensures forall sym, d :: EdgeAmong(g, rights[..k + 1], sym, d) <==>
      EdgeAmong(g, rights[..k], sym, d) || RightSideEdge(g, rights[k]) == Some((sym, d))
  {
    assert rights[..k + 1] == rights[..k] + [rights[k]];
    forall sym, d ensures EdgeAmong(g, rights[..k + 1], sym, d) <==>
      EdgeAmong(g, rights[..k], sym, d) || RightSideEdge(g, rights[k]) == Some((sym, d))
    {
      EdgeAmongSnoc(g, rights[..k], rights[k], sym, d);
    }
  }

  /** One entry of `used_transitions`. */
  datatype Transition = Transition(source: string, terminal: string, target: string)

  /** One entry of the trace: the active states, the terminal read and the transitions taken. */
  datatype TraceStep = TraceStep(states: set<string>, terminal: string, used: seq<Transition>)

  /** The destinations of the active states on label `t`. */
  function Step(a: Automaton, current: set<string>, t: string): set<string> {
    set q, d | q in current && q in a.transitions && t in a.transitions[q] && d in a.transitions[q][t] :: d
  }

  /** In the automaton of `g`, the next states are the destinations of the productions of the active states. */
  lemma StepOfAutomaton(g: GrammarData, a: Automaton, current: set<string>, t: string, d: string)
    requires IsAutomatonOf(g, a)
    ensures d in Step(a, current, t) <==> exists q :: q in current && HasEdge(g, q, t, d)
  {
    if d in Step(a, current, t) {
      var q :| q in current && q in a.transitions && t in a.transitions[q] && d in a.transitions[q][t];
      assert InTable(a.transitions, q, t, d);
    }
    if exists q :: q in current && HasEdge(g, q, t, d) {
      var q :| q in current && HasEdge(g, q, t, d);
      assert InTable(a.transitions, q, t, d);
    }
  }

  /** No transition of a built automaton has the empty label. */
  lemma NoEmptyLabel(g: GrammarData, a: Automaton, current: set<string>)
    requires IsAutomatonOf(g, a)
    ensures Step(a, current, []) == {}
  {
    forall d | d in Step(a, current, []) ensures false {
      var q :| q in current && q in a.transitions && [] in a.transitions[q] && d in a.transitions[q][[]];
      assert InTable(a.transitions, q, [], d);
      var right :| right in g.productions[q] && RightSideEdge(g, right) == Some(([], d));
      EdgeShapes(g, right);
    }
  }

  lemma StepAdd(a: Automaton, done: set<string>, q: string, t: string)
    ensures Step(a, done + {q}, t) ==
      Step(a, done, t) + (if q in a.transitions && t in a.transitions[q] then set d | d in a.transitions[q][t] else {})
  {
  }

  /** The transitions the active states have on label `t`. */
  function Edges(a: Automaton, current: set<string>, t: string): set<Transition> {
    set q, d | q in current && q in a.transitions && t in a.transitions[q] && d in a.transitions[q][t] :: Transition(q, t, d)
  }

  lemma EdgesAdd(a: Automaton, done: set<string>, q: string, t: string)
    ensures Edges(a, done + {q}, t) ==
      Edges(a, done, t) + (if q in a.transitions && t in a.transitions[q] then set d | d in a.transitions[q][t] :: Transition(q, t, d) else {})
  {
  }

  /** The outcome of the simulation: stuck, or the terminals read and the states active at the end. */
  datatype Run = Stuck | Ran(terminals: seq<string>, last: set<string>)

  function Prepend(ts: seq<string>, r: Run): Run {
    match r
    case Stuck => Stuck
    case Ran(us, last) => Ran(ts + us, last)
  }

  lemma PrependPrepend(a: seq<string>, b: seq<string>, r: Run)
    ensures Prepend(a, Prepend(b, r)) == Prepend(a + b, r)
  {
    if r.Ran? {
      assert a + (b + r.terminals) == (a + b) + r.terminals;
    }
  }

  /**
   * The simulation from `pos`: the longest terminal at `pos` is read whatever
   * the active states are, and the next states are the destinations on it; no
   * terminal, or no destination, leaves the simulation stuck.
   */
  function Simulate(a: Automaton, terms: set<string>, s: string, pos: nat, current: set<string>): Run
    decreases |s| - pos
  {
    if pos >= |s| then Ran([], current)
    else
      LongestTerminalFacts(terms, s[pos..]);
      match LongestTerminal(terms, s[pos..])
      case None => Stuck
      case Some(t) =>
        var next := Step(a, current, t);
        if next == {} then Stuck else Prepend([t], Simulate(a, terms, s, pos + |t|, next))
  }

  /**
   * `ts` reads the input from `pos` to the end: each terminal is the longest
   * terminal the input starts with where the ones before it end.
   */
  ghost predicate ReadsLongest(terms: set<string>, s: string, pos: nat, ts: seq<string>)
    decreases |ts|
  {
    if ts == [] then pos == |s|
    else pos < |s| && LongestTerminal(terms, s[pos..]) == Some(ts[0]) && ReadsLongest(terms, s, pos + |ts[0]|, ts[1..])
  }

  /** Such terminals are declared, non-empty, and concatenate to the text they read. */
  lemma {:induction false} ReadsLongestConcat(terms: set<string>, s: string, pos: nat, ts: seq<string>)
    requires ReadsLongest(terms, s, pos, ts)
    ensures pos <= |s| && Concat(ts) == s[pos..]
    ensures forall k :: 0 <= k < |ts| ==> ts[k] in terms && ts[k] != []
    decreases |ts|
  {
    if ts != [] {
      var t := ts[0];
      LongestTerminalFacts(terms, s[pos..]);
      ReadsLongestConcat(terms, s, pos + |t|, ts[1..]);
      PrefixSplit(t, s[pos..]);
      assert s[pos..][|t|..] == s[pos + |t|..];
      forall k | 0 <= k < |ts| ensures ts[k] in terms && ts[k] != [] {
        if k > 0 { assert ts[k] == ts[1..][k - 1]; }
      }
    }
  }

  /** A finished simulation read the input from `pos` to the end, longest terminal by longest terminal. */
  lemma {:induction false} RunReadsInput(a: Automaton, terms: set<string>, s: string, pos: nat, current: set<string>)
    ensures Simulate(a, terms, s, pos, current).Ran? && pos <= |s| ==> ReadsLongest(terms, s, pos, Simulate(a, terms, s, pos, current).terminals)
    decreases |s| - pos
  {
    var r := Simulate(a, terms, s, pos, current);
    if pos < |s| && r.Ran? {
      LongestTerminalFacts(terms, s[pos..]);
      var t := LongestTerminal(terms, s[pos..]).value;
      var next := Step(a, current, t);
      RunReadsInput(a, terms, s, pos + |t|, next);
      var rest := Simulate(a, terms, s, pos + |t|, next);
      PrefixSplit(t, s[pos..]);
      assert r.terminals == [t] + rest.terminals;
      assert r.terminals[1..] == rest.terminals;
    }
  }

  lemma SimulateUnfold(a: Automaton, terms: set<string>, s: string, pos: nat, current: set<string>, t: string)
    requires pos < |s| && LongestTerminal(terms, s[pos..]) == Some(t)
    ensures Step(a, current, t) == {} ==> Simulate(a, terms, s, pos, current) == Stuck
    ensures Step(a, current, t) != {} ==> Simulate(a, terms, s, pos, current) == Prepend([t], Simulate(a, terms, s, pos + |t|, Step(a, current, t)))
  {
  }

  /** One step of `parse`: no terminal matches at `pos`, and the simulation is stuck. */
  lemma SimulateNoMatch(g: GrammarData, a: Automaton, sorted: seq<string>, s: string, pos: nat, current: set<string>)
    requires IsLengthOrder(sorted, g.terminals) && pos < |s|
    requires TryMatchTerminal(sorted, s, pos).None?
    ensures Simulate(a, g.terminals, s, pos, current) == Stuck
  {
    TryMatchTerminalIsLongest(sorted, g.terminals, s, pos);
    assert Drop(s, pos) == s[pos..];
  }

  /**
   * One step of `parse`: `_try_match_terminal` matches `t` at `pos`; the
   * simulation is stuck when no state is reached on it, and otherwise reads
   * `t` and goes on from where it ends.
   */
  lemma SimulateMatch(g: GrammarData, a: Automaton, sorted: seq<string>, s: string, pos: nat, current: set<string>, p: nat, t: string)
    requires IsAutomatonOf(g, a) && IsLengthOrder(sorted, g.terminals) && pos < |s|
    requires TryMatchTerminal(sorted, s, pos) == Some((p, t))
    ensures p == pos + |t|
    ensures Step(a, current, t) == {} ==> Simulate(a, g.terminals, s, pos, current) == Stuck
    ensures Step(a, current, t) != {} ==> pos < p <= |s|
    ensures Step(a, current, t) != {} ==>
      Simulate(a, g.terminals, s, pos, current) == Prepend([t], Simulate(a, g.terminals, s, pos + |t|, Step(a, current, t)))
  {
    TryMatchTerminalIsLongest(sorted, g.terminals, s, pos);
    var x := s[pos..];
    assert Drop(s, pos) == x;
    var l := LongestTerminal(g.terminals, x);
    LongestTerminalFacts(g.terminals, x);
    if l.Some? {
      assert t == l.value;
      PrefixSplit(t, x);
      SimulateUnfold(a, g.terminals, s, pos, current, t);
    } else {
      assert t == [];
      NoEmptyLabel(g, a, current);
    }
  }

  /** The terminals read are declared terminals, so `ε` labels are followed only when `ε` is one. */
  lemma EpsilonNotFollowed(a: Automaton, terms: set<string>, s: string, current: set<string>)
    requires Epsilon !in terms
    ensures Simulate(a, terms, s, 0, current).Ran? ==> Epsilon !in Simulate(a, terms, s, 0, current).terminals
  {
    RunReadsInput(a, terms, s, 0, current);
    var r := Simulate(a, terms, s, 0, current);
    if r.Ran? {
      ReadsLongestConcat(terms, s, 0, r.terminals);
    }
  }

  /** The derivation tree of an accepted input: each node has the next terminal read as its only child. */
  function Chain(sym: string, ts: seq<string>): TreeNode
    decreases |ts|
  {
    if ts == [] then Leaf(sym) else Leaf(sym).AddChild(Chain(ts[0], ts[1..]))
  }

  /** The labels along a tree in which every node has at most one child, and whether it is such a tree. */
  function Spine(n: TreeNode): seq<string>
    decreases n
  {
    if n.children == [] then [n.symbol] else [n.symbol] + Spine(n.children[0])
  }

  predicate IsChain(n: TreeNode)
    decreases n
  {
    |n.children| <= 1 && (n.children == [] || IsChain(n.children[0]))
  }

  /** `Chain` is a path: the root, then one node per terminal, in order. */
  lemma {:induction false} ChainIsPath(sym: string, ts: seq<string>)
    ensures IsChain(Chain(sym, ts)) && Spine(Chain(sym, ts)) == [sym] + ts
    ensures Size(Chain(sym, ts)) == |ts| + 1
    decreases |ts|
  {
    if ts != [] {
      ChainIsPath(ts[0], ts[1..]);
      assert [ts[0]] + ts[1..] == ts;
      assert Sizes([Chain(ts[0], ts[1..])]) == Size(Chain(ts[0], ts[1..])) + Sizes([]);
    }
  }

  /** The labels the tree builder hangs below the root: the terminal of the first transition taken at each step. */
  function UsedLabels(trace: seq<TraceStep>): seq<string> {
    if trace == [] then []
    else
      var last := trace[|trace| - 1];
      UsedLabels(trace[..|trace| - 1]) + (if last.used != [] then [last.used[0].terminal] else [])
  }

  /** `parse(string)`: the outcome the parser reaches, with the tree of an accepted input. */
  function Recognize(g: GrammarData, a: Automaton, s: string): Option<DerivationTree> {
    if s == [] then
      if HasEmptyStartProduction(g) then Some(DerivationTree(EmptyInputTree(g.startSymbol.value))) else None
    else if g.startSymbol.None? then None
    else match Simulate(a, g.terminals, s, 0, {g.startSymbol.value})
      case Stuck => None
      case Ran(ts, last) => if a.final in last then Some(DerivationTree(Chain(g.startSymbol.value, ts))) else None
  }

  /**
   * Acceptance: the empty input exactly when the start symbol has an empty or
   * epsilon production, with the tree start over epsilon; other input exactly
   * when the simulation from the start symbol reads all of it and ends with
   * the final state active, and then the tree is the chain from the start
   * symbol through the terminals read, which concatenate to the input.
   */
  lemma {:induction false} AcceptedInput(g: GrammarData, a: Automaton, s: string)
    ensures s == [] ==> (Recognize(g, a, s).Some? <==> HasEmptyStartProduction(g))
    ensures s == [] && Recognize(g, a, s).Some? ==> Recognize(g, a, s).value.root == TreeNode(g.startSymbol.value, [Leaf(Epsilon)])
    ensures s != [] ==> (Recognize(g, a, s).Some? <==>
      g.startSymbol.Some? && Simulate(a, g.terminals, s, 0, {g.startSymbol.value}).Ran? &&
      a.final in Simulate(a, g.terminals, s, 0, {g.startSymbol.value}).last)
    ensures s != [] && Recognize(g, a, s).Some? ==>
      var ts := Simulate(a, g.terminals, s, 0, {g.startSymbol.value}).terminals;
      Concat(ts) == s && Recognize(g, a, s).value.root == Chain(g.startSymbol.value, ts) &&
      Spine(Recognize(g, a, s).value.root) == [g.startSymbol.value] + ts
  {
    if s != [] && g.startSymbol.Some? {
      RunReadsInput(a, g.terminals, s, 0, {g.startSymbol.value});
      var r := Simulate(a, g.terminals, s, 0, {g.startSymbol.value});
      if r.Ran? {
        ReadsLongestConcat(g.terminals, s, 0, r.terminals);
        ChainIsPath(g.startSymbol.value, r.terminals);
        assert s[0..] == s;
      }
    }
  }

  /** The parser object: the grammar, its terminals sorted longest first and the automaton. */
  class Type3Parser {
    const grammar: GrammarData
    const sortedTerminals: seq<string>
    const automaton: Automaton

    ghost predicate Valid() {
      IsLengthOrder(sortedTerminals, grammar.terminals) && IsAutomatonOf(grammar, automaton)
    }

    constructor (g: GrammarData)
      requires EdgesLeaveStates(g)
      ensures grammar == g && Valid()
    {
      grammar := g;
      var ts := SortByLength(g.terminals);
      SortedIsLengthOrder(ts, g.terminals);
      sortedTerminals := ts;
      var a := BuildAutomaton(g, ts);
      automaton := a;
    }

    /**
     * The loop over the active states in `parse`: the destinations on
     * `terminal` collected into one set, and each transition taken recorded.
     */
    method FollowTransitions(current: set<string>, terminal: string) returns (next: set<string>, used: seq<Transition>)
      ensures next == Step(automaton, current, terminal)
      ensures (set u | u in used) == Edges(automaton, current, terminal)
      ensures forall k :: 0 <= k < |used| ==> used[k].terminal == terminal && used[k].source in current && used[k].target in next
      ensures (used == []) == (next == {})
    {
      next := {};
      used := [];
      var rest := current;
      while rest != {}
        invariant rest <= current
        invariant next == Step(automaton, current - rest, terminal)
        invariant (set u | u in used) == Edges(automaton, current - rest, terminal)
        invariant forall k :: 0 <= k < |used| ==> used[k].terminal == terminal && used[k].source in current && used[k].target in next
        invariant (used == []) == (next == {})
        decreases |rest|
      {
        var state :| state in rest;
        assert current - (rest - {state}) == (current - rest) + {state};
        next, used := FollowState(current, current - rest, state, terminal, next, used);
        rest := rest - {state};
      }
    }

    /** One pass of the loop over the active states: the transitions of `state` on `terminal`, if it has any. */
    method FollowState(current: set<string>, ghost done: set<string>, state: string, terminal: string,
                       next0: set<string>, used0: seq<Transition>) returns (next: set<string>, used: seq<Transition>)
      requires state in current
      requires next0 == Step(automaton, done, terminal)
      requires (set u | u in used0) == Edges(automaton, done, terminal)
      requires forall k :: 0 <= k < |used0| ==> used0[k].terminal == terminal && used0[k].source in current && used0[k].target in next0
      requires (used0 == []) == (next0 == {})
      ensures next == Step(automaton, done + {state}, terminal)
      ensures (set u | u in used) == Edges(automaton, done + {state}, terminal)
      ensures forall k :: 0 <= k < |used| ==> used[k].terminal == terminal && used[k].source in current && used[k].target in next
      ensures (used == []) == (next == {})
    {
      StepAdd(automaton, done, state, terminal);
      EdgesAdd(automaton, done, state, terminal);
      next, used := next0, used0;
      if state in automaton.transitions && terminal in automaton.transitions[state] {
        next, used := FollowFrom(current, state, terminal, automaton.transitions[state][terminal], next, used);
      }
    }

    /** The inner loop of `parse` over the destinations of one active state on `terminal`. */
    static method FollowFrom(current: set<string>, state: string, terminal: string, dests: seq<string>,
                             next0: set<string>, used0: seq<Transition>) returns (next: set<string>, used: seq<Transition>)
      requires state in current
      requires forall k :: 0 <= k < |used0| ==> used0[k].terminal == terminal && used0[k].source in current && used0[k].target in next0
      requires (used0 == []) == (next0 == {})
      ensures next == next0 + set d | d in dests
      ensures used == used0 + seq(|dests|, j requires 0 <= j < |dests| => Transition(state, terminal, dests[j]))
      ensures (set u | u in used) == (set u | u in used0) + set d | d in dests :: Transition(state, terminal, d)
      ensures forall k :: 0 <= k < |used| ==> used[k].terminal == terminal && used[k].source in current && used[k].target in next
      ensures (used == []) == (next == {})
    {
      next, used := next0, used0;
      for i := 0 to |dests|
        invariant next == next0 + set j | 0 <= j < i :: dests[j]
        invariant used == used0 + seq(i, j requires 0 <= j < i => Transition(state, terminal, dests[j]))
        invariant (set u | u in used) == (set u | u in used0) + set j | 0 <= j < i :: Transition(state, terminal, dests[j])
        invariant forall k :: 0 <= k < |used| ==> used[k].terminal == terminal && used[k].source in current && used[k].target in next
        invariant (used == []) == (next == {})
      {
        next := next + {dests[i]};
        ghost var before := used;
        used := used + [Transition(state, terminal, dests[i])];
        assert (set u | u in used) == (set u | u in before) + {Transition(state, terminal, dests[i])};
        assert (set j | 0 <= j < i + 1 :: Transition(state, terminal, dests[j])) ==
          (set j | 0 <= j < i :: Transition(state, terminal, dests[j])) + {Transition(state, terminal, dests[i])};
      }
      assert (set j | 0 <= j < |dests| :: dests[j]) == set d | d in dests;
      assert (set j | 0 <= j < |dests| :: Transition(state, terminal, dests[j])) == set d | d in dests :: Transition(state, terminal, d);
    }

    /** `_build_tree_from_trace(string, trace)`, started from the start symbol `start`. */
    method BuildTreeFromTrace(start: string, trace: seq<TraceStep>) returns (tree: DerivationTree)
      ensures tree.root == Chain(start, UsedLabels(trace))
    {
      var spine: seq<string> := [];
      for i := 0 to |trace|
        invariant spine == UsedLabels(trace[..i])
      {
        assert trace[..i + 1][..i] == trace[..i];
        if trace[i].used != [] {
          var first := trace[i].used[0];
          spine := spine + [first.terminal];
        }
      }
      assert trace[..|trace|] == trace;
      tree := DerivationTree(Chain(start, spine));
    }

    /** `parse(string)` */
    method Parse(input: string) returns (r: Option<DerivationTree>)
      requires Valid()
      ensures r == Recognize(grammar, automaton, input)
    {
      if input == [] {
        if grammar.startSymbol.Some? && grammar.startSymbol.value in grammar.productions &&
           ([] in grammar.productions[grammar.startSymbol.value] || Epsilon in grammar.productions[grammar.startSymbol.value]) {
          var root := Leaf(grammar.startSymbol.value);
          root := root.AddChild(Leaf(Epsilon));
          return Some(DerivationTree(root));
        }
        return None;
      }
      var current: set<string> := if grammar.startSymbol.Some? then {grammar.startSymbol.value} else {};
      ghost var whole := Simulate(automaton, grammar.terminals, input, 0, current);
      var trace: seq<TraceStep> := [];
      ghost var read: seq<string> := [];
      var pos := 0;
      while pos < |input|
        invariant pos <= |input|
        invariant whole == Prepend(read, Simulate(automaton, grammar.terminals, input, pos, current))
        invariant UsedLabels(trace) == read
        invariant grammar.startSymbol.None? ==> current == {}
        decreases |input| - pos
      {
        var m := TryMatchTerminal(sortedTerminals, input, pos);
        if m.None? {
          SimulateNoMatch(grammar, automaton, sortedTerminals, input, pos, current);
          return None;
        }
        var (newPos, matched) := m.value;
        SimulateMatch(grammar, automaton, sortedTerminals, input, pos, current, newPos, matched);
        var next, used := FollowTransitions(current, matched);
        if next == {} {
          return None;
        }
        PrependPrepend(read, [matched], Simulate(automaton, grammar.terminals, input, newPos, next));
        assert (trace + [TraceStep(current, matched, used)])[..|trace|] == trace;
        trace := trace + [TraceStep(current, matched, used)];
        read := read + [matched];
        current := next;
        pos := newPos;
      }
      assert read + [] == read;
      if automaton.final in current {
        var tree := BuildTreeFromTrace(grammar.startSymbol.value, trace);
        return Some(tree);
      }
      return None;
    }
  }
}
