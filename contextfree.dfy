/**
 * The recursive-descent parser with backtracking for context-free grammars
 * (parser.py, `Type2Parser`). The source recurses without any depth bound;
 * here every expansion of a non-terminal spends one unit of fuel, and a
 * parse that runs out of fuel stands for one that never returns.
 */
module ContextFree {
  import opened Wrappers
  import opened Strings
  import opened Terminals
  import opened Tokenizer
  import opened DerivationTrees
  import opened Grammars

  /** The outcome of `_parse_recursive`: new position and tree, no match, or fuel exhausted. */
  datatype Match = Success(pos: nat, tree: TreeNode) | Fail | OutOfFuel

  /** The outcome of matching the symbols of one right-hand side in sequence. */
  datatype SeqMatch = SeqSuccess(pos: nat, kids: seq<TreeNode>) | SeqFail | SeqOutOfFuel

  /** The children matched so far, put in front of those matched after them. */
  function Extend(kids: seq<TreeNode>, r: SeqMatch): SeqMatch {
    match r
    case SeqSuccess(p, ks) => SeqSuccess(p, kids + ks)
    case _ => r
  }

  lemma ExtendExtend(a: seq<TreeNode>, b: seq<TreeNode>, r: SeqMatch)
    ensures Extend(a, Extend(b, r)) == Extend(a + b, r)
  {
    if r.SeqSuccess? {
      assert a + (b + r.kids) == (a + b) + r.kids;
    }
  }

  /** A token that stands for the empty string. */
  predicate IsEpsilonToken(sym: string) {
    sym == Epsilon || sym == []
  }

  /**
   * Matching `sym` at `pos`: a terminal is checked first, and matches only
   * if it is the longest terminal the input starts with there; otherwise the
   * productions of a non-terminal are tried; any other symbol fails.
   */
  function ParseSymbol(g: GrammarData, s: string, pos: nat, sym: string, fuel: nat): Match
    decreases fuel, 0, 0
  {
    if fuel == 0 then OutOfFuel
    else if sym in g.terminals then
      if LongestTerminal(g.terminals, Drop(s, pos)) == Some(sym) then Success(pos + |sym|, Leaf(sym).AddChild(Leaf(sym)))
      else Fail
    else if sym in g.productions then ParseAlternatives(g, s, pos, sym, g.productions[sym], fuel - 1)
    else Fail
  }

  /** The productions in list order; the first whose symbols all match wins. */
  function ParseAlternatives(g: GrammarData, s: string, pos: nat, sym: string, prods: seq<string>, fuel: nat): Match
    decreases fuel, 2, |prods|
  {
    if prods == [] then Fail
    else match ParseSequence(g, s, pos, ProductionSymbols(g.terminals, prods[0]), fuel)
      case SeqSuccess(p, kids) => Success(p, TreeNode(sym, kids))
      case SeqFail => ParseAlternatives(g, s, pos, sym, prods[1..], fuel)
      case SeqOutOfFuel => OutOfFuel
  }

  /** The symbols of one production left to right; an epsilon token adds an epsilon leaf. */
  function ParseSequence(g: GrammarData, s: string, pos: nat, syms: seq<string>, fuel: nat): SeqMatch
    decreases fuel, 1, |syms|
  {
    if syms == [] then SeqSuccess(pos, [])
    else if IsEpsilonToken(syms[0]) then Extend([Leaf(Epsilon)], ParseSequence(g, s, pos, syms[1..], fuel))
    else match ParseSymbol(g, s, pos, syms[0], fuel)
      case Success(p, t) => Extend([t], ParseSequence(g, s, p, syms[1..], fuel))
      case Fail => SeqFail
      case OutOfFuel => SeqOutOfFuel
  }

  /** The outcome of `parse`, with the third case for a parse that does not return. */
  datatype Verdict = Accept(tree: DerivationTree) | Reject | Exhausted

  /**
   * `parse`: the empty input is decided by the start symbol's productions
   * alone; other input must be matched by the start symbol from position
   * 0 up to the very end.
   */
  function Decide(g: GrammarData, s: string, fuel: nat): Verdict {
    if s == [] then
      if HasEmptyStartProduction(g) then Accept(DerivationTree(EmptyInputTree(g.startSymbol.value))) else Reject
    else if g.startSymbol.None? then Reject
    else match ParseSymbol(g, s, 0, g.startSymbol.value, fuel)
      case Success(p, t) => if p == |s| then Accept(DerivationTree(t)) else Reject
      case Fail => Reject
      case OutOfFuel => Exhausted
  }

  /**
   * The text a parse tree covers, left to right: a terminal node covers its
   * terminal, an epsilon leaf and an empty production cover nothing, and any
   * other node covers what its children cover.
   */
  function Yield(terms: set<string>, n: TreeNode): string
    decreases n, 1
  {
    if n.children == [] then []
    else if n.symbol in terms then n.symbol
    else YieldAll(terms, n.children)
  }

  function YieldAll(terms: set<string>, ns: seq<TreeNode>): string
    decreases ns, 0
  {
    if ns == [] then [] else Yield(terms, ns[0]) + YieldAll(terms, ns[1..])
  }

  lemma YieldAllCons(terms: set<string>, n: TreeNode, ns: seq<TreeNode>)
    ensures YieldAll(terms, [n] + ns) == Yield(terms, n) + YieldAll(terms, ns)
  {
    assert ([n] + ns)[1..] == ns;
  }

  /** Matching `a` and then `b` at the end of it matches `a + b`. */
  lemma SpanJoin(s: string, pos: nat, mid: nat, a: string, b: string)
    requires pos <= mid && mid <= |s| && s[pos..mid] == a
    requires mid + |b| <= |s| && s[mid..mid + |b|] == b
    ensures s[pos..mid + |b|] == a + b
  {
    assert s[pos..mid + |b|] == s[pos..mid] + s[mid..mid + |b|];
  }

  /**
   * A successful match of `sym` from `pos` ends at some `p` with
   * `pos <= p <= |s|`, and `s[pos..p]` is the text its tree covers; the tree
   * is labelled with `sym`.
   */
  lemma {:induction false} SymbolSpan(g: GrammarData, s: string, pos: nat, sym: string, fuel: nat)
    requires pos <= |s|
    ensures var r := ParseSymbol(g, s, pos, sym, fuel);
      r.Success? ==> r.tree.symbol == sym && pos <= r.pos <= |s| && s[pos..r.pos] == Yield(g.terminals, r.tree)
    decreases fuel, 0, 0
  {
    var r := ParseSymbol(g, s, pos, sym, fuel);
    if r.Success? {
      if sym in g.terminals {
        var x := Drop(s, pos);
        LongestTerminalFacts(g.terminals, x);
        assert LongestTerminal(g.terminals, x) == Some(sym);
        assert s[pos..pos + |sym|] == x[..|sym|];
      } else {
        AlternativesSpan(g, s, pos, sym, g.productions[sym], fuel - 1);
      }
    }
  }

  lemma {:induction false} AlternativesSpan(g: GrammarData, s: string, pos: nat, sym: string, prods: seq<string>, fuel: nat)
    requires pos <= |s| && sym !in g.terminals
    ensures var r := ParseAlternatives(g, s, pos, sym, prods, fuel);
      r.Success? ==> r.tree.symbol == sym && pos <= r.pos <= |s| && s[pos..r.pos] == Yield(g.terminals, r.tree)
    decreases fuel, 2, |prods|
  {
    if prods != [] {
      var q := ParseSequence(g, s, pos, ProductionSymbols(g.terminals, prods[0]), fuel);
      SequenceSpan(g, s, pos, ProductionSymbols(g.terminals, prods[0]), fuel);
      if q.SeqFail? {
        AlternativesSpan(g, s, pos, sym, prods[1..], fuel);
      }
    }
  }

  lemma {:induction false} SequenceSpan(g: GrammarData, s: string, pos: nat, syms: seq<string>, fuel: nat)
    requires pos <= |s|
    ensures var r := ParseSequence(g, s, pos, syms, fuel);
      r.SeqSuccess? ==> pos <= r.pos <= |s| && s[pos..r.pos] == YieldAll(g.terminals, r.kids)
    decreases fuel, 1, |syms|
  {
    var r := ParseSequence(g, s, pos, syms, fuel);
    if syms != [] && r.SeqSuccess? {
      if IsEpsilonToken(syms[0]) {
        var rest := ParseSequence(g, s, pos, syms[1..], fuel);
        SequenceSpan(g, s, pos, syms[1..], fuel);
        YieldAllCons(g.terminals, Leaf(Epsilon), rest.kids);
      } else {
        var m := ParseSymbol(g, s, pos, syms[0], fuel);
        SymbolSpan(g, s, pos, syms[0], fuel);
        var rest := ParseSequence(g, s, m.pos, syms[1..], fuel);
        SequenceSpan(g, s, m.pos, syms[1..], fuel);
        YieldAllCons(g.terminals, m.tree, rest.kids);
        SpanJoin(s, pos, m.pos, Yield(g.terminals, m.tree), YieldAll(g.terminals, rest.kids));
      }
    }
  }

  /**
   * A definite outcome does not depend on the fuel: with more fuel the parse
   * takes the same steps and ends the same way. Only running out of fuel
   * stands for a parse that does not return.
   */
  lemma {:induction false} SymbolFuel(g: GrammarData, s: string, pos: nat, sym: string, fuel: nat, more: nat)
    requires fuel <= more && !ParseSymbol(g, s, pos, sym, fuel).OutOfFuel?
    ensures ParseSymbol(g, s, pos, sym, more) == ParseSymbol(g, s, pos, sym, fuel)
    decreases fuel, 0, 0
  {
    if sym in g.terminals {
      ParseTerminalUnfold(g, s, pos, sym, fuel);
      ParseTerminalUnfold(g, s, pos, sym, more);
    } else {
      ParseNonTerminalUnfold(g, s, pos, sym, fuel);
      ParseNonTerminalUnfold(g, s, pos, sym, more);
      if sym in g.productions {
        AlternativesFuel(g, s, pos, sym, g.productions[sym], fuel - 1, more - 1);
      }
    }
  }

  lemma {:induction false} AlternativesFuel(g: GrammarData, s: string, pos: nat, sym: string, prods: seq<string>, fuel: nat, more: nat)
    requires fuel <= more && !ParseAlternatives(g, s, pos, sym, prods, fuel).OutOfFuel?
    ensures ParseAlternatives(g, s, pos, sym, prods, more) == ParseAlternatives(g, s, pos, sym, prods, fuel)
    decreases fuel, 2, |prods|
  {
    if prods != [] {
      var syms := ProductionSymbols(g.terminals, prods[0]);
      SequenceFuel(g, s, pos, syms, fuel, more);
      if ParseSequence(g, s, pos, syms, fuel).SeqFail? {
        AlternativesFuel(g, s, pos, sym, prods[1..], fuel, more);
      }
    }
  }

  lemma {:induction false} SequenceFuel(g: GrammarData, s: string, pos: nat, syms: seq<string>, fuel: nat, more: nat)
    requires fuel <= more && !ParseSequence(g, s, pos, syms, fuel).SeqOutOfFuel?
    ensures ParseSequence(g, s, pos, syms, more) == ParseSequence(g, s, pos, syms, fuel)
    decreases fuel, 1, |syms|
  {
    if syms != [] {
      if IsEpsilonToken(syms[0]) {
        SequenceFuel(g, s, pos, syms[1..], fuel, more);
      } else {
        var m := ParseSymbol(g, s, pos, syms[0], fuel);
        SymbolFuel(g, s, pos, syms[0], fuel, more);
        if m.Success? {
          SequenceFuel(g, s, m.pos, syms[1..], fuel, more);
        }
      }
    }
  }

  /** A verdict reached with some fuel is the verdict with any more fuel. */
  lemma DecideFuel(g: GrammarData, s: string, fuel: nat, more: nat)
    requires fuel <= more && !Decide(g, s, fuel).Exhausted?
    ensures Decide(g, s, more) == Decide(g, s, fuel)
  {
    if s != [] && g.startSymbol.Some? {
      SymbolFuel(g, s, 0, g.startSymbol.value, fuel, more);
    }
  }

  /**
   * Ordered choice: when every production before index `k` fails and
   * production `k` matches, the node for `sym` is built from production `k`,
   * whatever the later productions would do.
   */
  lemma {:induction false} FirstMatchWins(g: GrammarData, s: string, pos: nat, sym: string, prods: seq<string>, fuel: nat, k: nat)
    requires k < |prods|
    requires forall j :: 0 <= j < k ==> ParseSequence(g, s, pos, ProductionSymbols(g.terminals, prods[j]), fuel).SeqFail?
    requires ParseSequence(g, s, pos, ProductionSymbols(g.terminals, prods[k]), fuel).SeqSuccess?
    ensures var q := ParseSequence(g, s, pos, ProductionSymbols(g.terminals, prods[k]), fuel);
      ParseAlternatives(g, s, pos, sym, prods, fuel) == Success(q.pos, TreeNode(sym, q.kids))
  {
    if k > 0 {
      assert ParseSequence(g, s, pos, ProductionSymbols(g.terminals, prods[0]), fuel).SeqFail?;
      forall j | 0 <= j < k - 1
        ensures ParseSequence(g, s, pos, ProductionSymbols(g.terminals, prods[1..][j]), fuel).SeqFail?
      {
        assert prods[1..][j] == prods[j + 1];
      }
      assert prods[1..][k - 1] == prods[k];
      FirstMatchWins(g, s, pos, sym, prods[1..], fuel, k - 1);
    }
  }

  /**
   * Conversely, a successful node comes from the first production that
   * matches: all productions before it fail.
   */
  lemma {:induction false} SuccessIsFirstMatch(g: GrammarData, s: string, pos: nat, sym: string, prods: seq<string>, fuel: nat)
    requires ParseAlternatives(g, s, pos, sym, prods, fuel).Success?
    ensures var r := ParseAlternatives(g, s, pos, sym, prods, fuel);
      r.tree.symbol == sym &&
      exists k :: 0 <= k < |prods| &&
        (forall j :: 0 <= j < k ==> ParseSequence(g, s, pos, ProductionSymbols(g.terminals, prods[j]), fuel).SeqFail?) &&
        ParseSequence(g, s, pos, ProductionSymbols(g.terminals, prods[k]), fuel) == SeqSuccess(r.pos, r.tree.children)
  {
    var r := ParseAlternatives(g, s, pos, sym, prods, fuel);
    var q := ParseSequence(g, s, pos, ProductionSymbols(g.terminals, prods[0]), fuel);
    if q.SeqSuccess? {
      assert ParseSequence(g, s, pos, ProductionSymbols(g.terminals, prods[0]), fuel) == SeqSuccess(r.pos, r.tree.children);
    } else {
      SuccessIsFirstMatch(g, s, pos, sym, prods[1..], fuel);
      var k :| 0 <= k < |prods[1..]| &&
        (forall j :: 0 <= j < k ==> ParseSequence(g, s, pos, ProductionSymbols(g.terminals, prods[1..][j]), fuel).SeqFail?) &&
        ParseSequence(g, s, pos, ProductionSymbols(g.terminals, prods[1..][k]), fuel) == SeqSuccess(r.pos, r.tree.children);
      assert prods[1..][k] == prods[k + 1];
      forall j | 0 <= j < k + 1
        ensures ParseSequence(g, s, pos, ProductionSymbols(g.terminals, prods[j]), fuel).SeqFail?
      {
        if j > 0 { assert prods[1..][j - 1] == prods[j]; }
      }
    }
  }

  /** The productions fail together exactly when each of them fails. */
  lemma {:induction false} AllAlternativesFail(g: GrammarData, s: string, pos: nat, sym: string, prods: seq<string>, fuel: nat)
    ensures ParseAlternatives(g, s, pos, sym, prods, fuel) == Fail <==>
      forall j :: 0 <= j < |prods| ==> ParseSequence(g, s, pos, ProductionSymbols(g.terminals, prods[j]), fuel).SeqFail?
  {
    if prods != [] {
      AllAlternativesFail(g, s, pos, sym, prods[1..], fuel);
      if forall j :: 0 <= j < |prods[1..]| ==> ParseSequence(g, s, pos, ProductionSymbols(g.terminals, prods[1..][j]), fuel).SeqFail? {
        forall j | 0 <= j < |prods|
          ensures ParseSequence(g, s, pos, ProductionSymbols(g.terminals, prods[j]), fuel).SeqFail? ||
                  !ParseSequence(g, s, pos, ProductionSymbols(g.terminals, prods[0]), fuel).SeqFail?
        {
          if j > 0 { assert prods[1..][j - 1] == prods[j]; }
        }
      } else {
        var j :| 0 <= j < |prods[1..]| && !ParseSequence(g, s, pos, ProductionSymbols(g.terminals, prods[1..][j]), fuel).SeqFail?;
        assert prods[1..][j] == prods[j + 1];
      }
    }
  }

  /**
   * A terminal symbol matches exactly when it is a longest terminal prefix of
   * the input at `pos`; a shorter terminal that fits there fails, and so does
   * the symbol when it is also a non-terminal, whose productions are not tried.
   * On a match the cursor moves past it and the node has one child of the same
   * label.
   */
  lemma TerminalMatchesOnlyLongest(g: GrammarData, s: string, pos: nat, sym: string, fuel: nat)
    requires fuel > 0 && sym in g.terminals
    ensures ParseSymbol(g, s, pos, sym, fuel).Success? <==>
      sym != [] && IsPrefix(sym, Drop(s, pos)) &&
      forall u :: u in g.terminals && IsPrefix(u, Drop(s, pos)) ==> |u| <= |sym|
    ensures ParseSymbol(g, s, pos, sym, fuel).Success? ==>
      ParseSymbol(g, s, pos, sym, fuel) == Success(pos + |sym|, TreeNode(sym, [Leaf(sym)]))
    ensures !ParseSymbol(g, s, pos, sym, fuel).Success? ==> ParseSymbol(g, s, pos, sym, fuel) == Fail
  {
    var x := Drop(s, pos);
    LongestTerminalFacts(g.terminals, x);
    ParseTerminalUnfold(g, s, pos, sym, fuel);
    if sym != [] && IsPrefix(sym, x) && forall u :: u in g.terminals && IsPrefix(u, x) ==> |u| <= |sym| {
      var l := LongestTerminal(g.terminals, x);
      assert l.Some?;
      PrefixesOfEqualLength(sym, l.value, x);
    }
  }

  /**
   * `parse`: the empty input is accepted exactly when the start symbol has an
   * empty or epsilon production, and then the tree is the start symbol over
   * one epsilon leaf; other input is accepted exactly when the start symbol
   * matches from position 0 up to the end, and then the tree is labelled with
   * the start symbol and covers the whole input.
   */
  lemma DecideAccepts(g: GrammarData, s: string, fuel: nat)
    ensures s == [] ==> (Decide(g, s, fuel).Accept? <==> HasEmptyStartProduction(g))
    ensures s == [] && Decide(g, s, fuel).Accept? ==>
      Decide(g, s, fuel).tree.root == TreeNode(g.startSymbol.value, [Leaf(Epsilon)])
    ensures s != [] ==> (Decide(g, s, fuel).Accept? <==>
      g.startSymbol.Some? && ParseSymbol(g, s, 0, g.startSymbol.value, fuel).Success? &&
      ParseSymbol(g, s, 0, g.startSymbol.value, fuel).pos == |s|)
    ensures s != [] && Decide(g, s, fuel).Accept? ==>
      Decide(g, s, fuel).tree.root.symbol == g.startSymbol.value &&
      Yield(g.terminals, Decide(g, s, fuel).tree.root) == s
    ensures Decide(g, s, fuel).Exhausted? ==> s != [] && ParseSymbol(g, s, 0, g.startSymbol.value, fuel).OutOfFuel?
  {
    if s != [] && g.startSymbol.Some? {
      SymbolSpan(g, s, 0, g.startSymbol.value, fuel);
    }
  }

  /**
   * One step of the scan loop: the search over the sorted terminals stopped
   * at index `j`; the symbol taken is that terminal, or the single
   * character at `i` when no terminal fits.
   */
  lemma ScanStep(ts: seq<string>, terms: set<string>, x: string, i: nat, j: nat)
    requires IsLengthOrder(ts, terms) && [] !in terms
    requires i < |x| && j <= |ts|
    requires forall k :: 0 <= k < j ==> !IsPrefix(ts[k], x[i..])
    requires j < |ts| ==> IsPrefix(ts[j], x[i..])
    ensures j < |ts| ==> 0 < |ts[j]| && i + |ts[j]| <= |x| && Scan(terms, x[i..]) == [ts[j]] + Scan(terms, x[i + |ts[j]|..])
    ensures j == |ts| ==> Scan(terms, x[i..]) == [[x[i]]] + Scan(terms, x[i + 1..])
  {
    FirstPrefixIsLongest(ts, terms, x[i..]);
    if j < |ts| {
      FirstPrefixAt(ts, x[i..], j);
      assert x[i..][|ts[j]|..] == x[i + |ts[j]|..];
    } else {
      assert x[i..][1..] == x[i + 1..];
      assert x[i..][..1] == [x[i]];
    }
  }

  /** A terminal symbol with fuel left matches exactly when it is the longest terminal at `pos`. */
  lemma ParseTerminalUnfold(g: GrammarData, s: string, pos: nat, sym: string, fuel: nat)
    requires fuel > 0 && sym in g.terminals
    ensures ParseSymbol(g, s, pos, sym, fuel) ==
      if LongestTerminal(g.terminals, Drop(s, pos)) == Some(sym) then Success(pos + |sym|, Leaf(sym).AddChild(Leaf(sym))) else Fail
  {
  }

  /** A non-terminal symbol with fuel left tries its productions with one unit less. */
  lemma ParseNonTerminalUnfold(g: GrammarData, s: string, pos: nat, sym: string, fuel: nat)
    requires fuel > 0 && sym !in g.terminals
    ensures ParseSymbol(g, s, pos, sym, fuel) ==
      if sym in g.productions then ParseAlternatives(g, s, pos, sym, g.productions[sym], fuel - 1) else Fail
  {
  }

  /** Trying the productions from index `k` on: production `k` decides unless it fails. */
  lemma AlternativesStep(g: GrammarData, s: string, pos: nat, sym: string, prods: seq<string>, k: nat, fuel: nat)
    requires k < |prods|
    ensures var r := ParseSequence(g, s, pos, ProductionSymbols(g.terminals, prods[k]), fuel);
      ParseAlternatives(g, s, pos, sym, prods[k..], fuel) ==
        if r.SeqSuccess? then Success(r.pos, TreeNode(sym, r.kids))
        else if r.SeqFail? then ParseAlternatives(g, s, pos, sym, prods[k + 1..], fuel)
        else OutOfFuel
  {
    assert prods[k..][0] == prods[k] && prods[k..][1..] == prods[k + 1..];
  }

  /** Text that is neither blank nor holds a space is scanned. */
  lemma ScannedBranch(terms: set<string>, production: string)
    requires Strip(production) != [] && ' ' !in production
    ensures ProductionSymbols(terms, production) == Scan(terms, production)
  {
  }

  lemma AppendAssoc<T>(a: seq<T>, b: seq<T>, c: seq<T>)
    ensures a + b + c == a + (b + c)
  {
  }

  /** The parser object: the grammar and its terminals sorted longest first. */
  class Type2Parser {
    const grammar: GrammarData
    const sortedTerminals: seq<string>

    predicate Valid() {
      IsLengthOrder(sortedTerminals, grammar.terminals)
    }

    constructor (g: GrammarData)
      ensures grammar == g && Valid()
    {
      grammar := g;
      var ts := SortByLength(g.terminals);
      SortedIsLengthOrder(ts, g.terminals);
      sortedTerminals := ts;
    }

    /** `_parse_production_symbols(production)` */
    method ParseProductionSymbols(production: string) returns (symbols: seq<string>)
      requires Valid() && [] !in grammar.terminals
      ensures symbols == ProductionSymbols(grammar.terminals, production)
    {
      if Strip(production) == [] {
        return [];
      }
      if ' ' in production {
        return StripEach(Words(production));
      }
      ScannedBranch(grammar.terminals, production);
      symbols := ScanProduction(production);
    }

    /**
     * The `while` loop of `_parse_production_symbols`: at each position the
     * first of the sorted terminals that fits is taken, or else the single
     * character there, whether or not it is a non-terminal.
     */
    method ScanProduction(production: string) returns (symbols: seq<string>)
      requires Valid() && [] !in grammar.terminals
      ensures symbols == Scan(grammar.terminals, production)
    {
      symbols := [];
      var i := 0;
      assert production[0..] == production;
      while i < |production|
        invariant 0 <= i <= |production|
        invariant symbols + Scan(grammar.terminals, production[i..]) == Scan(grammar.terminals, production)
        decreases |production| - i
      {
        var j := FirstPrefixIndex(sortedTerminals, production[i..]);
        ScanStep(sortedTerminals, grammar.terminals, production, i, j);
        if j < |sortedTerminals| {
          var terminal := sortedTerminals[j];
          ghost var tail := Scan(grammar.terminals, production[i + |terminal|..]);
          AppendAssoc(symbols, [terminal], tail);
          symbols := symbols + [terminal];
          i := i + |terminal|;
        } else {
          var c := production[i];
          ghost var tail := Scan(grammar.terminals, production[i + 1..]);
          AppendAssoc(symbols, [[c]], tail);
          if [c] in grammar.nonTerminals {
            symbols := symbols + [[c]];
          } else {
            symbols := symbols + [[c]];
          }
          i := i + 1;
        }
      }
    }

    /** `_parse_recursive(string, pos, symbol)`, with the fuel bound. */
    method ParseRecursive(s: string, pos: nat, symbol: string, fuel: nat) returns (r: Match)
      requires Valid() && [] !in grammar.terminals
      ensures r == ParseSymbol(grammar, s, pos, symbol, fuel)
      decreases fuel, 0
    {
      if fuel == 0 {
        return OutOfFuel;
      }
      var node := Leaf(symbol);
      if symbol in grammar.terminals {
        ParseTerminalUnfold(grammar, s, pos, symbol, fuel);
        var m := TryMatchTerminal(sortedTerminals, s, pos);
        TryMatchTerminalIsLongest(sortedTerminals, grammar.terminals, s, pos);
        if m.Some? {
          var (newPos, matched) := m.value;
          if matched == symbol {
            node := node.AddChild(Leaf(symbol));
            return Success(newPos, node);
          }
        }
        return Fail;
      }
      ParseNonTerminalUnfold(grammar, s, pos, symbol, fuel);
      if symbol in grammar.productions {
        var prods := grammar.productions[symbol];
        ghost var whole := ParseAlternatives(grammar, s, pos, symbol, prods, fuel - 1);
        assert prods[0..] == prods;
        var k := 0;
        while k < |prods|
          invariant 0 <= k <= |prods|
          invariant whole == ParseAlternatives(grammar, s, pos, symbol, prods[k..], fuel - 1)
        {
          var result := ParseProduction(s, pos, symbol, prods[k], fuel - 1);
          AlternativesStep(grammar, s, pos, symbol, prods, k, fuel - 1);
          if result.SeqOutOfFuel? {
            return OutOfFuel;
          }
          if result.SeqSuccess? {
            return Success(result.pos, TreeNode(symbol, result.kids));
          }
          k := k + 1;
        }
      }
      return Fail;
    }

    /**
     * One pass of the loop over the productions of `symbol` in
     * `_parse_recursive`: the symbols of `production` matched in sequence
     * from `pos`, collecting the children of the production node.
     */
    method ParseProduction(s: string, pos: nat, symbol: string, production: string, fuel: nat) returns (r: SeqMatch)
      requires Valid() && [] !in grammar.terminals
      ensures r == ParseSequence(grammar, s, pos, ProductionSymbols(grammar.terminals, production), fuel)
      decreases fuel, 1
    {
      var currentPos := pos;
      var productionNode := Leaf(symbol);
      var prodSymbols := ParseProductionSymbols(production);
      ghost var whole := ParseSequence(grammar, s, pos, prodSymbols, fuel);
      var j := 0;
      while j < |prodSymbols|
        invariant 0 <= j <= |prodSymbols|
        invariant whole == Extend(productionNode.children, ParseSequence(grammar, s, currentPos, prodSymbols[j..], fuel))
      {
        var sym := prodSymbols[j];
        assert prodSymbols[j..][1..] == prodSymbols[j + 1..];
        if sym == Epsilon || sym == [] {
          ExtendExtend(productionNode.children, [Leaf(Epsilon)], ParseSequence(grammar, s, currentPos, prodSymbols[j + 1..], fuel));
          productionNode := productionNode.AddChild(Leaf(Epsilon));
          j := j + 1;
          continue;
        }
        var result := ParseRecursive(s, currentPos, sym, fuel);
        if result.OutOfFuel? {
          return SeqOutOfFuel;
        }
        if result.Fail? {
          return SeqFail;
        }
        ExtendExtend(productionNode.children, [result.tree], ParseSequence(grammar, s, result.pos, prodSymbols[j + 1..], fuel));
        currentPos := result.pos;
        productionNode := productionNode.AddChild(result.tree);
        j := j + 1;
      }
      return SeqSuccess(currentPos, productionNode.children);
    }

    /** `parse(string)`, with the fuel bound. */
    method Parse(input: string, fuel: nat) returns (v: Verdict)
      requires Valid() && [] !in grammar.terminals
      ensures v == Decide(grammar, input, fuel)
    {
      if input == [] {
        if grammar.startSymbol.Some? && grammar.startSymbol.value in grammar.productions &&
           ([] in grammar.productions[grammar.startSymbol.value] || Epsilon in grammar.productions[grammar.startSymbol.value]) {
          var root := Leaf(grammar.startSymbol.value);
          root := root.AddChild(Leaf(Epsilon));
          return Accept(DerivationTree(root));
        }
        return Reject;
      }
      if grammar.startSymbol.None? {
        return Reject;
      }
      var result := ParseRecursive(input, 0, grammar.startSymbol.value, fuel);
      if result.Success? && result.pos == |input| {
        return Accept(DerivationTree(result.tree));
      } else if result.OutOfFuel? {
        return Exhausted;
      } else {
        return Reject;
      }
    }
  }
}
