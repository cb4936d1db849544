/**
 * Formal grammars G = (N, T, P, S) (grammar.py): the incremental builder,
 * the fail-fast well-formedness check and the dictionary mapping used for
 * serialisation.
 */
module Grammars {
  import opened Wrappers

  /** The two grammar kinds; any other kind string is treated as context-free. */
  const Type2: string := "Tipo 2"
  const Type3: string := "Tipo 3"

  /** A snapshot of the fields of a `Grammar` object. */
  datatype GrammarData = GrammarData(
    name: string,
    kind: string,
    nonTerminals: set<string>,
    terminals: set<string>,
    productions: map<string, seq<string>>,
    startSymbol: Option<string>)
  {
    /** Every non-terminal has a production list and every list belongs to a non-terminal. */
    predicate KeysMatch() {
      productions.Keys == nonTerminals
    }

    /** `add_non_terminal(s)` */
    function WithNonTerminal(s: string): (r: GrammarData)
      ensures r.nonTerminals == nonTerminals + {s}
      ensures r.productions.Keys == productions.Keys + {s}
      ensures forall k :: k in productions ==> r.productions[k] == productions[k]
      ensures s !in productions ==> r.productions[s] == []
      ensures r.name == name && r.kind == kind && r.terminals == terminals && r.startSymbol == startSymbol
      ensures KeysMatch() ==> r.KeysMatch()
    {
      var ps := if s in productions then productions else productions[s := []];
      GrammarData(name, kind, nonTerminals + {s}, terminals, ps, startSymbol)
    }

    /** `add_terminal(s)` */
    function WithTerminal(s: string): (r: GrammarData)
      ensures r.terminals == terminals + {s}
      ensures r == GrammarData(name, kind, nonTerminals, r.terminals, productions, startSymbol)
      ensures KeysMatch() ==> r.KeysMatch()
    {
      GrammarData(name, kind, nonTerminals, terminals + {s}, productions, startSymbol)
    }

    /**
     * `add_production(left, right)`. When `left` is a non-terminal without a
     * production list the source raises `KeyError`; callers must avoid that.
     */
    function WithProduction(left: string, right: string): (r: GrammarData)
      requires left in nonTerminals ==> left in productions
      ensures r.nonTerminals == nonTerminals + {left}
      ensures r.productions.Keys == productions.Keys + {left}
      ensures r.productions[left] == (if left in productions then productions[left] else []) + [right]
      ensures forall k :: k in productions && k != left ==> r.productions[k] == productions[k]
      ensures r.name == name && r.kind == kind && r.terminals == terminals && r.startSymbol == startSymbol
      ensures KeysMatch() ==> r.KeysMatch()
    {
      var g := if left !in nonTerminals then WithNonTerminal(left) else this;
      g.(productions := g.productions[left := g.productions[left] + [right]])
    }

    /** `set_start_symbol(s)` */
    function WithStart(s: string): (r: GrammarData)
      ensures r.startSymbol == Some(s) && s in r.nonTerminals
      ensures s in nonTerminals ==> r == this.(startSymbol := Some(s))
      ensures s !in nonTerminals ==> r == WithNonTerminal(s).(startSymbol := Some(s))
      ensures KeysMatch() ==> r.KeysMatch()
    {
      var g := if s !in nonTerminals then WithNonTerminal(s) else this;
      g.(startSymbol := Some(s))
    }

    /** The left-to-right enumeration requirements of `to_dict`. */
    predicate IsDictOf(d: GrammarDict) {
      d.name == Some(name) && d.kind == Some(kind) &&
      d.nonTerminals.Some? && multiset(d.nonTerminals.value) == multiset(nonTerminals) &&
      d.terminals.Some? && multiset(d.terminals.value) == multiset(terminals) &&
      d.productions == Some(productions) && d.startSymbol == startSymbol
    }
  }

  /** `Grammar(name, grammar_type)` before any builder call. */
  function Fresh(name: string, kind: string): (g: GrammarData)
    ensures g.KeysMatch() && g.startSymbol.None?
    ensures g.nonTerminals == {} && g.terminals == {} && g.productions == map[]
  {
    GrammarData(name, kind, {}, {}, map[], None)
  }

  /** `add_non_terminal` twice is `add_non_terminal` once. */
  lemma WithNonTerminalIdempotent(g: GrammarData, s: string)
    ensures g.WithNonTerminal(s).WithNonTerminal(s) == g.WithNonTerminal(s)
  {
  }

  /**
   * Both parsers accept the empty input exactly when the start symbol has an
   * empty (`''`) or epsilon (`'ε'`) right-hand side.
   */
  predicate HasEmptyStartProduction(g: GrammarData) {
    g.startSymbol.Some? && g.startSymbol.value in g.productions &&
    ([] in g.productions[g.startSymbol.value] || "ε" in g.productions[g.startSymbol.value])
  }

  /** One call of a builder method. */
  datatype Edit = AddNonTerminal(symbol: string) | AddTerminal(symbol: string)
                | AddProduction(left: string, right: string) | SetStart(symbol: string)

  /** The snapshot after a sequence of builder calls. */
  function Apply(g: GrammarData, edits: seq<Edit>): (r: GrammarData)
    requires g.KeysMatch()
    ensures r.KeysMatch()
    ensures r.name == g.name && r.kind == g.kind
    decreases |edits|
  {
    if edits == [] then g
    else
      var h := match edits[0]
        case AddNonTerminal(s) => g.WithNonTerminal(s)
        case AddTerminal(s) => g.WithTerminal(s)
        case AddProduction(l, rhs) => g.WithProduction(l, rhs)
        case SetStart(s) => g.WithStart(s);
      Apply(h, edits[1..])
  }

  /** Why `validate` rejects a grammar, or that it accepts it. */
  datatype Reason =
    | NoStartSymbol
    | StartNotNonTerminal(start: string)
    | NoNonTerminals
    | NoTerminals
    | NoProductions
    | LeftNotNonTerminal(left: string)
    | TooManyNonTerminals(left: string, right: string)
    | Valid
  {
    /** The message string `validate` returns with the verdict. */
    function Message(): string {
      match this
      case NoStartSymbol => "No se ha definido el símbolo inicial"
      case StartNotNonTerminal(s) => "El símbolo inicial '" + s + "' no está en los no terminales"
      case NoNonTerminals => "No hay símbolos no terminales definidos"
      case NoTerminals => "No hay símbolos terminales definidos"
      case NoProductions => "No hay producciones definidas"
      case LeftNotNonTerminal(l) => "La producción con lado izquierdo '" + l + "' no está en los no terminales"
      case TooManyNonTerminals(l, r) => "Gramática Tipo 3: la producción " + l + " → " + r + " tiene más de un no terminal"
      case Valid => ValidMessage
    }
  }

  const ValidMessage: string := "Gramática válida"

  /** The acceptance message is never returned together with a rejection. */
  lemma ValidMessageOnlyWhenValid(r: Reason)
    ensures r.Message() == ValidMessage <==> r == Valid
  {
    var m := r.Message();
    match r
    case NoStartSymbol => assert m[0] != ValidMessage[0];
    case StartNotNonTerminal(s) => assert m[0] != ValidMessage[0];
    case NoNonTerminals => assert m[0] != ValidMessage[0];
    case NoTerminals => assert m[0] != ValidMessage[0];
    case NoProductions => assert m[0] != ValidMessage[0];
    case LeftNotNonTerminal(l) => assert m[0] != ValidMessage[0];
    case TooManyNonTerminals(l, rhs) => assert m[10] != ValidMessage[10];
    case Valid =>
  }

  /** `sum(1 for char in right if char in N)`: characters of `right` that are themselves non-terminals. */
  function CountNonTerminalChars(right: string, nonTerminals: set<string>): nat {
    if right == [] then 0
    else (if [right[0]] in nonTerminals then 1 else 0) + CountNonTerminalChars(right[1..], nonTerminals)
  }

  lemma {:induction false} CountPositive(right: string, nonTerminals: set<string>)
    ensures CountNonTerminalChars(right, nonTerminals) > 0 <==> exists i :: 0 <= i < |right| && [right[i]] in nonTerminals
  {
    if right != [] {
      CountPositive(right[1..], nonTerminals);
      if exists i :: 0 <= i < |right| && [right[i]] in nonTerminals {
        var i :| 0 <= i < |right| && [right[i]] in nonTerminals;
        if i > 0 { assert right[1..][i - 1] == right[i]; }
      }
      if exists i :: 0 <= i < |right[1..]| && [right[1..][i]] in nonTerminals {
        var i :| 0 <= i < |right[1..]| && [right[1..][i]] in nonTerminals;
        assert right[i + 1] == right[1..][i];
      }
    }
  }

  /** The Type 3 arity test counts characters: it fails iff two positions of `right` hold non-terminal characters. */
  lemma {:induction false} TooManyIffTwoPositions(right: string, nonTerminals: set<string>)
    ensures CountNonTerminalChars(right, nonTerminals) > 1 <==>
      exists i, j :: 0 <= i < j < |right| && [right[i]] in nonTerminals && [right[j]] in nonTerminals
  {
    if right != [] {
      var rest := right[1..];
      TooManyIffTwoPositions(rest, nonTerminals);
      CountPositive(rest, nonTerminals);
      if exists i, j :: 0 <= i < j < |right| && [right[i]] in nonTerminals && [right[j]] in nonTerminals {
        var i, j :| 0 <= i < j < |right| && [right[i]] in nonTerminals && [right[j]] in nonTerminals;
        assert rest[j - 1] == right[j];
        if i > 0 { assert rest[i - 1] == right[i]; }
      }
      if [right[0]] in nonTerminals && exists j :: 0 <= j < |rest| && [rest[j]] in nonTerminals {
        var j :| 0 <= j < |rest| && [rest[j]] in nonTerminals;
        assert right[j + 1] == rest[j];
      }
      if exists i, j :: 0 <= i < j < |rest| && [rest[i]] in nonTerminals && [rest[j]] in nonTerminals {
        var i, j :| 0 <= i < j < |rest| && [rest[i]] in nonTerminals && [rest[j]] in nonTerminals;
        assert right[i + 1] == rest[i] && right[j + 1] == rest[j];
      }
    }
  }

  /** `not self.start_symbol`: absent or the empty string. */
  predicate NoStart(g: GrammarData) {
    g.startSymbol.None? || g.startSymbol.value == []
  }

  predicate BadLeft(g: GrammarData, left: string) {
    left in g.productions && left !in g.nonTerminals
  }

  predicate Type3Violation(g: GrammarData, left: string, right: string) {
    left in g.productions && right in g.productions[left] && CountNonTerminalChars(right, g.nonTerminals) > 1
  }

  /**
   * `right` is the first right side of `left`, in list order, with more
   * than one non-terminal character.
   */
  predicate FirstType3Violation(g: GrammarData, left: string, right: string) {
    left in g.productions &&
    exists i :: 0 <= i < |g.productions[left]| && g.productions[left][i] == right &&
      CountNonTerminalChars(right, g.nonTerminals) > 1 &&
      forall j :: 0 <= j < i ==> CountNonTerminalChars(g.productions[left][j], g.nonTerminals) <= 1
  }

  /**
   * The verdicts `validate` may return: the first failing check in the fixed
   * order. Which left side is reported, when several fail one check,
   * depends on dictionary order, so any of them is allowed; within the
   * list of one left side, the first violating right side is reported.
   */
  predicate IsValidationOf(g: GrammarData, r: Reason) {
    if NoStart(g) then r == NoStartSymbol
    else if g.startSymbol.value !in g.nonTerminals then r == StartNotNonTerminal(g.startSymbol.value)
    else if |g.nonTerminals| == 0 then r == NoNonTerminals
    else if |g.terminals| == 0 then r == NoTerminals
    else if |g.productions| == 0 then r == NoProductions
    else if exists l :: l in g.productions && BadLeft(g, l) then r.LeftNotNonTerminal? && BadLeft(g, r.left)
    else if g.kind == Type3 && exists l, rhs :: l in g.productions && rhs in g.productions[l] && Type3Violation(g, l, rhs) then
      r.TooManyNonTerminals? && FirstType3Violation(g, r.left, r.right)
    else r == Valid
  }

  /** The "no non-terminals" verdict can never be reached: the start symbol already is one. */
  lemma NoNonTerminalsUnreachable(g: GrammarData, r: Reason)
    requires IsValidationOf(g, r)
    ensures r != NoNonTerminals
  {
    if !NoStart(g) && g.startSymbol.value in g.nonTerminals {
      assert |g.nonTerminals| > 0 by {
        assert g.nonTerminals == (g.nonTerminals - {g.startSymbol.value}) + {g.startSymbol.value};
      }
    }
  }

  /** Grammars whose production keys are their non-terminals never fail the left-side check. */
  lemma LeftCheckNeverFailsWhenKeysMatch(g: GrammarData, r: Reason)
    requires g.KeysMatch() && IsValidationOf(g, r)
    ensures !r.LeftNotNonTerminal?
  {
  }

  /** A grammar built by builder calls from a fresh one never fails the left-side check. */
  lemma BuiltGrammarPassesLeftCheck(name: string, kind: string, edits: seq<Edit>, r: Reason)
    requires IsValidationOf(Apply(Fresh(name, kind), edits), r)
    ensures !r.LeftNotNonTerminal?
  {
    LeftCheckNeverFailsWhenKeysMatch(Apply(Fresh(name, kind), edits), r);
  }

  /** Only Type 3 grammars are held to the arity check. */
  lemma OnlyType3ChecksArity(g: GrammarData, r: Reason)
    requires IsValidationOf(g, r) && r.TooManyNonTerminals?
    ensures g.kind == Type3
    ensures exists i, j :: 0 <= i < j < |r.right| && [r.right[i]] in g.nonTerminals && [r.right[j]] in g.nonTerminals
  {
    TooManyIffTwoPositions(r.right, g.nonTerminals);
  }

  /** Every check of `validate`, stated without its order. */
  predicate PassesAllChecks(g: GrammarData) {
    && !NoStart(g)
    && g.startSymbol.value in g.nonTerminals
    && |g.terminals| > 0
    && |g.productions| > 0
    && (forall l :: l in g.productions ==> l in g.nonTerminals)
    && (g.kind == Type3 ==>
          forall l, rhs :: l in g.productions && rhs in g.productions[l] ==> CountNonTerminalChars(rhs, g.nonTerminals) <= 1)
  }

  /** The accepted grammars are exactly those passing every check. */
  lemma ValidIffAllChecksPass(g: GrammarData, r: Reason)
    requires IsValidationOf(g, r)
    ensures r == Valid <==> PassesAllChecks(g)
  {
    if !NoStart(g) && g.startSymbol.value in g.nonTerminals {
      assert |g.nonTerminals| > 0 by {
        assert g.nonTerminals == (g.nonTerminals - {g.startSymbol.value}) + {g.startSymbol.value};
      }
      if (forall l :: l in g.productions ==> l in g.nonTerminals) && g.kind == Type3 {
        if exists l, rhs :: l in g.productions && rhs in g.productions[l] && Type3Violation(g, l, rhs) {
          var l, rhs :| l in g.productions && rhs in g.productions[l] && Type3Violation(g, l, rhs);
          assert !PassesAllChecks(g);
        } else {
          forall l, rhs | l in g.productions && rhs in g.productions[l]
            ensures CountNonTerminalChars(rhs, g.nonTerminals) <= 1
          {
            assert !Type3Violation(g, l, rhs);
          }
        }
      }
    }
  }

  /**
   * A dictionary as `from_dict` reads it: every key may be missing; a
   * missing `start_symbol` and one whose value is null read the same.
   */
  datatype GrammarDict = GrammarDict(
    name: Option<string>,
    kind: Option<string>,
    nonTerminals: Option<seq<string>>,
    terminals: Option<seq<string>>,
    productions: Option<map<string, seq<string>>>,
    startSymbol: Option<string>)
  {
    /** `from_dict`: each field taken from the dictionary, or its default when missing. */
    function ToGrammar(): (g: GrammarData)
      ensures g.name == (if name.Some? then name.value else "")
      ensures g.kind == (if kind.Some? then kind.value else Type2)
      ensures forall x :: x in g.nonTerminals <==> nonTerminals.Some? && x in nonTerminals.value
      ensures forall x :: x in g.terminals <==> terminals.Some? && x in terminals.value
      ensures g.productions == (if productions.Some? then productions.value else map[])
      ensures g.startSymbol == startSymbol
    {
      GrammarData(
        if name.Some? then name.value else "",
        if kind.Some? then kind.value else Type2,
        if nonTerminals.Some? then (set x | x in nonTerminals.value) else {},
        if terminals.Some? then (set x | x in terminals.value) else {},
        if productions.Some? then productions.value else map[],
        startSymbol)
    }
  }

  /** An empty dictionary reads as a fresh context-free grammar with no name. */
  lemma FromEmptyDict()
    ensures GrammarDict(None, None, None, None, None, None).ToGrammar() == Fresh("", Type2)
  {
  }

  lemma ElementsOfEnumeration(l: seq<string>, s: set<string>)
    requires multiset(l) == multiset(s)
    ensures (set x | x in l) == s
  {
    forall x ensures x in l <==> x in s {
      assert x in l <==> x in multiset(l);
    }
  }

  /** `from_dict(to_dict(g))` reproduces the name, kind, N, T, productions and start symbol. */
  lemma DictRoundTrip(g: GrammarData, d: GrammarDict)
    requires g.IsDictOf(d)
    ensures d.ToGrammar() == g
  {
    ElementsOfEnumeration(d.nonTerminals.value, g.nonTerminals);
    ElementsOfEnumeration(d.terminals.value, g.terminals);
  }

  /** `list(s)`: each element of the set once, in some order. */
  method ListOf(s: set<string>) returns (l: seq<string>)
    ensures multiset(l) == multiset(s)
  {
    l := [];
    var rest := s;
    while rest != {}
      invariant rest <= s
      invariant multiset(l) + multiset(rest) == multiset(s)
      decreases |rest|
    {
      var x :| x in rest;
      l := l + [x];
      assert multiset(rest) == multiset(rest - {x}) + multiset{x};
      rest := rest - {x};
    }
  }

  /** The `Grammar` object; its builder methods update the fields in place. */
  class Grammar {
    var name: string
    var kind: string
    var nonTerminals: set<string>
    var terminals: set<string>
    var productions: map<string, seq<string>>
    var startSymbol: Option<string>

    function Data(): GrammarData
      reads this
    {
      GrammarData(name, kind, nonTerminals, terminals, productions, startSymbol)
    }

    constructor (name: string := "", grammarType: string := Type2)
      ensures Data() == Fresh(name, grammarType)
    {
      this.name := name;
      this.kind := grammarType;
      nonTerminals := {};
      terminals := {};
      productions := map[];
      startSymbol := None;
    }

    /** `Grammar.from_dict(data)` */
    constructor FromDict(data: GrammarDict)
      ensures Data() == data.ToGrammar()
    {
      name := if data.name.Some? then data.name.value else "";
      kind := if data.kind.Some? then data.kind.value else Type2;
      nonTerminals := if data.nonTerminals.Some? then (set x | x in data.nonTerminals.value) else {};
      terminals := if data.terminals.Some? then (set x | x in data.terminals.value) else {};
      productions := if data.productions.Some? then data.productions.value else map[];
      startSymbol := data.startSymbol;
    }

    /** `to_dict()` */
    method ToDict() returns (d: GrammarDict)
      ensures Data().IsDictOf(d)
    {
      var ns := ListOf(nonTerminals);
      var ts := ListOf(terminals);
      d := GrammarDict(Some(name), Some(kind), Some(ns), Some(ts), Some(productions), startSymbol);
    }

    method AddNonTerminal(symbol: string)
      modifies this
      ensures Data() == old(Data()).WithNonTerminal(symbol)
    {
      nonTerminals := nonTerminals + {symbol};
      if symbol !in productions {
        productions := productions[symbol := []];
      }
    }

    method AddTerminal(symbol: string)
      modifies this
      ensures Data() == old(Data()).WithTerminal(symbol)
    {
      terminals := terminals + {symbol};
    }

    method AddProduction(left: string, right: string)
      requires left in nonTerminals ==> left in productions
      modifies this
      ensures Data() == old(Data()).WithProduction(left, right)
    {
      if left !in nonTerminals {
        AddNonTerminal(left);
      }
      productions := productions[left := productions[left] + [right]];
    }

    method SetStartSymbol(symbol: string)
      modifies this
      ensures Data() == old(Data()).WithStart(symbol)
    {
      if symbol !in nonTerminals {
        AddNonTerminal(symbol);
      }
      startSymbol := Some(symbol);
    }

    /** `validate()`: the verdict and, through `reason.Message()`, its message. */
    method Validate() returns (valid: bool, reason: Reason)
      ensures IsValidationOf(Data(), reason)
      ensures valid <==> reason == Valid
    {
      if startSymbol.None? || startSymbol.value == [] {
        return false, NoStartSymbol;
      }
      if startSymbol.value !in nonTerminals {
        return false, StartNotNonTerminal(startSymbol.value);
      }
      if |nonTerminals| == 0 {
        return false, NoNonTerminals;
      }
      if |terminals| == 0 {
        return false, NoTerminals;
      }
      if |productions| == 0 {
        return false, NoProductions;
      }
      var lefts := productions.Keys;
      while lefts != {}
        invariant lefts <= productions.Keys
        invariant forall l :: l in productions && l !in lefts ==> l in nonTerminals
        decreases |lefts|
      {
        var left :| left in lefts;
        if left !in nonTerminals {
          assert BadLeft(Data(), left);
          return false, LeftNotNonTerminal(left);
        }
        lefts := lefts - {left};
      }
      assert forall l :: !BadLeft(Data(), l);
      if kind == Type3 {
        var pending := productions.Keys;
        while pending != {}
          invariant pending <= productions.Keys
          invariant forall l, rhs :: l in productions && l !in pending && rhs in productions[l] ==> !Type3Violation(Data(), l, rhs)
          decreases |pending|
        {
          var left :| left in pending;
          var rights := productions[left];
          for i := 0 to |rights|
            invariant forall k :: 0 <= k < i ==> CountNonTerminalChars(rights[k], nonTerminals) <= 1
          {
            if CountNonTerminalChars(rights[i], nonTerminals) > 1 {
              assert Type3Violation(Data(), left, rights[i]) && FirstType3Violation(Data(), left, rights[i]);
              return false, TooManyNonTerminals(left, rights[i]);
            }
          }
          pending := pending - {left};
        }
      }
      return true, Valid;
    }
  }
}
