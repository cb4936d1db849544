/**
 * How the context-free parser splits the text of a right-hand side into
 * symbols (parser.py, `_parse_production_symbols`): blank text has no
 * symbols, text with a space is split on whitespace, and other text is
 * scanned left to right taking the longest terminal at each position, or a
 * single character where no terminal fits.
 */
module Tokenizer {
  import opened Wrappers
  import opened Strings
  import opened Terminals

  /** The scan of space-free text. */
  function Scan(terms: set<string>, x: string): seq<string>
    decreases |x|
  {
    if x == [] then []
    else
      LongestTerminalFacts(terms, x);
      match LongestTerminal(terms, x)
      case Some(t) => [t] + Scan(terms, x[|t|..])
      case None => [x[..1]] + Scan(terms, x[1..])
  }

  /** The symbols of one right-hand side. */
  function ProductionSymbols(terms: set<string>, production: string): seq<string> {
    if Strip(production) == [] then []
    else if ' ' in production then StripEach(Words(production))
    else Scan(terms, production)
  }

  /** The scanned symbols concatenate back to the scanned text. */
  lemma {:induction false} ScanConcat(terms: set<string>, x: string)
    ensures Concat(Scan(terms, x)) == x
    decreases |x|
  {
    if x != [] {
      LongestTerminalFacts(terms, x);
      var t := match LongestTerminal(terms, x) case Some(t) => t case None => x[..1];
      ScanConcat(terms, x[|t|..]);
      assert Scan(terms, x) == [t] + Scan(terms, x[|t|..]);
      assert ([t] + Scan(terms, x[|t|..]))[1..] == Scan(terms, x[|t|..]);
      assert x == t + x[|t|..];
    }
  }

  /**
   * Every scanned symbol is non-empty; it is the longest terminal the text
   * starts with at its position, or a single character where none fits.
   */
  lemma {:induction false} ScanSymbols(terms: set<string>, x: string)
    ensures [] !in Scan(terms, x)
    ensures x != [] ==>
      Scan(terms, x)[0] == (match LongestTerminal(terms, x) case Some(t) => t case None => x[..1])
    decreases |x|
  {
    if x != [] {
      LongestTerminalFacts(terms, x);
      var t := match LongestTerminal(terms, x) case Some(t) => t case None => x[..1];
      ScanSymbols(terms, x[|t|..]);
      assert Scan(terms, x) == [t] + Scan(terms, x[|t|..]);
    }
  }

  /** A right-hand side has no symbols exactly when it is blank. */
  lemma BlankHasNoSymbols(terms: set<string>, production: string)
    ensures ProductionSymbols(terms, production) == [] <==> AllSpace(production)
  {
    StripEmptyIffBlank(production);
    if !AllSpace(production) && ' ' in production {
      WordsAreWords(production);
      StripEachOfWords(Words(production));
      WordsConcat(production);
      if Words(production) == [] {
        var i :| 0 <= i < |production| && !IsSpace(production[i]);
        RemoveSpacesKeeps(production, i);
      }
    }
    if !AllSpace(production) && ' ' !in production {
      ScanConcat(terms, production);
    }
  }

  /** A non-space character survives `RemoveSpaces`, so the result is not empty. */
  lemma {:induction false} RemoveSpacesKeeps(s: string, i: nat)
    requires i < |s| && !IsSpace(s[i])
    ensures RemoveSpaces(s) != []
  {
    if i > 0 {
      RemoveSpacesKeeps(s[1..], i - 1);
      assert RemoveSpaces(s) == (if IsSpace(s[0]) then [] else [s[0]]) + RemoveSpaces(s[1..]);
    }
  }

  /**
   * Text holding a space is split on whitespace: no symbol is empty or holds
   * whitespace, and together they are the text without its whitespace.
   */
  lemma SpacedSymbols(terms: set<string>, production: string)
    requires ' ' in production
    ensures forall k :: 0 <= k < |ProductionSymbols(terms, production)| ==>
      ProductionSymbols(terms, production)[k] != [] && NoSpace(ProductionSymbols(terms, production)[k])
    ensures Concat(ProductionSymbols(terms, production)) == RemoveSpaces(production)
  {
    WordsAreWords(production);
    StripEachOfWords(Words(production));
    WordsConcat(production);
    StripEmptyIffBlank(production);
    if AllSpace(production) {
      RemoveSpacesOfSpaces(production);
    }
  }

  /** Space-free, non-blank text is scanned, and the symbols concatenate back to it. */
  lemma ScannedSymbols(terms: set<string>, production: string)
    requires ' ' !in production && !AllSpace(production)
    ensures ProductionSymbols(terms, production) == Scan(terms, production)
    ensures Concat(ProductionSymbols(terms, production)) == production
    ensures [] !in ProductionSymbols(terms, production)
  {
    StripEmptyIffBlank(production);
    ScanConcat(terms, production);
    ScanSymbols(terms, production);
  }
}
