/**
 * The parser factory (parser.py, `create_parser`): a regular grammar gets
 * the automaton-based parser, every other grammar the recursive-descent one.
 */
module Parsers {
  import opened Wrappers
  import opened Grammars
  import Regular
  import ContextFree

  /** The parser `create_parser` hands back, one of the two kinds. */
  datatype ParserChoice =
    | RegularParser(regular: Regular.Type3Parser)
    | ContextFreeParser(contextFree: ContextFree.Type2Parser)

  /**
   * `create_parser(grammar)`. Building the automaton of a regular grammar
   * looks up the transition row of each left side that contributes a
   * transition; a left side that is neither a non-terminal nor the final
   * state has no row and the lookup fails, which is `None` here.
   */
  method CreateParser(g: GrammarData) returns (r: Option<ParserChoice>)
    ensures r.None? <==> g.kind == Type3 && !Regular.EdgesLeaveStates(g)
    ensures r.Some? ==> (r.value.RegularParser? <==> g.kind == Type3)
    ensures r.Some? && r.value.RegularParser? ==> r.value.regular.grammar == g && r.value.regular.Valid()
    ensures r.Some? && r.value.ContextFreeParser? ==> r.value.contextFree.grammar == g && r.value.contextFree.Valid()
  {
    if g.kind == Type3 {
      if !Regular.EdgesLeaveStates(g) {
        return None;
      }
      var p := new Regular.Type3Parser(g);
      return Some(RegularParser(p));
    }
    var p := new ContextFree.Type2Parser(g);
    return Some(ContextFreeParser(p));
  }
}
