/**
 * Derivation trees (tree.py): ordered labelled trees built by both parsers,
 * and their rendering as indented text with box-drawing branch glyphs.
 */
module DerivationTrees {
  import opened Wrappers
  import opened Strings

  /** A node: a grammar symbol and its ordered children. */
  datatype TreeNode = TreeNode(symbol: string, children: seq<TreeNode>)
  {
    /** `add_child`: the new child goes last and the existing children stay as they were. */
    function AddChild(child: TreeNode): (r: TreeNode)
      ensures r.symbol == symbol
      ensures |r.children| == |children| + 1
      ensures r.children[..|children|] == children && r.children[|children|] == child
    {
      TreeNode(symbol, children + [child])
    }

    /** `is_leaf`: the node is the whole of its subtree. */
    predicate IsLeaf(): (b: bool)
      ensures b <==> Size(this) == 1
    {
      assert Size(this) == 1 + Sizes(children);
      assert children != [] ==> Sizes(children) >= Size(children[0]) >= 1;
      |children| == 0
    }
  }

  /** `TreeNode(symbol)`: a node that has no children yet. */
  function Leaf(symbol: string): TreeNode {
    TreeNode(symbol, [])
  }

  /** The tree both parsers return for an accepted empty input: the start symbol over one epsilon leaf. */
  function EmptyInputTree(start: string): TreeNode {
    Leaf(start).AddChild(Leaf(Epsilon))
  }

  /** The number of nodes of a tree. */
  function Size(n: TreeNode): nat
    decreases n, 1
  {
    1 + Sizes(n.children)
  }

  function Sizes(cs: seq<TreeNode>): nat
    decreases cs, 0
  {
    if cs == [] then 0 else Size(cs[0]) + Sizes(cs[1..])
  }

  lemma {:induction false} SizesAppend(a: seq<TreeNode>, b: seq<TreeNode>)
    ensures Sizes(a + b) == Sizes(a) + Sizes(b)
  {
    if a == [] {
      assert a + b == b;
    } else {
      assert (a + b)[1..] == a[1..] + b;
      SizesAppend(a[1..], b);
    }
  }

  lemma {:induction false} SizesBoundEach(cs: seq<TreeNode>, i: nat)
    requires i < |cs|
    ensures Size(cs[i]) <= Sizes(cs)
  {
    if i > 0 { SizesBoundEach(cs[1..], i - 1); }
  }

  /** A child is a proper part of its parent. */
  lemma ChildIsSmaller(n: TreeNode, i: nat)
    requires i < |n.children|
    ensures Size(n.children[i]) < Size(n)
  {
    SizesBoundEach(n.children, i);
  }

  /**
   * After `add_child` a node is no longer a leaf, and the tree grew by
   * exactly the nodes of the new child.
   */
  lemma AddChildGrows(n: TreeNode, child: TreeNode)
    ensures !n.AddChild(child).IsLeaf()
    ensures Size(n.AddChild(child)) == Size(n) + Size(child)
  {
    SizesAppend(n.children, [child]);
    assert Sizes([child]) == Size(child) + Sizes([]);
  }

  const Corner: string := "└── "
  const Tee: string := "├── "
  const Indent: string := "    "
  const Bar: string := "│   "

  /** One rendered line: indentation, branch glyph (empty at the root) and symbol. */
  datatype Line = Line(prefix: string, branch: string, symbol: string)

  /** The text of the lines, each ended by a newline. */
  function Text(ls: seq<Line>): string {
    if ls == [] then [] else ls[0].prefix + ls[0].branch + ls[0].symbol + "\n" + Text(ls[1..])
  }

  lemma {:induction false} TextAppend(a: seq<Line>, b: seq<Line>)
    ensures Text(a + b) == Text(a) + Text(b)
  {
    if a == [] {
      assert a + b == b;
    } else {
      assert (a + b)[1..] == a[1..] + b;
      TextAppend(a[1..], b);
    }
  }

  /**
   * The lines `to_text(node, prefix, is_last)` writes for the tree whose root
   * is `root`. The source tests whether `node` is the root by object
   * identity (`node != self.root`); structural inequality stands for it here.
   */
  function Lines(root: TreeNode, node: TreeNode, prefix: string, isLast: bool): seq<Line>
    decreases node, 1
  {
    var branch := if node != root then (if isLast then Corner else Tee) else "";
    var inner := if node != root then prefix + (if isLast then Indent else Bar) else prefix;
    [Line(prefix, branch, node.symbol)] + ChildLines(root, node.children, inner)
  }

  /** The lines of the children in order; the one at the end is the last child. */
  function ChildLines(root: TreeNode, cs: seq<TreeNode>, prefix: string): seq<Line>
    decreases cs, 0
  {
    if cs == [] then [] else Lines(root, cs[0], prefix, |cs| == 1) + ChildLines(root, cs[1..], prefix)
  }

  /** The text of a node's lines is its own line followed by the text of its children's lines. */
  lemma LinesHead(root: TreeNode, n: TreeNode, prefix: string, isLast: bool, branch: string, inner: string)
    requires branch == if n != root then (if isLast then Corner else Tee) else ""
    requires inner == if n != root then prefix + (if isLast then Indent else Bar) else prefix
    ensures Text(Lines(root, n, prefix, isLast)) == prefix + branch + n.symbol + "\n" + Text(ChildLines(root, n.children, inner))
  {
    var head := [Line(prefix, branch, n.symbol)];
    TextAppend(head, ChildLines(root, n.children, inner));
    assert Text(head) == prefix + branch + n.symbol + "\n" + Text([]);
  }

  /** Rendering the children from `i` on: child `i`, then the children after it. */
  lemma ChildLinesStep(root: TreeNode, cs: seq<TreeNode>, i: nat, prefix: string)
    requires i < |cs|
    ensures Text(ChildLines(root, cs[i..], prefix))
         == Text(Lines(root, cs[i], prefix, i == |cs| - 1)) + Text(ChildLines(root, cs[i + 1..], prefix))
  {
    assert cs[i..][1..] == cs[i + 1..];
    TextAppend(Lines(root, cs[i], prefix, i == |cs| - 1), ChildLines(root, cs[i + 1..], prefix));
  }

  datatype DerivationTree = DerivationTree(root: TreeNode)
  {
    /**
     * `to_text`: rendering starts at the root when `node` is absent, each
     * node adds its own line and then the text of its children, left to right.
     */
    method ToText(node: Option<TreeNode>, prefix: string, isLast: bool) returns (text: string)
      ensures text == Text(Lines(root, if node.None? then root else node.value, prefix, isLast))
      decreases if node.None? then root else node.value
    {
      var n := if node.None? then root else node.value;
      var branch := "";
      var inner := prefix;
      if n != root {
        branch := if isLast then Corner else Tee;
        inner := inner + (if isLast then Indent else Bar);
      }
      text := prefix + branch + n.symbol + "\n";
      LinesHead(root, n, prefix, isLast, branch, inner);
      for i := 0 to |n.children|
        invariant text + Text(ChildLines(root, n.children[i..], inner)) == Text(Lines(root, n, prefix, isLast))
      {
        var isLastChild := i == |n.children| - 1;
        var childText := ToText(Some(n.children[i]), inner, isLastChild);
        ChildLinesStep(root, n.children, i, inner);
        text := text + childText;
      }
    }

    /** `str(tree)` is `to_text()` started at the root. */
    method Str() returns (s: string)
      ensures s == Text(Lines(root, root, "", true))
    {
      s := ToText(None, "", true);
    }
  }

  /** The reference order: each node with its depth and whether it is its parent's last child, pre-order. */
  datatype Entry = Entry(depth: nat, isLast: bool, symbol: string)

  function Outline(n: TreeNode, depth: nat, isLast: bool): seq<Entry>
    decreases n, 1
  {
    [Entry(depth, isLast, n.symbol)] + ChildOutline(n.children, depth + 1)
  }

  function ChildOutline(cs: seq<TreeNode>, depth: nat): seq<Entry>
    decreases cs, 0
  {
    if cs == [] then [] else Outline(cs[0], depth, |cs| == 1) + ChildOutline(cs[1..], depth)
  }

  /** What a line shows, with its indentation reduced to a width. */
  datatype Shape = Shape(width: int, branch: string, symbol: string)

  function LineShapes(ls: seq<Line>): seq<Shape> {
    seq(|ls|, k requires 0 <= k < |ls| => Shape(|ls[k].prefix|, ls[k].branch, ls[k].symbol))
  }

  /**
   * The shapes the rendering should have for the entries `es`: indentation
   * four columns per level below `depth0`, starting from `base`, and the corner
   * glyph exactly for last children.
   */
  function ExpectedShapes(es: seq<Entry>, base: int, depth0: int): seq<Shape> {
    seq(|es|, k requires 0 <= k < |es| =>
      Shape(base + 4 * (es[k].depth - depth0), if es[k].isLast then Corner else Tee, es[k].symbol))
  }

  lemma {:induction false} OutlineSize(n: TreeNode, depth: nat, isLast: bool)
    ensures |Outline(n, depth, isLast)| == Size(n)
    decreases n, 1
  {
    ChildOutlineSize(n.children, depth + 1);
  }

  lemma {:induction false} ChildOutlineSize(cs: seq<TreeNode>, depth: nat)
    ensures |ChildOutline(cs, depth)| == Sizes(cs)
    decreases cs, 0
  {
    if cs != [] {
      OutlineSize(cs[0], depth, |cs| == 1);
      ChildOutlineSize(cs[1..], depth);
    }
  }

  /** The shapes of two runs of lines, one after the other. */
  lemma LineShapesAppend(a: seq<Line>, b: seq<Line>)
    ensures LineShapes(a + b) == LineShapes(a) + LineShapes(b)
  {
  }

  /** The expected shapes of two runs of entries, one after the other. */
  lemma ExpectedShapesAppend(a: seq<Entry>, b: seq<Entry>, base: int, depth0: int)
    ensures ExpectedShapes(a + b, base, depth0) == ExpectedShapes(a, base, depth0) + ExpectedShapes(b, base, depth0)
  {
  }

  /** One more level of indentation and one more level of depth cancel out. */
  lemma ExpectedShapesShift(es: seq<Entry>, base: int, depth0: int)
    ensures ExpectedShapes(es, base + 4, depth0 + 1) == ExpectedShapes(es, base, depth0)
  {
  }

  /**
   * Below the root, each node renders as one line whose indentation grows by
   * four columns per level, whose glyph says whether it is a last child,
   * and the lines come in pre-order.
   */
  lemma {:induction false} LinesFollowOutline(root: TreeNode, node: TreeNode, prefix: string, isLast: bool, depth: nat)
    requires Size(node) < Size(root)
    ensures LineShapes(Lines(root, node, prefix, isLast)) == ExpectedShapes(Outline(node, depth, isLast), |prefix|, depth)
    decreases node, 1
  {
    var inner := prefix + (if isLast then Indent else Bar);
    assert |inner| == |prefix| + 4;
    ChildLinesFollowOutline(root, node.children, inner, depth + 1);
    var head := [Line(prefix, if isLast then Corner else Tee, node.symbol)];
    var etail := ChildOutline(node.children, depth + 1);
    assert Lines(root, node, prefix, isLast) == head + ChildLines(root, node.children, inner);
    LineShapesAppend(head, ChildLines(root, node.children, inner));
    ExpectedShapesShift(etail, |prefix|, depth);
    ExpectedShapesAppend([Entry(depth, isLast, node.symbol)], etail, |prefix|, depth);
  }

  lemma {:induction false} ChildLinesFollowOutline(root: TreeNode, cs: seq<TreeNode>, prefix: string, depth: nat)
    requires Sizes(cs) < Size(root)
    ensures LineShapes(ChildLines(root, cs, prefix)) == ExpectedShapes(ChildOutline(cs, depth), |prefix|, depth)
    decreases cs, 0
  {
    if cs != [] {
      LinesFollowOutline(root, cs[0], prefix, |cs| == 1, depth);
      ChildLinesFollowOutline(root, cs[1..], prefix, depth);
      LineShapesAppend(Lines(root, cs[0], prefix, |cs| == 1), ChildLines(root, cs[1..], prefix));
      ExpectedShapesAppend(Outline(cs[0], depth, |cs| == 1), ChildOutline(cs[1..], depth), |prefix|, depth);
    }
  }

  /**
   * `str(tree)` has one newline-terminated line per node: first the bare root
   * symbol, then the other nodes in pre-order, a node at depth d >= 1 indented
   * by 4 * (d - 1) columns and drawn with the corner glyph iff it is the last
   * child of its parent.
   */
  lemma RenderedTree(root: TreeNode)
    ensures |Lines(root, root, "", true)| == Size(root)
    ensures Lines(root, root, "", true)[0] == Line("", "", root.symbol)
    ensures LineShapes(Lines(root, root, "", true)[1..]) == ExpectedShapes(ChildOutline(root.children, 1), 0, 1)
  {
    var ls := Lines(root, root, "", true);
    assert ls[1..] == ChildLines(root, root.children, "");
    ChildLinesFollowOutline(root, root.children, "", 1);
    ChildOutlineSize(root.children, 1);
    assert |LineShapes(ls[1..])| == |ls| - 1;
  }
}
