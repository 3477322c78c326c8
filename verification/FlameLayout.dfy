/** The layout of a flame graph: src/svg.rs, lines 17-20, 66-104 and 163-229, over real numbers. */
module FlameLayout {
  import opened Machine
  import opened Sums
  import opened FlameTree
  import opened PprofProfile

  const SVG_WIDTH := 1200.0
  const HEADER_HEIGHT := 54.0
  const FRAME_HEIGHT := 18.0
  const MIN_WIDTH := 0.01

  /** A rectangle as it is written, with the path of the node it stands for; its text is the last
      label of that path. */
  datatype Box = Box(path: Path, x: real, y: real, width: real)

  /** The part of the picture's width that belongs to a value. */
  function Span(total: nat, value: nat): real
    requires total > 0
  {
    SVG_WIDTH * value as real / total as real
  }

  lemma SpanAdd(total: nat, a: nat, b: nat)
    requires total > 0
    ensures Span(total, a + b) == Span(total, a) + Span(total, b)
  {
  }

  lemma SpanMonotone(total: nat, a: nat, b: nat)
    requires total > 0 && a <= b
    ensures 0.0 <= Span(total, a) <= Span(total, b)
  {
    SpanAdd(total, a, b - a);
    assert Span(total, b - a) >= 0.0;
  }

  /** `width * child.value as f64 / node.value as f64`. */
  function Share(width: real, child: nat, parent: nat): real
    requires parent > 0
  {
    width * child as real / parent as real
  }

  /** A child's share of its parent's width is its share of the whole picture. */
  lemma SpanShare(total: nat, parent: nat, child: nat, width: real)
    requires total > 0 && parent > 0 && width == Span(total, parent)
    ensures Share(width, child, parent) == Span(total, child)
  {
    var t, p, c := total as real, parent as real, child as real;
    calc {
      (SVG_WIDTH * p / t) * c / p;
      (SVG_WIDTH * c / t) * p / p;
      SVG_WIDTH * c / t;
    }
  }

  predicate Inside(b: Box, outer: Box) {
    outer.x <= b.x && b.x + b.width <= outer.x + outer.width
  }

  predicate Disjoint(a: Box, b: Box) {
    a.x + a.width <= b.x || b.x + b.width <= a.x
  }

  /** A frame lies inside the frames above it and beside all others. */
  predicate Compatible(a: Box, b: Box) {
    if a.path <= b.path then Inside(b, a) else if b.path <= a.path then Inside(a, b) else Disjoint(a, b)
  }

  predicate Apart(boxes: seq<Box>) {
    forall i, j :: 0 <= i < j < |boxes| ==> Compatible(boxes[i], boxes[j])
  }

  predicate Within(boxes: seq<Box>, low: real, high: real) {
    forall i :: 0 <= i < |boxes| ==> low <= boxes[i].x && boxes[i].width >= 0.0 && boxes[i].x + boxes[i].width <= high
  }

  /** Strictly below `path`, through one of these children. */
  predicate Below(q: Path, path: Path, labels: set<string>) {
    |path| < |q| && path <= q && q[|path|] in labels
  }

  predicate StrictlyBelow(q: Path, path: Path) {
    |path| < |q| && path <= q
  }

  ghost predicate Shown(boxes: seq<Box>, q: Path) {
    exists i :: 0 <= i < |boxes| && boxes[i].path == q
  }

  predicate Sized(tree: map<Path, nat>, b: Box)
    requires [] in tree && tree[[]] > 0
  {
    b.path in tree && b.width == Span(tree[[]], tree[b.path]) && b.width > MIN_WIDTH
  }

  predicate Once(boxes: seq<Box>) {
    forall i, j :: 0 <= i < j < |boxes| ==> boxes[i].path != boxes[j].path
  }

  /** Exactly the nodes below `path` that are wide enough are drawn, once each, at their width. */
  ghost predicate Drawn(boxes: seq<Box>, tree: map<Path, nat>, path: Path, labels: set<string>)
    requires [] in tree && tree[[]] > 0
  {
    && (forall i :: 0 <= i < |boxes| ==> Sized(tree, boxes[i]) && Below(boxes[i].path, path, labels))
    && (forall q :: q in tree && Below(q, path, labels) && Span(tree[[]], tree[q]) > MIN_WIDTH ==> Shown(boxes, q))
    && Once(boxes)
  }

  ghost predicate DrawnAll(boxes: seq<Box>, tree: map<Path, nat>, path: Path)
    requires [] in tree && tree[[]] > 0
  {
    && (forall i :: 0 <= i < |boxes| ==> Sized(tree, boxes[i]) && StrictlyBelow(boxes[i].path, path))
    && (forall q :: q in tree && StrictlyBelow(q, path) && Span(tree[[]], tree[q]) > MIN_WIDTH ==> Shown(boxes, q))
    && Once(boxes)
  }

  /** Values never grow downwards. */
  ghost predicate Shrinking(tree: map<Path, nat>) {
    && [] in tree && tree[[]] > 0
    && forall p, q :: p in tree && q in tree && p <= q ==> tree[q] <= tree[p]
  }

  lemma BelowMore(q: Path, path: Path, labels: set<string>, l: string)
    ensures Below(q, path, labels + {l}) <==> Below(q, path, labels) || Child(path, l) <= q
  {
    if Below(q, path, labels + {l}) && q[|path|] == l {
      assert q[..|path| + 1] == Child(path, l);
    }
    if Child(path, l) <= q {
      assert q[..|path| + 1] == Child(path, l);
      assert Child(path, l)[|path|] == q[|path|];
      assert q[..|path|] == path;
    }
  }

  /** A child too narrow to draw hides nothing that would be wide enough. */
  lemma SkipChild(boxes: seq<Box>, tree: map<Path, nat>, path: Path, labels: set<string>, l: string)
    requires Shrinking(tree) && Drawn(boxes, tree, path, labels)
    requires Child(path, l) in tree && Span(tree[[]], tree[Child(path, l)]) <= MIN_WIDTH
    ensures Drawn(boxes, tree, path, labels + {l})
  {
    hide Span, Child, Below, Shown;
    forall i | 0 <= i < |boxes|
      ensures Below(boxes[i].path, path, labels + {l})
    {
      BelowMore(boxes[i].path, path, labels, l);
    }
    forall q | q in tree && Below(q, path, labels + {l}) && Span(tree[[]], tree[q]) > MIN_WIDTH
      ensures Shown(boxes, q)
    {
      BelowMore(q, path, labels, l);
      if Child(path, l) <= q {
        SpanMonotone(tree[[]], tree[q], tree[Child(path, l)]);
      }
    }
  }

  lemma ShownLeft(a: seq<Box>, b: seq<Box>, q: Path)
    ensures Shown(a, q) || Shown(b, q) ==> Shown(a + b, q)
  {
    if i :| 0 <= i < |a| && a[i].path == q {
      assert (a + b)[i].path == q;
    }
    if i :| 0 <= i < |b| && b[i].path == q {
      assert (a + b)[|a| + i].path == q;
    }
  }

  /** A child's own box followed by what is drawn below it. */
  lemma OwnBox(sub: seq<Box>, tree: map<Path, nat>, own: Box)
    requires [] in tree && tree[[]] > 0 && Sized(tree, own) && DrawnAll(sub, tree, own.path)
    ensures var boxes := [own] + sub;
            && (forall i :: 0 <= i < |boxes| ==> Sized(tree, boxes[i]) && own.path <= boxes[i].path)
            && (forall q :: q in tree && own.path <= q && Span(tree[[]], tree[q]) > MIN_WIDTH ==> Shown(boxes, q))
            && Once(boxes)
  {
    hide Span;
    forall q | q in tree && own.path <= q && Span(tree[[]], tree[q]) > MIN_WIDTH
      ensures Shown([own] + sub, q)
    {
      if |q| == |own.path| {
        assert ([own] + sub)[0].path == q;
      } else {
        ShownLeft([own], sub, q);
      }
    }
  }

  lemma DrawChild(boxes: seq<Box>, tree: map<Path, nat>, path: Path, labels: set<string>, l: string, own: Box,
                  sub: seq<Box>)
    requires [] in tree && tree[[]] > 0 && Drawn(boxes, tree, path, labels) && l !in labels
    requires own.path == Child(path, l) && Sized(tree, own) && DrawnAll(sub, tree, own.path)
    ensures Drawn(boxes + ([own] + sub), tree, path, labels + {l})
  {
    hide Span, Child, Shown, Sized, DrawnAll;
    OwnBox(sub, tree, own);
    var tail := [own] + sub;
    var all := boxes + tail;
    forall i | 0 <= i < |all|
      ensures Sized(tree, all[i]) && Below(all[i].path, path, labels + {l})
    {
      BelowMore(all[i].path, path, labels, l);
    }
    forall q | q in tree && Below(q, path, labels + {l}) && Span(tree[[]], tree[q]) > MIN_WIDTH
      ensures Shown(all, q)
    {
      BelowMore(q, path, labels, l);
      ShownLeft(boxes, tail, q);
    }
    forall i, j | 0 <= i < |boxes| && 0 <= j < |tail|
      ensures boxes[i].path != tail[j].path
    {
      NotBelow(tail[j].path, path, labels, l);
    }
  }

  lemma NotBelow(q: Path, path: Path, labels: set<string>, l: string)
    requires l !in labels && Child(path, l) <= q
    ensures !Below(q, path, labels)
  {
    assert q[|path|] == Child(path, l)[|path|];
  }

  // Geometry.

  /** Boxes of different children are on different sides of the cursor. */
  lemma Beside(left: seq<Box>, right: seq<Box>, low: real, cursor: real, high: real)
    requires Within(left, low, cursor) && Apart(left) && low <= cursor <= high
    requires Within(right, cursor, high) && Apart(right)
    requires forall i, j :: 0 <= i < |left| && 0 <= j < |right| ==>
      !(left[i].path <= right[j].path) && !(right[j].path <= left[i].path)
    ensures Within(left + right, low, high) && Apart(left + right)
  {
  }

  lemma Above(own: Box, sub: seq<Box>)
    requires own.width >= 0.0 && Within(sub, own.x, own.x + own.width) && Apart(sub)
    requires forall i :: 0 <= i < |sub| ==> own.path <= sub[i].path
    ensures Within([own] + sub, own.x, own.x + own.width) && Apart([own] + sub)
  {
  }

  /** Paths through different children are unrelated. */
  lemma Unrelated(path: Path, labels: set<string>, l: string, p: Path, q: Path)
    requires l !in labels && Below(p, path, labels) && Child(path, l) <= q
    ensures !(p <= q) && !(q <= p)
  {
    assert q[|path|] == Child(path, l)[|path|] == l;
  }

  lemma Geometry(boxes: seq<Box>, tree: map<Path, nat>, path: Path, labels: set<string>, l: string, own: Box,
                 sub: seq<Box>,
                 low: real)
    requires [] in tree && tree[[]] > 0 && Drawn(boxes, tree, path, labels) && l !in labels
    requires own.path == Child(path, l) && Sized(tree, own) && DrawnAll(sub, tree, own.path)
    requires low <= own.x && Within(boxes, low, own.x) && Apart(boxes)
    requires Within(sub, own.x, own.x + own.width) && Apart(sub)
    ensures Within(boxes + ([own] + sub), low, own.x + own.width) && Apart(boxes + ([own] + sub))
  {
    hide Span, Child, Shown;
    assert own.width >= 0.0;
    Above(own, sub);
    var tail := [own] + sub;
    forall i, j | 0 <= i < |boxes| && 0 <= j < |tail|
      ensures !(boxes[i].path <= tail[j].path) && !(tail[j].path <= boxes[i].path)
    {
      Unrelated(path, labels, l, boxes[i].path, tail[j].path);
    }
    Beside(boxes, tail, low, own.x, own.x + own.width);
  }

  /** The upper edge of a child of a node at a depth: the root's children at the bottom. */
  function Top(maxDepth: int, depth: int): real {
    HEADER_HEIGHT + (maxDepth - depth - 1) as real * FRAME_HEIGHT
  }

  /** Frames stand in rows by their depth, at most `maxDepth` of them. */
  predicate InRows(boxes: seq<Box>, maxDepth: nat) {
    forall i :: 0 <= i < |boxes| ==>
      0 < |boxes[i].path| <= maxDepth && boxes[i].y == Top(maxDepth, |boxes[i].path| - 1)
  }

  lemma MoreRows(boxes: seq<Box>, own: Box, sub: seq<Box>, maxDepth: nat)
    requires InRows(boxes, maxDepth) && InRows(sub, maxDepth)
    requires 0 < |own.path| <= maxDepth && own.y == Top(maxDepth, |own.path| - 1)
    ensures InRows(boxes + ([own] + sub), maxDepth)
  {
    hide Top;
  }

  // Over the tree.

  lemma TreeShrinks(g: FlameGraph)
    requires g.Valid() && g.root.value > 0
    ensures [] in g.Values() && g.Values()[[]] == g.root.value && Shrinking(g.Values())
  {
    hide Accounts, Closed;
    g.RootIs();
    var tree := g.Values();
    forall p, q | p in tree && q in tree && p <= q
      ensures tree[q] <= tree[p]
    {
      ValuesShrink(tree, g.samples, g.nodeCount, g.truncated, p, q);
    }
  }

  /** A path below a node goes through one of its children. */
  lemma ThroughChild(g: FlameGraph, p: Path, q: Path)
    requires g.Valid() && p in g.at && q in g.at && StrictlyBelow(q, p)
    ensures q[|p|] in g.at[p].children && Child(p, q[|p|]) in g.at && Child(p, q[|p|]) <= q
  {
    assert q[..|p| + 1] == Child(p, q[|p|]);
    PrefixIn(g.Values(), q[..|p| + 1], q);
    g.ChildrenAre(p, q[|p|]);
  }

  ghost predicate ReachesBelow(nodes: set<Path>, path: Path, labels: set<string>, depth: nat) {
    forall q :: q in nodes && Below(q, path, labels) ==> |q| <= |path| + depth
  }

  /** No node below `path` is more than `depth` labels further. */
  ghost predicate Reaches(nodes: set<Path>, path: Path, depth: nat) {
    forall q :: q in nodes && path <= q ==> |q| <= |path| + depth
  }

  ghost function Under(nodes: set<Path>, path: Path): set<Path> {
    set q | q in nodes && path <= q
  }

  lemma UnderChild(nodes: set<Path>, path: Path, l: string)
    requires path in nodes
    ensures Under(nodes, Child(path, l)) < Under(nodes, path)
  {
    forall q | q in Under(nodes, Child(path, l))
      ensures path <= q
    {
      assert path <= Child(path, l);
    }
    assert path in Under(nodes, path) && path !in Under(nodes, Child(path, l));
  }

  lemma ReachesMore(nodes: set<Path>, path: Path, labels: set<string>, l: string, depth: nat, below: nat)
    requires ReachesBelow(nodes, path, labels, depth) && Reaches(nodes, Child(path, l), below)
    ensures ReachesBelow(nodes, path, labels + {l}, if depth <= 1 + below then 1 + below else depth)
  {
    forall q | q in nodes && Below(q, path, labels + {l})
      ensures |q| <= |path| + (if depth <= 1 + below then 1 + below else depth)
    {
      BelowMore(q, path, labels, l);
    }
  }

  lemma ReachesAll(g: FlameGraph, path: Path, depth: nat)
    requires g.Valid() && path in g.at && ReachesBelow(g.at.Keys, path, g.at[path].children.Keys, depth)
    ensures Reaches(g.at.Keys, path, depth)
  {
    hide Accounts;
    forall q | q in g.at.Keys && path <= q
      ensures |q| <= |path| + depth
    {
      if |path| < |q| {
        ThroughChild(g, path, q);
      }
    }
  }

  /** `tree_depth`: the longest way down. */
  method TreeDepth(g: FlameGraph, ghost path: Path, node: FlameNode) returns (depth: nat, ghost deepest: Path)
    requires g.Valid() && path in g.at && g.at[path] == node
    ensures Reaches(g.at.Keys, path, depth)
    ensures deepest in g.at && path <= deepest && |deepest| == |path| + depth
    decreases Under(g.at.Keys, path)
  {
    hide FlameGraph.Shape, FlameGraph.Values, Accounts, ReachesBelow, Reaches, Under, Below;
    depth, deepest := 0, path;
    var remaining := node.children.Keys;
    ghost var done: set<string> := {};
    NothingBelow(g.at.Keys, path);
    while remaining != {}
      invariant remaining <= node.children.Keys && done == node.children.Keys - remaining
      invariant ReachesBelow(g.at.Keys, path, done, depth)
      invariant deepest in g.at && path <= deepest && |deepest| == |path| + depth
      decreases |remaining|
    {
      var l :| l in remaining;
      g.ChildrenAre(path, l);
      UnderChild(g.at.Keys, path, l);
      var below, down := TreeDepth(g, Child(path, l), node.children[l]);
      ReachesMore(g.at.Keys, path, done, l, depth, below);
      if depth <= 1 + below {
        depth, deepest := 1 + below, down;
      }
      remaining, done := remaining - {l}, done + {l};
    }
    assert done == node.children.Keys;
    ReachesAll(g, path, depth);
  }

  lemma NothingBelow(nodes: set<Path>, path: Path)
    ensures ReachesBelow(nodes, path, {}, 0)
  {
  }

  lemma NothingToDraw(g: FlameGraph, path: Path)
    requires g.Valid() && g.root.value > 0 && path in g.at && g.at[path].value == 0 && g.Values()[[]] > 0
    ensures DrawnAll([], g.Values(), path)
  {
    hide Accounts, FlameGraph.Shape, Shrinking;
    TreeShrinks(g);
    NothingBelowZero(g.Values(), path);
  }

  lemma NothingBelowZero(tree: map<Path, nat>, path: Path)
    requires Shrinking(tree) && path in tree && tree[path] == 0
    ensures DrawnAll([], tree, path)
  {
  }

  lemma NothingYet(tree: map<Path, nat>, path: Path)
    requires [] in tree && tree[[]] > 0
    ensures Drawn([], tree, path, {}) && Within([], 0.0, 0.0) && Apart([])
    ensures Total(ChildValues(tree, path, {})) == 0 && Span(tree[[]], 0) == 0.0
  {
    TotalZero(ChildValues(tree, path, {}));
  }

  lemma EverythingDrawn(g: FlameGraph, path: Path, boxes: seq<Box>)
    requires g.Valid() && g.root.value > 0 && path in g.at && g.Values()[[]] > 0
    requires Drawn(boxes, g.Values(), path, g.at[path].children.Keys)
    ensures DrawnAll(boxes, g.Values(), path)
  {
    hide Accounts, Span, Child, Shown;
    var tree := g.Values();
    forall q | q in tree && StrictlyBelow(q, path) && Span(tree[[]], tree[q]) > MIN_WIDTH
      ensures Shown(boxes, q)
    {
      ThroughChild(g, path, q);
    }
  }

  lemma ChildTotal(tree: map<Path, nat>, path: Path, labels: set<string>, l: string)
    requires l !in labels && forall m :: m in labels + {l} ==> Child(path, m) in tree
    ensures Total(ChildValues(tree, path, labels + {l})) == Total(ChildValues(tree, path, labels)) + tree[Child(path, l)]
  {
    assert ChildValues(tree, path, labels + {l}) == ChildValues(tree, path, labels)[l := tree[Child(path, l)]];
    TotalUpdate(ChildValues(tree, path, labels), l, tree[Child(path, l)]);
  }

  /** The children handled so far fit into their parent's width. */
  lemma CursorFits(g: FlameGraph, path: Path, labels: set<string>)
    requires g.Valid() && g.root.value > 0 && Unsaturated(g.samples) && path in g.at
    requires forall l :: l in labels ==> Child(path, l) in g.Values()
    ensures Span(g.root.value, Total(ChildValues(g.Values(), path, labels))) <= Span(g.root.value, g.at[path].value)
  {
    hide Accounts, Span;
    ChildrenFit(g.Values(), g.samples, g.nodeCount, g.truncated, path, labels);
    SpanMonotone(g.root.value, Total(ChildValues(g.Values(), path, labels)), g.at[path].value);
  }

  lemma ChildFacts(g: FlameGraph, path: Path, l: string, maxDepth: nat)
    requires g.Valid() && path in g.at && l in g.at[path].children && Reaches(g.at.Keys, [], maxDepth)
    ensures Child(path, l) in g.at && g.at[Child(path, l)] == g.at[path].children[l]
    ensures Child(path, l) in g.Values() && g.Values()[Child(path, l)] == g.at[path].children[l].value
    ensures |Child(path, l)| == |path| + 1 <= maxDepth && Child(path, l)[|path|] == l
  {
    hide Accounts;
    g.ChildrenAre(path, l);
  }

  /** Moving the cursor past one more child. */
  lemma NextChild(g: FlameGraph, path: Path, done: set<string>, l: string, maxDepth: nat, width: real, sum: nat)
    requires g.Valid() && g.root.value > 0 && path in g.at && g.at[path].value > 0 && width == Span(g.root.value, g.at[path].value)
    requires Reaches(g.at.Keys, [], maxDepth) && l in g.at[path].children && l !in done
    requires forall m :: m in done ==> Child(path, m) in g.Values()
    requires sum == Total(ChildValues(g.Values(), path, done))
    ensures Child(path, l) in g.Values()
    ensures var v := g.at[path].children[l].value;
            && Share(width, v, g.at[path].value) == Span(g.root.value, v)
            && Span(g.root.value, sum + v) == Span(g.root.value, sum) + Span(g.root.value, v)
            && Span(g.root.value, sum) >= 0.0
            && sum + v == Total(ChildValues(g.Values(), path, done + {l}))
  {
    hide FlameGraph.Shape, Accounts, Reaches, Span, Share, ChildValues;
    var v := g.at[path].children[l].value;
    ChildFacts(g, path, l, maxDepth);
    SpanShare(g.root.value, g.at[path].value, v, width);
    ChildTotal(g.Values(), path, done, l);
    SpanAdd(g.root.value, sum, v);
    SpanMonotone(g.root.value, 0, sum);
  }

  /** One turn of the loop of `render_children`: a child and the frames below it, unless it is too
      narrow. */
  method RenderChild(g: FlameGraph, path: Path, node: FlameNode, l: string, depth: nat, maxDepth: nat, ghost x: real,
                     childX: real, childWidth: real, ghost done: set<string>, boxes: seq<Box>)
    returns (bs: seq<Box>)
    requires g.Valid() && g.root.value > 0 && path in g.at && g.at[path] == node
    requires |path| == depth && Reaches(g.at.Keys, [], maxDepth) && g.Values()[[]] == g.root.value
    requires l in node.children && l !in done && childWidth == Span(g.root.value, node.children[l].value) && x <= childX
    requires InRows(boxes, maxDepth) && Drawn(boxes, g.Values(), path, done)
    requires Unsaturated(g.samples) ==> Within(boxes, x, childX) && Apart(boxes)
    ensures InRows(bs, maxDepth) && Drawn(bs, g.Values(), path, done + {l})
    ensures Unsaturated(g.samples) ==> Within(bs, x, childX + childWidth) && Apart(bs)
    decreases maxDepth - depth, 0
  {
    hide FlameGraph.Shape, Accounts, Reaches, Drawn, DrawnAll, Shrinking, Span, Child, Unsaturated, Within, Apart, Top, InRows;
    ghost var tree := g.Values();
    TreeShrinks(g);
    ChildFacts(g, path, l, maxDepth);
    var child := node.children[l];
    if childWidth <= MIN_WIDTH {
      SkipChild(boxes, tree, path, done, l);
      WithinMore(g, boxes, x, childX, childX + childWidth, child.value);
      return boxes;
    }
    var own := Box(Child(path, l), childX, Top(maxDepth, depth), childWidth);
    var sub := RenderChildren(g, Child(path, l), child, depth + 1, maxDepth, childX, childWidth);
    DrawChild(boxes, tree, path, done, l, own, sub);
    if Unsaturated(g.samples) {
      Geometry(boxes, tree, path, done, l, own, sub, x);
    }
    MoreRows(boxes, own, sub, maxDepth);
    bs := boxes + ([own] + sub);
  }

  /** `render_children`: the frames below a node. */
  method RenderChildren(g: FlameGraph, path: Path, node: FlameNode, depth: nat, maxDepth: nat, x: real, width: real)
    returns (boxes: seq<Box>)
    requires g.Valid() && g.root.value > 0 && path in g.at && g.at[path] == node
    requires |path| == depth && Reaches(g.at.Keys, [], maxDepth) && g.Values()[[]] == g.root.value
    requires width == Span(g.root.value, node.value)
    ensures InRows(boxes, maxDepth)
    ensures DrawnAll(boxes, g.Values(), path)
    ensures Unsaturated(g.samples) ==> Within(boxes, x, x + width) && Apart(boxes)
    decreases maxDepth - depth, 1
  {
    hide FlameGraph.Shape, FlameGraph.Valid, FlameGraph.Values, Accounts, Reaches, Drawn, DrawnAll, Shrinking, Span, Child,
         Unsaturated, Within, Apart, Share, InRows, Total, ChildValues;
    ghost var tree := g.Values();
    TreeShrinks(g);
    boxes := [];
    if node.value == 0 {
      NothingToDraw(g, path);
      NothingWithin(x, width, g.root.value, node.value);
      return;
    }
    var cursor := x;
    var remaining := node.children.Keys;
    ghost var done: set<string> := {};
    ghost var sum: nat := 0;
    NothingYet(tree, path);
    NothingWithin(x, width, g.root.value, node.value);
    while remaining != {}
      invariant remaining <= node.children.Keys && done == node.children.Keys - remaining
      invariant forall l :: l in done ==> Child(path, l) in tree
      invariant sum == Total(ChildValues(tree, path, done)) && cursor == x + Span(g.root.value, sum)
      invariant InRows(boxes, maxDepth)
      invariant Drawn(boxes, tree, path, done)
      invariant Unsaturated(g.samples) ==> Within(boxes, x, cursor) && Apart(boxes)
      decreases |remaining|
    {
      var l :| l in remaining;
      var child := node.children[l];
      var childWidth := Share(width, child.value, node.value);
      NextChild(g, path, done, l, maxDepth, width, sum);
      boxes := RenderChild(g, path, node, l, depth, maxDepth, x, cursor, childWidth, done, boxes);
      cursor := cursor + childWidth;
      remaining, done, sum := remaining - {l}, done + {l}, sum + child.value;
    }
    assert done == node.children.Keys;
    AllChildren(g, path, boxes, x, cursor, width);
  }

  /** After the last child. */
  lemma AllChildren(g: FlameGraph, path: Path, boxes: seq<Box>, x: real, cursor: real, width: real)
    requires g.Valid() && g.root.value > 0 && path in g.at && g.Values()[[]] > 0
    requires Drawn(boxes, g.Values(), path, g.at[path].children.Keys)
    requires forall l :: l in g.at[path].children.Keys ==> Child(path, l) in g.Values()
    requires cursor == x + Span(g.root.value, Total(ChildValues(g.Values(), path, g.at[path].children.Keys)))
    requires width == Span(g.root.value, g.at[path].value)
    requires Unsaturated(g.samples) ==> Within(boxes, x, cursor) && Apart(boxes)
    ensures DrawnAll(boxes, g.Values(), path)
    ensures Unsaturated(g.samples) ==> Within(boxes, x, x + width) && Apart(boxes)
  {
    hide Accounts, FlameGraph.Shape, Drawn, DrawnAll, Span, Child, Within, Apart, Unsaturated;
    EverythingDrawn(g, path, boxes);
    if Unsaturated(g.samples) {
      CursorFits(g, path, g.at[path].children.Keys);
      WithinWider(boxes, x, cursor, x + width);
    }
  }

  lemma NothingWithin(x: real, width: real, total: nat, value: nat)
    requires total > 0 && width == Span(total, value)
    ensures Within([], x, x) && Within([], x, x + width) && Apart([])
    ensures forall maxDepth :: InRows([], maxDepth)
  {
  }

  lemma WithinWider(boxes: seq<Box>, low: real, high: real, higher: real)
    requires Within(boxes, low, high) && high <= higher
    ensures Within(boxes, low, higher)
  {
  }

  lemma WithinMore(g: FlameGraph, boxes: seq<Box>, low: real, high: real, higher: real, value: nat)
    requires g.root.value > 0 && higher == high + Span(g.root.value, value)
    requires Unsaturated(g.samples) ==> Within(boxes, low, high)
    ensures Unsaturated(g.samples) ==> Within(boxes, low, higher)
  {
    SpanMonotone(g.root.value, 0, value);
  }

  // From a profile to a picture.

  function Hex(n: nat): string {
    (if n < 16 then "" else Hex(n / 16)) + ["0123456789abcdef"[n % 16]]
  }

  /** The label of an inlined call: its function's name, or the address when there is none. */
  function LabelOf(p: Profile, l: Location, line: Line): string {
    var f := FindFunction(p.function_, line.functionId);
    var name := if f.Some? then StringAt(p.stringTable, f.value.name) else "";
    if name != "" then name else "0x" + Hex(l.address)
  }

  /** The labels of a location, the innermost call first as pprof lists them. */
  function LineLabels(p: Profile, l: Location, lines: seq<Line>): seq<string> {
    if lines == [] then [] else [LabelOf(p, l, lines[0])] + LineLabels(p, l, lines[1..])
  }

  function LocationLabels(p: Profile, id: nat): seq<string> {
    var l := FindLocation(p.location, id);
    if l.None? then []
    else if l.value.line == [] then ["0x" + Hex(l.value.address)]
    else LineLabels(p, l.value, l.value.line)
  }

  /** The labels of a sample, leaf first. */
  function LeafFirst(p: Profile, ids: seq<nat>): seq<string> {
    if ids == [] then [] else LocationLabels(p, ids[0]) + LeafFirst(p, ids[1..])
  }

  function Reversed(s: seq<string>): (r: seq<string>) {
    if s == [] then [] else Reversed(s[1..]) + [s[0]]
  }

  lemma {:induction false} ReversedConcat(a: seq<string>, b: seq<string>)
    ensures Reversed(a + b) == Reversed(b) + Reversed(a)
  {
    if a == [] {
      assert a + b == b;
    } else {
      ReversedConcat(a[1..], b);
      assert (a + b)[1..] == a[1..] + b;
    }
  }

  // What the labels say, by what the profile means.

  function DigitOf(c: char): nat {
    if '0' <= c <= '9' then (c - '0') as nat else if 'a' <= c <= 'f' then (c - 'a') as nat + 10 else 0
  }

  function NumberOf(digits: string): nat {
    if digits == "" then 0 else 16 * NumberOf(digits[..|digits| - 1]) + DigitOf(digits[|digits| - 1])
  }

  /** The digits of an address read back as the address, without a leading zero. */
  lemma {:induction false} HexRead(n: nat)
    ensures Hex(n) != "" && NumberOf(Hex(n)) == n && (n != 0 ==> Hex(n)[0] != '0')
  {
    var d := "0123456789abcdef"[n % 16];
    assert DigitOf(d) == n % 16;
    if n < 16 {
      assert Hex(n) == [d] && [d][..0] == "";
    } else {
      HexRead(n / 16);
      assert Hex(n) == Hex(n / 16) + [d];
      assert Hex(n)[..|Hex(n)| - 1] == Hex(n / 16);
    }
  }

  /** A call is labelled by its function's name, or by the address when there is none. */
  function LineLabel(address: u64, line: LineMeaning): string {
    if line.function_.Some? && line.function_.value.name != "" then line.function_.value.name else "0x" + Hex(address)
  }

  /** A location stands for its calls, the innermost first, or for its address when they are not known. */
  function LabelsOf(l: LocationMeaning): seq<string> {
    if l.lines == [] then ["0x" + Hex(l.address)]
    else seq(|l.lines|, i requires 0 <= i < |l.lines| => LineLabel(l.address, l.lines[i]))
  }

  function StackLabels(stack: seq<LocationMeaning>): seq<string> {
    if stack == [] then [] else StackLabels(stack[..|stack| - 1]) + LabelsOf(stack[|stack| - 1])
  }

  lemma {:induction false} LinesMean(p: Profile, l: Location, lines: seq<Line>)
    ensures LineLabels(p, l, lines)
         == seq(|lines|, i requires 0 <= i < |lines| => LineLabel(l.address, MeaningOfLine(p, lines[i])))
    decreases |lines|
  {
    if lines != [] {
      LinesMean(p, l, lines[1..]);
      assert LabelOf(p, l, lines[0]) == LineLabel(l.address, MeaningOfLine(p, lines[0]));
      hide LabelOf, LineLabel, MeaningOfLine;
    }
  }

  lemma {:induction false} LeafFirstSnoc(p: Profile, ids: seq<nat>, id: nat)
    ensures LeafFirst(p, ids + [id]) == LeafFirst(p, ids) + LocationLabels(p, id)
    decreases |ids|
  {
    hide LocationLabels;
    if ids == [] {
      assert ([] + [id])[1..] == [];
    } else {
      assert (ids + [id])[0] == ids[0] && (ids + [id])[1..] == ids[1..] + [id];
      LeafFirstSnoc(p, ids[1..], id);
    }
  }

  lemma LocationMeans(p: Profile, id: nat)
    ensures var l := FindLocation(p.location, id);
            LocationLabels(p, id) == if l.Some? then LabelsOf(MeaningOfLocation(p, l.value)) else []
  {
    var l := FindLocation(p.location, id);
    if l.Some? {
      LinesMean(p, l.value, l.value.line);
      hide LineLabels, LineLabel, MeaningOfLine;
    }
  }

  lemma StackLabelsSnoc(p: Profile, ids: seq<nat>, n: nat)
    requires n + 1 == |ids|
    ensures var l := FindLocation(p.location, ids[n]);
            StackLabels(MeaningOfStack(p, ids))
            == StackLabels(MeaningOfStack(p, ids[..n])) + (if l.Some? then LabelsOf(MeaningOfLocation(p, l.value)) else [])
  {
    hide LabelsOf, MeaningOfLocation, FindLocation;
    var l, before := FindLocation(p.location, ids[n]), MeaningOfStack(p, ids[..n]);
    if l.Some? {
      assert (before + [MeaningOfLocation(p, l.value)])[..|before|] == before;
    } else {
      assert before + [] == before;
    }
  }

  /** The labels of a sample are those of the stack that the profile means by it. */
  lemma {:induction false} LeafFirstMeans(p: Profile, ids: seq<nat>)
    ensures LeafFirst(p, ids) == StackLabels(MeaningOfStack(p, ids))
  {
    hide *;
    if ids == [] {
      NoLabels(p);
    } else {
      var n := |ids| - 1;
      LeafFirstMeans(p, ids[..n]);
      LocationMeans(p, ids[n]);
      StackLabelsSnoc(p, ids, n);
      assert ids == ids[..n] + [ids[n]];
      LeafFirstSnoc(p, ids[..n], ids[n]);
    }
  }

  lemma NoLabels(p: Profile)
    ensures LeafFirst(p, []) == StackLabels(MeaningOfStack(p, []))
  {
  }

  lemma {:induction false} ReversedAt(s: seq<string>, k: nat)
    requires k < |s|
    ensures |Reversed(s)| == |s| && Reversed(s)[k] == s[|s| - 1 - k]
  {
    if |s| > 1 {
      ReversedAt(s[1..], if k < |s| - 1 then k else 0);
    }
  }

  /** `sample_frames`: the labels from the root outwards. */
  method SampleFrames(p: Profile, ids: seq<nat>) returns (frames: seq<string>)
    ensures frames == Reversed(LeafFirst(p, ids))
    ensures var labels := StackLabels(MeaningOfStack(p, ids));
            |frames| == |labels| && forall k :: 0 <= k < |frames| ==> frames[k] == labels[|labels| - 1 - k]
  {
    frames := [];
    var i := |ids|;
    while i > 0
      invariant 0 <= i <= |ids| && frames == Reversed(LeafFirst(p, ids[i..]))
    {
      i := i - 1;
      assert ids[i..][0] == ids[i] && ids[i..][1..] == ids[i + 1..];
      ReversedConcat(LocationLabels(p, ids[i]), LeafFirst(p, ids[i + 1..]));
      var location := FindLocation(p.location, ids[i]);
      if location.None? {
        continue;
      }
      if location.value.line == [] {
        frames := frames + ["0x" + Hex(location.value.address)];
        continue;
      }
      frames := PushLines(p, location.value, frames);
    }
    assert ids[0..] == ids;
    LeafFirstMeans(p, ids);
    ReversedAll(LeafFirst(p, ids));
  }

  lemma ReversedAll(s: seq<string>)
    ensures |Reversed(s)| == |s| && forall k :: 0 <= k < |s| ==> Reversed(s)[k] == s[|s| - 1 - k]
  {
    forall k | 0 <= k < |s|
      ensures |Reversed(s)| == |s| && Reversed(s)[k] == s[|s| - 1 - k]
    {
      ReversedAt(s, k);
    }
    assert s == [] ==> Reversed(s) == [];
  }

  method PushLines(p: Profile, l: Location, frames: seq<string>) returns (r: seq<string>)
    ensures r == frames + Reversed(LineLabels(p, l, l.line))
  {
    r := frames;
    var j := |l.line|;
    while j > 0
      invariant 0 <= j <= |l.line| && r == frames + Reversed(LineLabels(p, l, l.line[j..]))
    {
      j := j - 1;
      assert l.line[j..][0] == l.line[j] && l.line[j..][1..] == l.line[j + 1..];
      r := r + [LabelOf(p, l, l.line[j])];
    }
    assert l.line[0..] == l.line;
  }

  /** The stacks a picture is drawn from: samples of positive value. */
  function FlameSamples(p: Profile, samples: seq<Sample>, index: nat): seq<Stack> {
    if samples == [] then []
    else
      var n := |samples| - 1;
      var value := ValueAt(samples[n], index);
      FlameSamples(p, samples[..n], index)
      + (if value > 0 then [Stack(Reversed(LeafFirst(p, samples[n].locationId)), value)] else [])
  }

  /** Sample values are `i64`. */
  predicate Words(p: Profile, index: nat) {
    forall i :: 0 <= i < |p.sample| ==> ValueAt(p.sample[i], index) <= I64_MAX
  }

  method BuildTree(p: Profile, index: nat) returns (g: FlameGraph)
    requires Words(p, index)
    ensures g.Valid() && g.samples == FlameSamples(p, p.sample, index)
  {
    hide FlameGraph.Valid, Reversed, LeafFirst;
    g := new FlameGraph();
    for i := 0 to |p.sample|
      invariant fresh(g) && fresh(g.at.Values)
      invariant g.Valid() && g.samples == FlameSamples(p, p.sample[..i], index)
    {
      assert p.sample[..i + 1][..i] == p.sample[..i];
      var value := ValueAt(p.sample[i], index);
      if value > 0 {
        var frames := SampleFrames(p, p.sample[i].locationId);
        g.InsertSample(frames, value);
      }
    }
    assert p.sample[..|p.sample|] == p.sample;
  }

  /** A picture without its texts and colours. */
  datatype Picture = Picture(boxes: seq<Box>, total: u64, truncated: bool, height: real)

  /** `render_flamegraph_to`, without the text of the picture. The tree behind it accounts for every
      sample; the frames drawn are exactly the nodes wide enough, each at its share of the width,
      inside its caller and beside its siblings. */
  method Render(p: Profile, index: nat) returns (r: Picture, ghost tree: map<Path, nat>, ghost depth: nat)
    requires Words(p, index)
    ensures |tree| > 0 && Accounts(tree, FlameSamples(p, p.sample, index), |tree| - 1, r.truncated)
    ensures [] in tree && r.total == tree[[]]
    ensures r.total == SatU64(PrefixSum(FlameSamples(p, p.sample, index), []))
    ensures 0 < depth && (forall q :: q in tree ==> |q| <= depth) && (depth > 1 ==> exists q :: q in tree && |q| == depth)
    ensures r.height == HEADER_HEIGHT + depth as real * FRAME_HEIGHT + 8.0
    ensures r.total == 0 ==> r.boxes == []
    ensures r.total > 0 ==> InRows(r.boxes, depth) && DrawnAll(r.boxes, tree, [])
    ensures Unsaturated(FlameSamples(p, p.sample, index)) ==> Within(r.boxes, 0.0, SVG_WIDTH) && Apart(r.boxes)
  {
    hide FlameGraph.Shape, Accounts, FlameSamples, InRows, DrawnAll, Drawn, Within, Apart, Unsaturated;
    var g := BuildTree(p, index);
    g.RootIs();
    AccountsCount(g);
    tree := g.Values();
    var below, deepest := TreeDepth(g, [], g.root);
    var maxDepth := if below < 1 then 1 else below;
    depth := maxDepth;
    WholeWidth(if g.root.value > 0 then g.root.value else 1);
    NothingWithin(0.0, SVG_WIDTH, if g.root.value > 0 then g.root.value else 1, if g.root.value > 0 then g.root.value else 1);
    r := Picture([], g.root.value, g.truncated, HEADER_HEIGHT + maxDepth as real * FRAME_HEIGHT + 8.0);
    if g.root.value > 0 {
      var boxes := RenderChildren(g, [], g.root, 0, maxDepth, 0.0, SVG_WIDTH);
      r := r.(boxes := boxes);
    }
  }

  lemma AccountsCount(g: FlameGraph)
    requires g.Valid()
    ensures |g.Values()| > 0 && Accounts(g.Values(), g.samples, |g.Values()| - 1, g.truncated)
    ensures [] in g.Values() && g.Values()[[]] == SatU64(PrefixSum(g.samples, []))
  {
  }

  lemma WholeWidth(total: nat)
    requires total > 0
    ensures Span(total, total) == SVG_WIDTH
  {
  }

  /** What a reader may take from a drawn frame: its width is the share of all samples whose stack
      begins with its path, and every path with a large enough share is drawn. */
  lemma FramesAreShares(tree: map<Path, nat>, samples: seq<Stack>, truncated: bool, boxes: seq<Box>, q: Path)
    requires |tree| > 0 && Accounts(tree, samples, |tree| - 1, truncated) && Unsaturated(samples)
    requires PrefixSum(samples, []) > 0 && q != []
    requires [] in tree && tree[[]] > 0 && DrawnAll(boxes, tree, [])
    ensures forall i :: 0 <= i < |boxes| && boxes[i].path == q ==>
      boxes[i].width == Span(PrefixSum(samples, []), PrefixSum(samples, q))
    ensures q in tree && Span(PrefixSum(samples, []), PrefixSum(samples, q)) > MIN_WIDTH ==> Shown(boxes, q)
  {
    hide Span, Accounts, Unsaturated, PrefixSum;
    NodesAreExact(tree, samples, |tree| - 1, truncated, []);
    if q in tree {
      NodesAreExact(tree, samples, |tree| - 1, truncated, q);
    }
  }
}
