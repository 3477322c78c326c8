/** The node-capped tree behind a flame graph: src/svg.rs, lines 22-26 and 136-161. */
module FlameTree {
  import opened Machine
  import opened Sums

  const MAX_SVG_NODES: nat := 100_000

  /** A sample's labels from the root outwards, with its value. */
  datatype Stack = Stack(frames: seq<string>, value: nat)

  type Path = seq<string>

  function Child(p: Path, l: string): Path {
    p + [l]
  }

  lemma ChildInjective(p: Path, l: string, q: Path, m: string)
    requires Child(p, l) == Child(q, m)
    ensures p == q && l == m
  {
    assert Child(p, l)[..|p|] == p && Child(q, m)[..|q|] == q;
    assert Child(p, l)[|p|] == l && Child(q, m)[|q|] == m;
  }

  /** Everything sampled at or below a path. */
  function PrefixSum(samples: seq<Stack>, p: Path): nat {
    if samples == [] then 0
    else
      var n := |samples| - 1;
      PrefixSum(samples[..n], p) + (if p <= samples[n].frames then samples[n].value else 0)
  }

  lemma PrefixSumPush(samples: seq<Stack>, s: Stack, p: Path)
    ensures PrefixSum(samples + [s], p) == PrefixSum(samples, p) + (if p <= s.frames then s.value else 0)
  {
    assert (samples + [s])[..|samples|] == samples;
  }

  lemma {:induction false} PrefixSumNone(samples: seq<Stack>, p: Path)
    requires forall i :: 0 <= i < |samples| ==> !(p <= samples[i].frames)
    ensures PrefixSum(samples, p) == 0
  {
    if samples != [] {
      PrefixSumNone(samples[..|samples| - 1], p);
    }
  }

  predicate SampledIn(samples: seq<Stack>, p: Path) {
    exists i :: 0 <= i < |samples| && p <= samples[i].frames
  }

  /** A tree read as its values by path: every path with its prefixes. */
  ghost predicate Closed<V>(tree: map<Path, V>) {
    [] in tree && forall p, l :: Child(p, l) in tree ==> p in tree
  }

  lemma {:induction false} PrefixIn<V>(tree: map<Path, V>, q: Path, p: Path)
    requires Closed(tree) && p in tree && q <= p
    ensures q in tree
  {
    if q != p {
      var n := |p| - 1;
      assert p == Child(p[..n], p[n]);
      PrefixIn(tree, q, p[..n]);
    }
  }

  /** Some sampled path has no node. */
  ghost predicate Misses<V>(tree: map<Path, V>, samples: seq<Stack>) {
    exists p :: p !in tree && SampledIn(samples, p)
  }

  /** What the tree owes to the samples inserted so far. */
  ghost predicate Accounts(tree: map<Path, nat>, samples: seq<Stack>, count: nat, truncated: bool) {
    && Closed(tree)
    && count + 1 == |tree| <= MAX_SVG_NODES + 1
    && (forall p :: p in tree ==> tree[p] == SatU64(PrefixSum(samples, p)))
    && (forall p :: p in tree && p != [] ==> SampledIn(samples, p))
    && (truncated <==> Misses(tree, samples))
    && (truncated ==> count == MAX_SVG_NODES)
  }

  lemma EmptyAccounts(tree: map<Path, nat>)
    requires tree == map[[] := 0]
    ensures Accounts(tree, [], 0, false)
  {
  }

  /** Half way through inserting `s`: its first `i` labels have been walked. */
  ghost predicate Walking(tree: map<Path, nat>, samples: seq<Stack>, s: Stack, i: nat, count: nat, truncated: bool) {
    && i <= |s.frames| && s.frames[..i] in tree
    && Closed(tree)
    && count + 1 == |tree| <= MAX_SVG_NODES + 1
    && (forall p :: p in tree ==>
      tree[p] == SatU64(PrefixSum(samples, p) + (if p <= s.frames[..i] then s.value else 0)))
    && (forall p :: p in tree && p != [] ==> SampledIn(samples, p) || p <= s.frames[..i])
    && (truncated <==> Misses(tree, samples))
    && (truncated ==> count == MAX_SVG_NODES)
  }

  lemma WalkStart(tree: map<Path, nat>, samples: seq<Stack>, s: Stack, count: nat, truncated: bool)
    requires Accounts(tree, samples, count, truncated)
    ensures [] in tree && Walking(tree[[] := SatU64(tree[[]] + s.value)], samples, s, 0, count, truncated)
  {
    var after := tree[[] := SatU64(tree[[]] + s.value)];
    assert after.Keys == tree.Keys;
    assert s.frames[..0] == [];
    assert Misses(after, samples) <==> Misses(tree, samples);
    forall p | p in tree
      ensures p <= s.frames[..0] <==> p == []
    {
    }
  }

  /** The paths on the way to one label further. */
  lemma PrefixStep(frames: seq<string>, i: nat, p: Path)
    requires i < |frames|
    ensures frames[..i + 1] == Child(frames[..i], frames[i])
    ensures p <= frames[..i + 1] <==> p <= frames[..i] || p == frames[..i + 1]
    ensures !(frames[..i + 1] <= frames[..i])
  {
  }

  lemma WalkBound(tree: map<Path, nat>, samples: seq<Stack>, s: Stack, i: nat, count: nat, truncated: bool)
    requires Walking(tree, samples, s, i, count, truncated)
    ensures count <= MAX_SVG_NODES
  {
  }

  lemma WalkOn(tree: map<Path, nat>, samples: seq<Stack>, s: Stack, i: nat, count: nat, truncated: bool)
    requires Walking(tree, samples, s, i, count, truncated) && i < |s.frames| && s.frames[..i + 1] in tree
    ensures Walking(tree[s.frames[..i + 1] := SatU64(tree[s.frames[..i + 1]] + s.value)], samples, s, i + 1, count, truncated)
  {
    hide SampledIn;
    var q := s.frames[..i + 1];
    var after := tree[q := SatU64(tree[q] + s.value)];
    assert after.Keys == tree.Keys;
    assert Misses(after, samples) <==> Misses(tree, samples);
    forall p | p in tree
      ensures p <= q <==> p <= s.frames[..i] || p == q
      ensures !(q <= s.frames[..i])
    {
      PrefixStep(s.frames, i, p);
    }
  }

  lemma WalkNew(tree: map<Path, nat>, samples: seq<Stack>, s: Stack, i: nat, count: nat, truncated: bool)
    requires Walking(tree, samples, s, i, count, truncated) && i < |s.frames|
    requires s.frames[..i + 1] !in tree && count < MAX_SVG_NODES
    ensures Walking(tree[s.frames[..i + 1] := SatU64(s.value)], samples, s, i + 1, count + 1, truncated)
  {
    hide SampledIn, PrefixSum, Child;
    var q := s.frames[..i + 1];
    var after := tree[q := SatU64(s.value)];
    assert after.Keys == tree.Keys + {q};
    assert !SampledIn(samples, q);
    NeverSampled(samples, q);
    assert !Misses(after, samples);
    PrefixStep(s.frames, i, q);
    forall p, l | Child(p, l) in after
      ensures p in after
    {
      if Child(p, l) == q {
        ChildInjective(p, l, s.frames[..i], s.frames[i]);
      }
    }
    forall p | p in after
      ensures p <= q <==> p <= s.frames[..i] || p == q
    {
      PrefixStep(s.frames, i, p);
    }
  }

  lemma NeverSampled(samples: seq<Stack>, p: Path)
    requires !SampledIn(samples, p)
    ensures PrefixSum(samples, p) == 0
  {
    PrefixSumNone(samples, p);
  }

  lemma SampledPush(samples: seq<Stack>, s: Stack, p: Path)
    ensures SampledIn(samples + [s], p) <==> SampledIn(samples, p) || p <= s.frames
  {
    var more := samples + [s];
    if i :| 0 <= i < |samples| && p <= samples[i].frames {
      assert p <= more[i].frames;
    }
    if p <= s.frames {
      assert p <= more[|samples|].frames;
    }
  }

  /** At the last label, or where the node limit stops the walk, the sample is accounted for. */
  lemma WalkEnd(tree: map<Path, nat>, samples: seq<Stack>, s: Stack, i: nat, count: nat, truncated: bool, stopped: bool)
    requires Walking(tree, samples, s, i, count, truncated)
    requires stopped ==> i < |s.frames| && s.frames[..i + 1] !in tree && count == MAX_SVG_NODES
    requires !stopped ==> i == |s.frames|
    ensures Accounts(tree, samples + [s], count, truncated || stopped)
  {
    hide SampledIn, PrefixSum;
    forall p | p in tree
      ensures PrefixSum(samples + [s], p) == PrefixSum(samples, p) + (if p <= s.frames[..i] then s.value else 0)
      ensures SampledIn(samples + [s], p) <==> SampledIn(samples, p) || p <= s.frames[..i]
    {
      PrefixSumPush(samples, s, p);
      SampledPush(samples, s, p);
      if stopped && p <= s.frames && !(p <= s.frames[..i]) {
        assert s.frames[..i + 1] <= p;
        PrefixIn(tree, s.frames[..i + 1], p);
      }
    }
    MissesPush(tree, samples, s, i, stopped);
  }

  lemma MissesPush<V>(tree: map<Path, V>, samples: seq<Stack>, s: Stack, i: nat, stopped: bool)
    requires Closed(tree) && i <= |s.frames| && s.frames[..i] in tree
    requires stopped ==> i < |s.frames| && s.frames[..i + 1] !in tree
    requires !stopped ==> i == |s.frames|
    ensures Misses(tree, samples + [s]) <==> Misses(tree, samples) || stopped
  {
    hide SampledIn;
    if stopped {
      SampledPush(samples, s, s.frames[..i + 1]);
      assert SampledIn(samples + [s], s.frames[..i + 1]);
    }
    if p :| p !in tree && SampledIn(samples, p) {
      SampledPush(samples, s, p);
      assert SampledIn(samples + [s], p);
    }
    if !stopped && Misses(tree, samples + [s]) {
      var p :| p !in tree && SampledIn(samples + [s], p);
      SampledPush(samples, s, p);
      if p <= s.frames {
        assert s.frames[..i] == s.frames;
        PrefixIn(tree, p, s.frames);
      }
    }
  }

  // What a reader of the tree may rely on.

  /** No total reaches the `u64` ceiling. */
  predicate Unsaturated(samples: seq<Stack>) {
    PrefixSum(samples, []) <= 0xFFFF_FFFF_FFFF_FFFF
  }

  lemma {:induction false} PrefixSumShrinks(samples: seq<Stack>, p: Path, q: Path)
    requires p <= q
    ensures PrefixSum(samples, q) <= PrefixSum(samples, p)
  {
    if samples != [] {
      PrefixSumShrinks(samples[..|samples| - 1], p, q);
    }
  }

  /** Every node shows exactly what was sampled at or below it: truncation takes nodes away but
      never changes one that is shown. */
  lemma NodesAreExact(tree: map<Path, nat>, samples: seq<Stack>, count: nat, truncated: bool, p: Path)
    requires Accounts(tree, samples, count, truncated) && Unsaturated(samples) && p in tree
    ensures tree[p] == PrefixSum(samples, p)
  {
    PrefixSumShrinks(samples, [], p);
  }

  /** The flag is set exactly when some frame of some sample has no node. */
  lemma TruncatedMeans(tree: map<Path, nat>, samples: seq<Stack>, count: nat, truncated: bool)
    requires Accounts(tree, samples, count, truncated)
    ensures truncated <==> exists i :: 0 <= i < |samples| && samples[i].frames !in tree
  {
    if i :| 0 <= i < |samples| && samples[i].frames !in tree {
      assert SampledIn(samples, samples[i].frames);
    }
    if truncated {
      var p :| p !in tree && SampledIn(samples, p);
      var i :| 0 <= i < |samples| && p <= samples[i].frames;
      if samples[i].frames in tree {
        PrefixIn(tree, p, samples[i].frames);
      }
    }
  }

  ghost function ChildValues(tree: map<Path, nat>, p: Path, labels: set<string>): map<string, nat>
    requires forall l :: l in labels ==> Child(p, l) in tree
  {
    map l | l in labels :: tree[Child(p, l)]
  }

  ghost function ChildSums(samples: seq<Stack>, p: Path, labels: set<string>): map<string, nat> {
    map l | l in labels :: PrefixSum(samples, Child(p, l))
  }

  lemma ChildSumsPush(samples: seq<Stack>, s: Stack, p: Path, labels: set<string>)
    ensures Total(ChildSums(samples + [s], p, labels))
         <= Total(ChildSums(samples, p, labels)) + (if p <= s.frames then s.value else 0)
  {
    var before, after := ChildSums(samples, p, labels), ChildSums(samples + [s], p, labels);
    forall l | l in labels
      ensures after[l] == before[l] + (if Child(p, l) <= s.frames then s.value else 0)
    {
      PrefixSumPush(samples, s, Child(p, l));
    }
    if |p| < |s.frames| && p <= s.frames && s.frames[|p|] in labels {
      var l := s.frames[|p|];
      OnlyChild(p, s.frames);
      assert after == before[l := after[l]];
      TotalUpdate(before, l, after[l]);
    } else {
      assert forall l :: l in labels ==> !(Child(p, l) <= s.frames);
      assert after == before;
    }
  }

  /** A stack goes through at most one child of a node. */
  lemma OnlyChild(p: Path, frames: seq<string>)
    requires |p| < |frames| && p <= frames
    ensures forall l :: Child(p, l) <= frames <==> l == frames[|p|]
  {
    forall l
      ensures Child(p, l) <= frames <==> l == frames[|p|]
    {
      assert frames[..|p|] == p;
      if l == frames[|p|] {
        assert frames[..|p| + 1] == Child(p, l);
      }
    }
  }

  lemma {:induction false} ChildSumsFit(samples: seq<Stack>, p: Path, labels: set<string>)
    ensures Total(ChildSums(samples, p, labels)) <= PrefixSum(samples, p)
  {
    if samples == [] {
      TotalZero(ChildSums(samples, p, labels));
    } else {
      var n := |samples| - 1;
      assert samples == samples[..n] + [samples[n]];
      ChildSumsFit(samples[..n], p, labels);
      ChildSumsPush(samples[..n], samples[n], p, labels);
    }
  }

  /** Any children of a node sum to at most their parent. */
  lemma ChildrenFit(tree: map<Path, nat>, samples: seq<Stack>, count: nat, truncated: bool, p: Path,
                    labels: set<string>)
    requires Accounts(tree, samples, count, truncated) && Unsaturated(samples) && p in tree
    requires forall l :: l in labels ==> Child(p, l) in tree
    ensures Total(ChildValues(tree, p, labels)) <= tree[p]
  {
    hide PrefixSum, SampledIn, Misses;
    ChildSumsFit(samples, p, labels);
    NodesAreExact(tree, samples, count, truncated, p);
    forall l | l in labels
      ensures tree[Child(p, l)] == PrefixSum(samples, Child(p, l))
    {
      NodesAreExact(tree, samples, count, truncated, Child(p, l));
    }
    assert ChildValues(tree, p, labels) == ChildSums(samples, p, labels);
  }

  /** A node is never larger than one above it, saturated or not. */
  lemma ValuesShrink(tree: map<Path, nat>, samples: seq<Stack>, count: nat, truncated: bool, p: Path, q: Path)
    requires Accounts(tree, samples, count, truncated) && q in tree && p <= q
    ensures p in tree && tree[q] <= tree[p]
  {
    PrefixIn(tree, p, q);
    PrefixSumShrinks(samples, p, q);
  }

  class FlameNode {
    var value: u64
    var children: map<string, FlameNode>

    constructor ()
      ensures value == 0 && children == map[]
    {
      value, children := 0, map[];
    }
  }

  /** The tree, its node count and its truncation flag. */
  class FlameGraph {
    const root: FlameNode
    var nodeCount: nat
    var truncated: bool
    /** The node at each path, the root at the empty one. */
    ghost var at: map<Path, FlameNode>
    /** The samples inserted so far. */
    ghost var samples: seq<Stack>

    /** The nodes form a tree: one node a path, children exactly the paths one label longer. */
    ghost predicate Shape()
      reads this`at, at.Values
    {
      && [] in at && at[[]] == root
      && (forall p, q :: p in at && q in at && p != q ==> at[p] != at[q])
      && (forall p, l :: p in at && l in at[p].children ==> Child(p, l) in at && at[Child(p, l)] == at[p].children[l])
      && (forall p, l :: Child(p, l) in at ==> p in at && l in at[p].children)
    }

    ghost function Values(): map<Path, nat>
      reads this`at, at.Values
    {
      map p | p in at :: at[p].value as nat
    }

    ghost predicate Valid()
      reads this, at.Values
    {
      Shape() && Accounts(Values(), samples, nodeCount, truncated)
    }

    constructor ()
      ensures Valid() && fresh(at.Values) && samples == []
    {
      root := new FlameNode();
      nodeCount, truncated := 0, false;
      samples := [];
      new;
      at := map[[] := root];
      EmptyAccounts(Values());
    }

    lemma ChildrenAre(p: Path, l: string)
      requires Shape() && p in at
      ensures l in at[p].children <==> Child(p, l) in at
      ensures l in at[p].children ==> at[Child(p, l)] == at[p].children[l]
      ensures Values().Keys == at.Keys
      ensures Child(p, l) in at ==> Values()[Child(p, l)] == at[Child(p, l)].value
    {
    }

    lemma RootIs()
      requires Shape()
      ensures [] in at && at[[]] == root
    {
    }

    /** `node.value = node.value.saturating_add(value)` for the node at a path. */
    method Visit(ghost p: Path, node: FlameNode, value: u64)
      requires Shape() && p in at && at[p] == node
      modifies node`value
      ensures Shape() && Values() == old(Values())[p := SatU64(old(node.value) + value)]
    {
      node.value := SatU64(node.value + value);
    }

    /** A new child, valued zero, below the node at a path. */
    method AddChild(ghost p: Path, node: FlameNode, label_: string) returns (child: FlameNode)
      requires Shape() && p in at && at[p] == node && label_ !in node.children
      modifies this`at, node`children
      ensures Shape() && fresh(child) && child.value == 0 && at == old(at)[Child(p, label_) := child]
      ensures Child(p, label_) !in old(at)
      ensures Values() == old(Values())[Child(p, label_) := 0]
    {
      child := new FlameNode();
      node.children := node.children[label_ := child];
      at := at[Child(p, label_) := child];
      forall q, l | Child(q, l) in at
        ensures q in at && l in at[q].children
      {
        if Child(q, l) == Child(p, label_) {
          ChildInjective(q, l, p, label_);
        }
      }
    }

    /** One label of the walk: down to the child of that label, made if there is room. */
    method Descend(frames: seq<string>, i: nat, node: FlameNode, value: u64) returns (next: FlameNode, stopped: bool)
      requires Shape() && i < |frames| && frames[..i] in at && at[frames[..i]] == node
      requires Walking(Values(), samples, Stack(frames, value), i, nodeCount, truncated)
      modifies this`at, this`nodeCount, at.Values
      ensures Shape() && fresh(at.Values - old(at.Values))
      ensures stopped ==> at == old(at) && Values() == old(Values()) && nodeCount == old(nodeCount) == MAX_SVG_NODES
      ensures stopped ==> next == node && frames[..i + 1] !in at
      ensures !stopped ==> frames[..i + 1] in at && at[frames[..i + 1]] == next
                           && Walking(Values(), samples, Stack(frames, value), i + 1, nodeCount, truncated)
    {
      hide Shape, Values, Accounts, Walking, SampledIn, PrefixSum, Misses, Child;
      ghost var s := Stack(frames, value);
      PrefixStep(frames, i, []);
      ChildrenAre(frames[..i], frames[i]);
      ghost var q := frames[..i + 1];
      ghost var tree := Values();
      next, stopped := node, false;
      if frames[i] in node.children {
        WalkOn(Values(), samples, s, i, nodeCount, truncated);
        next := node.children[frames[i]];
        Visit(q, next, value);
        assert Values() == tree[q := SatU64(tree[q] + value)];
      } else {
        assert frames[..i + 1] !in at;
        if nodeCount >= MAX_SVG_NODES {
          WalkBound(Values(), samples, s, i, nodeCount, truncated);
          stopped := true;
          return;
        }
        WalkNew(Values(), samples, s, i, nodeCount, truncated);
        next := AddChild(frames[..i], node, frames[i]);
        nodeCount := nodeCount + 1;
        Visit(q, next, value);
        assert Values() == tree[q := SatU64(value)];
      }
    }

    /** `insert_sample`. */
    method InsertSample(frames: seq<string>, value: u64)
      requires Valid()
      modifies this, at.Values
      ensures Valid() && fresh(at.Values - old(at.Values))
      ensures samples == old(samples) + [Stack(frames, value)]
    {
      hide Shape, Accounts, Walking, SampledIn, PrefixSum, Misses, Child;
      ghost var s := Stack(frames, value);
      RootIs();
      WalkStart(Values(), samples, s, nodeCount, truncated);
      var node := root;
      Visit([], node, value);
      var i := 0;
      var stopped := false;
      while i < |frames| && !stopped
        invariant 0 <= i <= |frames|
        invariant Shape() && fresh(at.Values - old(at.Values)) && samples == old(samples) && truncated == old(truncated)
        invariant frames[..i] in at && at[frames[..i]] == node
        invariant Walking(Values(), samples, s, i, nodeCount, truncated)
        invariant stopped ==> i < |frames| && frames[..i + 1] !in at && nodeCount == MAX_SVG_NODES
        decreases |frames| - i, !stopped
      {
        node, stopped := Descend(frames, i, node, value);
        if !stopped {
          i := i + 1;
        }
      }
      ghost var tree := Values();
      WalkEnd(tree, samples, s, i, nodeCount, truncated, stopped);
      if stopped {
        truncated := true;
      }
      samples := samples + [s];
      assert Values() == tree;
    }
  }
}
