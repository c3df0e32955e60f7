/** F-trees, and the transformation that brings the nodes a join needs onto one
    root-to-leaf path. */
module FTrees {
  import opened Bags

  /** A node of an input tree is named by the child positions that lead to it. */
  type Path = seq<nat>

  /** A node holds a set of attributes; `sources` names the input nodes whose records it
      combines. Children depend on their parent and are independent of each other. */
  datatype FNode = FNode(attrs: set<Attr>, sources: seq<Path>, children: seq<FNode>)

  datatype PathStrategy = NAIVE | LEVELWISE

  function Parent(p: Path): Path
    requires p != []
  {
    p[..|p| - 1]
  }

  function Last(p: Path): nat
    requires p != []
  {
    p[|p| - 1]
  }

  function NodeCount(n: FNode): nat
    decreases n
  {
    1 + NodeCountAll(n.children)
  }

  function NodeCountAll(ns: seq<FNode>): nat
    decreases ns
  {
    if ns == [] then 0 else NodeCount(ns[0]) + NodeCountAll(ns[1..])
  }

  lemma NodeCountAppend(a: seq<FNode>, b: seq<FNode>)
    ensures NodeCountAll(a + b) == NodeCountAll(a) + NodeCountAll(b)
  {
    if a == [] {
      assert a + b == b;
    } else {
      assert (a + b)[1..] == a[1..] + b;
      NodeCountAppend(a[1..], b);
    }
  }

  /** A scan is one node holding every attribute. */
  function Scan(attrs: set<Attr>): FNode {
    FNode(attrs, [], [])
  }

  //
  // Required nodes
  //

  predicate HoldsKey(n: FNode, keys: seq<Attr>) {
    exists k :: k in keys && k in n.attrs
  }

  /** The nodes on a path from the root to a key. */
  predicate Required(n: FNode, keys: seq<Attr>)
    decreases n
  {
    HoldsKey(n, keys) || exists i :: 0 <= i < |n.children| && Required(n.children[i], keys)
  }

  function Chosen(ns: seq<FNode>, keys: seq<Attr>): seq<FNode> {
    if ns == [] then []
    else if Required(ns[0], keys) then [ns[0]] + Chosen(ns[1..], keys)
    else Chosen(ns[1..], keys)
  }

  function Kept(ns: seq<FNode>, keys: seq<Attr>): seq<FNode> {
    if ns == [] then []
    else if Required(ns[0], keys) then Kept(ns[1..], keys)
    else [ns[0]] + Kept(ns[1..], keys)
  }

  lemma ChosenKeptCount(ns: seq<FNode>, keys: seq<Attr>)
    ensures NodeCountAll(Chosen(ns, keys)) + NodeCountAll(Kept(ns, keys)) == NodeCountAll(ns)
  {
    if ns != [] {
      ChosenKeptCount(ns[1..], keys);
      NodeCountAppend([ns[0]], Chosen(ns[1..], keys));
      NodeCountAppend([ns[0]], Kept(ns[1..], keys));
    }
  }

  //
  // Merging siblings
  //

  function AttrsOf(ns: seq<FNode>): set<Attr> {
    if ns == [] then {} else ns[0].attrs + AttrsOf(ns[1..])
  }

  function SourcesOf(ns: seq<FNode>): seq<Path> {
    if ns == [] then [] else ns[0].sources + SourcesOf(ns[1..])
  }

  function ChildrenOf(ns: seq<FNode>): seq<FNode> {
    if ns == [] then [] else ns[0].children + ChildrenOf(ns[1..])
  }

  /** Several siblings as one node: their attributes, their sources, all their children. */
  function Merged(ns: seq<FNode>): FNode {
    FNode(AttrsOf(ns), SourcesOf(ns), ChildrenOf(ns))
  }

  lemma MergedCount(ns: seq<FNode>)
    ensures NodeCountAll(ChildrenOf(ns)) + |ns| == NodeCountAll(ns)
  {
    if ns != [] {
      MergedCount(ns[1..]);
      NodeCountAppend(ns[0].children, ChildrenOf(ns[1..]));
    }
  }

  lemma MergeShrinks(n: FNode, keys: seq<Attr>)
    requires Chosen(n.children, keys) != []
    ensures NodeCount(Merged(Chosen(n.children, keys))) < NodeCount(n)
  {
    ChosenKeptCount(n.children, keys);
    MergedCount(Chosen(n.children, keys));
  }

  /** Merges the required children of `n` into one node, then theirs, and so on down. */
  function MergeLevelwise(n: FNode, keys: seq<Attr>): FNode
    decreases NodeCount(n)
  {
    var chosen := Chosen(n.children, keys);
    if chosen == [] then n
    else
      MergeShrinks(n, keys);
      n.(children := Kept(n.children, keys) + [MergeLevelwise(Merged(chosen), keys)])
  }

  /** Where `MergeLevelwise` ends: the deepest merged node. */
  function MergeEnd(n: FNode, keys: seq<Attr>): Path
    decreases NodeCount(n)
  {
    var chosen := Chosen(n.children, keys);
    if chosen == [] then []
    else
      MergeShrinks(n, keys);
      [|Kept(n.children, keys)|] + MergeEnd(Merged(chosen), keys)
  }

  //
  // The naive strategy: every required node collapses into the root
  //

  function AbsorbedAttrs(ns: seq<FNode>, keys: seq<Attr>): set<Attr>
    decreases ns
  {
    if ns == [] then {}
    else (if Required(ns[0], keys) then ns[0].attrs + AbsorbedAttrs(ns[0].children, keys) else {})
         + AbsorbedAttrs(ns[1..], keys)
  }

  function AbsorbedSources(ns: seq<FNode>, keys: seq<Attr>): seq<Path>
    decreases ns
  {
    if ns == [] then []
    else (if Required(ns[0], keys) then ns[0].sources + AbsorbedSources(ns[0].children, keys) else [])
         + AbsorbedSources(ns[1..], keys)
  }

  function Residue(ns: seq<FNode>, keys: seq<Attr>): seq<FNode>
    decreases ns
  {
    if ns == [] then []
    else (if Required(ns[0], keys) then Residue(ns[0].children, keys) else [ns[0]]) + Residue(ns[1..], keys)
  }

  function MergeNaive(n: FNode, keys: seq<Attr>): FNode {
    FNode(n.attrs + AbsorbedAttrs(n.children, keys), n.sources + AbsorbedSources(n.children, keys),
          Residue(n.children, keys))
  }

  //
  // Root-to-leaf paths
  //

  /** The position of the first required child. */
  function FirstRequired(ns: seq<FNode>, keys: seq<Attr>): (i: nat)
    requires Chosen(ns, keys) != []
    ensures i < |ns| && Required(ns[i], keys)
  {
    if Required(ns[0], keys) then 0 else 1 + FirstRequired(ns[1..], keys)
  }

  /** Walks down while exactly one child is required, merges from there on, and answers
      the new tree with the path of its deepest required node. */
  function Levelwise(n: FNode, keys: seq<Attr>): (FNode, Path)
    decreases n
  {
    if |Chosen(n.children, keys)| == 1 then
      var i := FirstRequired(n.children, keys);
      var (child, below) := Levelwise(n.children[i], keys);
      (n.(children := n.children[i := child]), [i] + below)
    else
      (MergeLevelwise(n, keys), MergeEnd(n, keys))
  }

  function CreateRootToLeafPath(t: FNode, keys: seq<Attr>, strategy: PathStrategy): (FNode, Path) {
    if !Required(t, keys) then (t, [])
    else match strategy
      case NAIVE => (MergeNaive(t, keys), [])
      case LEVELWISE => Levelwise(t, keys)
  }
}
