/** Bringing the nodes a join needs onto one root-to-leaf path, in place: whole subtrees move
    between parents, and nodes found by their identity are merged. */
module TreeSurgery {
  import opened Bags
  import opened FTrees

  /** A node that owns its children. */
  class TreeNode {
    var attrs: set<Attr>
    var sources: seq<Path>
    var children: seq<TreeNode>
    /** This node and everything below it. */
    ghost var repr: set<TreeNode>

    constructor (attrs: set<Attr>, sources: seq<Path>, children: seq<TreeNode>)
      requires Owned(children)
      ensures this.attrs == attrs && this.sources == sources && this.children == children
      ensures Valid() && Value() == FNode(attrs, sources, Values(children))
      ensures fresh(this) && repr == {this} + Footprint(children)
    {
      this.attrs, this.sources, this.children, this.repr := attrs, sources, children, {this} + Footprint(children);
    }

    ghost predicate Valid()
      reads this, repr
      decreases repr
    {
      && this in repr
      && (forall i :: 0 <= i < |children| ==> Below(children[i]) && children[i].Valid())
      && forall i, j :: 0 <= i < j < |children| ==> children[i].repr !! children[j].repr
    }

    ghost predicate Below(child: TreeNode)
      reads this, repr
    {
      child in repr && child.repr <= repr && this !in child.repr
    }

    /** The tree as a value. */
    ghost function Value(): (v: FNode)
      requires Valid()
      reads this, repr
      ensures v.attrs == attrs && v.sources == sources && |v.children| == |children|
      ensures forall i :: 0 <= i < |children| ==> Below(children[i]) && v.children[i] == children[i].Value()
      decreases repr
    {
      FNode(attrs, sources, seq(|children|, i requires 0 <= i < |children| && Valid() reads this, repr =>
        assert Below(children[i]); children[i].Value()))
    }

    /** Following `p` from this node ends at `n`. */
    ghost predicate IsAt(p: Path, n: TreeNode)
      requires Valid()
      reads this, repr
      decreases |p|
    {
      if p == [] then n == this
      else p[0] < |children| && assert Below(children[p[0]]); children[p[0]].IsAt(p[1..], n)
    }

    /** The marks below this node are exactly on the required nodes. */
    ghost predicate MarkedBelow(required: set<TreeNode>, keys: seq<Attr>)
      requires Valid()
      reads this, repr
      decreases repr, 0
    {
      forall i :: 0 <= i < |children| ==> assert Below(children[i]); children[i].Marked(required, keys)
    }

    ghost predicate Marked(required: set<TreeNode>, keys: seq<Attr>)
      requires Valid()
      reads this, repr
      decreases repr, 1
    {
      (this in required <==> Required(Value(), keys)) && MarkedBelow(required, keys)
    }

    /** Marks every required node of this tree. */
    method MarkRequired(keys: seq<Attr>, required: set<TreeNode>) returns (any: bool, marked: set<TreeNode>)
      requires Valid() && required !! repr
      ensures any <==> Required(Value(), keys)
      ensures required <= marked <= required + repr && Marked(marked, keys)
      decreases repr, 1
    {
      any, marked := MarkChildren(keys, required);
      if !any { any := Holds(keys); }
      if any {
        MarkSelf(this, marked, keys);
        marked := marked + {this};
      }
    }

    method MarkChildren(keys: seq<Attr>, required: set<TreeNode>) returns (any: bool, marked: set<TreeNode>)
      requires Valid() && required !! repr
      ensures any <==> SomeRequired(Value().children, |children|, keys)
      ensures required <= marked <= required + repr && this !in marked && MarkedBelow(marked, keys)
      decreases repr, 0
    {
      any, marked := false, required;
      ghost var vs := Value().children;
      for i := 0 to |children|
        invariant required <= marked <= required + repr && this !in marked
        invariant forall j :: i <= j < |children| ==> children[j].repr !! marked
        invariant any <==> SomeRequired(vs, i, keys)
        invariant forall j :: 0 <= j < i ==> children[j].Marked(marked, keys)
      {
        hide *;
        AtChild(this, i);
        var one, more := children[i].MarkRequired(keys, marked);
        StillMarked(this, i, marked, more, keys);
        OneMoreRequired(vs, i, keys);
        any, marked := any || one, more;
      }
    }

    method Holds(keys: seq<Attr>) returns (any: bool)
      ensures any <==> exists k :: k in keys && k in attrs
    {
      any := false;
      for k := 0 to |keys|
        invariant !any && forall j :: 0 <= j < k ==> keys[j] !in attrs
      {
        if keys[k] in attrs { return true; }
      }
    }

    /** What the required children hold, put together, and the other children. */
    method Gather(required: set<TreeNode>, ghost keys: seq<Attr>)
      returns (held: set<Attr>, drawn: seq<Path>, grand: seq<TreeNode>, kept: seq<TreeNode>)
      requires Valid() && MarkedBelow(required, keys)
      ensures var chosen := Chosen(Value().children, keys);
        held == AttrsOf(chosen) && drawn == SourcesOf(chosen) && Owned(grand) && Values(grand) == ChildrenOf(chosen)
      ensures Owned(kept) && Values(kept) == Kept(Value().children, keys)
      ensures Footprint(kept) !! Footprint(grand) && Footprint(kept) + Footprint(grand) <= repr - {this}
      ensures forall n :: n in grand ==> n.Valid() && n.Marked(required, keys)
    {
      hide *;
      ghost var vs := Value().children;
      held, drawn, grand, kept := {}, [], [], [];
      NothingGathered(this, required, keys);
      for i := 0 to |children|
        invariant Gathered(this, i, held, drawn, grand, kept, required, keys)
      {
        AtMarkedChild(this, i, required, keys);
        GatherStep(this, i, held, drawn, grand, kept, required, keys);
        if children[i] in required {
          held, drawn, grand := held + children[i].attrs, drawn + children[i].sources, grand + children[i].children;
        } else {
          kept := kept + [children[i]];
        }
      }
      AllGathered(this, held, drawn, grand, kept, required, keys);
    }

    /** Merges the required children into one node, then theirs, and so on down. The answer is
        the deepest merged node. */
    method MergeLevelwise(required: set<TreeNode>, ghost keys: seq<Attr>) returns (end: TreeNode)
      requires Valid() && MarkedBelow(required, keys)
      modifies repr
      ensures Valid() && fresh(repr - old(repr)) && Value() == FTrees.MergeLevelwise(old(Value()), keys)
      ensures IsAt(MergeEnd(old(Value()), keys), end)
      decreases NodeCount(Value()), 0
    {
      hide Valid, Value, MarkedBelow, Marked, Owned, Values, Footprint, Below, AttrsOf, SourcesOf, ChildrenOf;
      SelfIn(this);
      var any := AnyMarked(required, keys);
      if !any { return this; }
      ghost var before := Value();
      var held, drawn, grand, kept := Gather(required, keys);
      MergeShrinks(before, keys);
      end := Rebuild(held, drawn, grand, kept, required, keys);
    }

    /** Gives the node its new children and merges on from the last of them. */
    method Rebuild(held: set<Attr>, drawn: seq<Path>, grand: seq<TreeNode>, kept: seq<TreeNode>,
                   required: set<TreeNode>, ghost keys: seq<Attr>) returns (end: TreeNode)
      requires Owned(grand) && Owned(kept) && Footprint(kept) !! Footprint(grand) && this !in Footprint(kept) + Footprint(grand)
      requires forall n :: n in grand ==> n.Valid() && n.Marked(required, keys)
      modifies `children, `repr, Footprint(grand)
      ensures attrs == old(attrs) && sources == old(sources) && Valid()
      ensures forall m :: m in repr ==> m == this || m in old(Footprint(kept)) || m in old(Footprint(grand)) || fresh(m)
      ensures var merged := FNode(held, drawn, old(Values(grand)));
        && Value() == FNode(attrs, sources, old(Values(kept)) + [FTrees.MergeLevelwise(merged, keys)])
        && IsAt([|kept|] + MergeEnd(merged, keys), end)
      decreases NodeCount(FNode(held, drawn, Values(grand))), 2
    {
      hide *;
      Covers(kept);
      var merged := Attach(held, drawn, grand, kept, required, keys);
      end := Continue(kept, merged, required, keys);
    }

    /** Gives the node its new children. */
    method Attach(held: set<Attr>, drawn: seq<Path>, grand: seq<TreeNode>, kept: seq<TreeNode>,
                  ghost required: set<TreeNode>, ghost keys: seq<Attr>) returns (merged: TreeNode)
      requires Owned(grand) && Owned(kept) && Footprint(kept) !! Footprint(grand) && this !in Footprint(kept) + Footprint(grand)
      requires forall n :: n in grand ==> n.Valid() && n.Marked(required, keys)
      modifies `children
      ensures fresh(merged) && merged.Valid() && merged.Value() == FNode(held, drawn, old(Values(grand)))
      ensures merged.MarkedBelow(required, keys) && merged.repr == {merged} + old(Footprint(grand))
      ensures Owned(kept) && Values(kept) == old(Values(kept)) && Footprint(kept) == old(Footprint(kept))
      ensures children == kept + [merged]
    {
      hide *;
      Covers(kept);
      Covers(grand);
      merged := new TreeNode(held, drawn, grand);
      MarkedFrom(merged, required, keys);
      children := kept + [merged];
    }

    /** Merges on from the last child. */
    method Continue(ghost kept: seq<TreeNode>, merged: TreeNode, required: set<TreeNode>, ghost keys: seq<Attr>) returns (end: TreeNode)
      requires Owned(kept) && merged.Valid() && Footprint(kept) !! merged.repr && this !in Footprint(kept) + merged.repr
      requires children == kept + [merged] && merged.MarkedBelow(required, keys)
      modifies merged.repr, `repr
      ensures attrs == old(attrs) && sources == old(sources) && Valid() && repr == {this} + old(Footprint(kept)) + merged.repr
      ensures fresh(merged.repr - old(merged.repr))
      ensures Value() == FNode(attrs, sources, old(Values(kept)) + [FTrees.MergeLevelwise(old(merged.Value()), keys)])
      ensures IsAt([|kept|] + MergeEnd(old(merged.Value()), keys), end)
      decreases NodeCount(merged.Value()), 1
    {
      hide Valid, Value, MarkedBelow, Marked, Owned, Values, Footprint, Below, FTrees.MergeLevelwise, MergeEnd;
      Covers(kept);
      end := merged.MergeLevelwise(required, keys);
      assert forall m :: m in merged.repr - old(merged.repr) ==> fresh(m);
      assert Footprint(kept) !! merged.repr && this !in merged.repr;
      SelfIn(merged);
      repr := {this} + Footprint(kept) + merged.repr;
      Attached(this, kept, merged);
    }

    method AnyMarked(required: set<TreeNode>, ghost keys: seq<Attr>) returns (any: bool)
      requires Valid() && MarkedBelow(required, keys)
      ensures any <==> Chosen(Value().children, keys) != []
    {
      ghost var vs := Value().children;
      for i := 0 to |children|
        invariant Chosen(vs[..i], keys) == []
      {
        assert Below(children[i]) && children[i].Marked(required, keys);
        ChosenSnoc(vs, i, keys);
        if children[i] in required {
          ChosenPrefix(vs, i + 1, keys);
          return true;
        }
      }
      assert vs[..|children|] == vs;
      return false;
    }

    /** Walks down while exactly one child is required and merges from there on. */
    method Descend(required: set<TreeNode>, ghost keys: seq<Attr>) returns (end: TreeNode)
      requires Valid() && MarkedBelow(required, keys)
      modifies repr
      ensures Valid() && fresh(repr - old(repr)) && Value() == Levelwise(old(Value()), keys).0
      ensures IsAt(Levelwise(old(Value()), keys).1, end)
      decreases repr, 2
    {
      hide Valid, Value, MarkedBelow, Marked, Owned, Values, Footprint, Below, Chosen;
      SelfIn(this);
      ghost var before := Value();
      var count, at := CountMarked(required, keys);
      if count != 1 {
        end := MergeLevelwise(required, keys);
      } else {
        end := DescendInto(at, required, keys);
      }
    }

    method DescendInto(at: nat, required: set<TreeNode>, ghost keys: seq<Attr>) returns (end: TreeNode)
      requires Valid() && MarkedBelow(required, keys) && at < |children|
      modifies repr
      ensures Valid() && fresh(repr - old(repr)) && attrs == old(attrs) && sources == old(sources)
      ensures var v := old(Value());
        Value() == v.(children := v.children[at := Levelwise(v.children[at], keys).0])
        && IsAt([at] + Levelwise(v.children[at], keys).1, end)
      decreases repr, 1
    {
      hide *;
      ghost var v := Value();
      end := DescendBelow(at, required, keys);
      Rejoined(this, at);
      Replaced(v, at, children[at].Value());
      StepAt(this, at, Levelwise(v.children[at], keys).1, end);
    }

    /** Changes one child, leaving the others as they are. */
    method DescendBelow(at: nat, required: set<TreeNode>, ghost keys: seq<Attr>) returns (end: TreeNode)
      requires Valid() && MarkedBelow(required, keys) && at < |children|
      modifies repr
      ensures children == old(children) && attrs == old(attrs) && sources == old(sources)
      ensures this in repr && fresh(repr - old(repr)) && children[at].Valid() && children[at].repr <= repr - {this} && Apart(this, at)
      ensures children[at].Value() == Levelwise(old(Value()).children[at], keys).0
      ensures children[at].IsAt(Levelwise(old(Value()).children[at], keys).1, end)
      ensures Values(children[..at]) == old(Value()).children[..at] && Values(children[at + 1..]) == old(Value()).children[at + 1..]
      decreases repr, 0
    {
      hide *;
      ghost var pre, post := children[..at], children[at + 1..];
      AtChild(this, at);
      AtMarkedChild(this, at, required, keys);
      Others(this, at);
      Covers(pre);
      Covers(post);
      SelfIn(this);
      SelfIn(children[at]);
      end := children[at].Descend(required, keys);
      assert forall m :: m in children[at].repr - old(children[at].repr) ==> fresh(m);
      SelfIn(children[at]);
      repr := repr + children[at].repr;
      ApartIs(this, at);
    }

    /** How many children are marked, and the last that is. */
    method CountMarked(required: set<TreeNode>, ghost keys: seq<Attr>) returns (count: nat, last: nat)
      requires Valid() && MarkedBelow(required, keys)
      ensures count == |Chosen(Value().children, keys)|
      ensures count == 1 ==> last < |children| && last == FirstRequired(Value().children, keys)
    {
      ghost var vs := Value().children;
      count, last := 0, 0;
      for i := 0 to |children|
        invariant count == |Chosen(vs[..i], keys)|
        invariant count == 1 ==> last < i && last == FirstRequired(vs[..i], keys)
      {
        hide *;
        AtChild(this, i);
        AtMarkedChild(this, i, required, keys);
        ChosenSnoc(vs, i, keys);
        FirstSnoc(vs, i, keys);
        if children[i] in required { count, last := count + 1, i; }
      }
      assert vs[..|children|] == vs;
    }

    /** Collapses every required node into this one; what hung below them hangs here. */
    method MergeNaive(required: set<TreeNode>, ghost keys: seq<Attr>)
      requires Valid() && MarkedBelow(required, keys)
      modifies repr
      ensures Valid() && repr == old(repr) && Value() == FTrees.MergeNaive(old(Value()), keys)
    {
      hide Valid, Value, MarkedBelow, Marked, Owned, Values, Footprint, Below, AbsorbedAttrs, AbsorbedSources, Residue;
      SelfIn(this);
      ChildrenOwned(this);
      ChildrenMarked(this, required, keys);
      var kept := Absorb(children, this, required, keys);
      Covers(kept);
      children := kept;
      Rehung(this);
    }

    /** Brings the nodes that hold the keys, and all above them, onto one path from here, and
        answers where it ends. */
    method CreateRootToLeafPath(keys: seq<Attr>, strategy: PathStrategy) returns (end: TreeNode)
      requires Valid()
      modifies repr
      ensures Valid() && fresh(repr - old(repr))
      ensures Value() == FTrees.CreateRootToLeafPath(old(Value()), keys, strategy).0
      ensures IsAt(FTrees.CreateRootToLeafPath(old(Value()), keys, strategy).1, end)
    {
      hide Valid, Value, MarkedBelow, Below, Levelwise, FTrees.MergeNaive;
      SelfIn(this);
      var any, required := MarkRequired(keys, {});
      if !any { return this; }
      match strategy {
        case NAIVE =>
          MergeNaive(required, keys);
          end := this;
        case LEVELWISE =>
          end := Descend(required, keys);
      }
    }
  }

  ghost function Footprint(ns: seq<TreeNode>): set<TreeNode>
    reads ns
  {
    set n, m | n in ns && m in n.repr :: m
  }

  /** The nodes are whole trees that share nothing. */
  ghost predicate Owned(ns: seq<TreeNode>)
    reads ns, Footprint(ns)
  {
    && (forall i :: 0 <= i < |ns| ==> ns[i].Valid())
    && forall i, j :: 0 <= i < j < |ns| ==> ns[i].repr !! ns[j].repr
  }

  ghost function Values(ns: seq<TreeNode>): (vs: seq<FNode>)
    requires Owned(ns)
    reads ns, Footprint(ns)
    ensures |vs| == |ns| && forall i :: 0 <= i < |ns| ==> vs[i] == ns[i].Value()
  {
    seq(|ns|, i requires 0 <= i < |ns| && Owned(ns) reads ns, Footprint(ns) => ns[i].Value())
  }

  lemma {:induction false} MarksAgree(n: TreeNode, a: set<TreeNode>, b: set<TreeNode>, keys: seq<Attr>)
    requires n.Valid() && forall m :: m in n.repr ==> (m in a <==> m in b)
    ensures n.Marked(a, keys) <==> n.Marked(b, keys)
    decreases n.repr
  {
    forall i | 0 <= i < |n.children| ensures n.children[i].Marked(a, keys) <==> n.children[i].Marked(b, keys) {
      assert n.Below(n.children[i]);
      MarksAgree(n.children[i], a, b, keys);
    }
  }

  /** Marking below one child leaves the marks below those before it, and the rest unmarked. */
  lemma StillMarked(n: TreeNode, i: nat, marked: set<TreeNode>, more: set<TreeNode>, keys: seq<Attr>)
    requires n.Valid() && i < |n.children| && marked <= more <= marked + n.children[i].repr
    requires forall j :: 0 <= j < i ==> n.children[j].Marked(marked, keys)
    requires forall j :: i <= j < |n.children| ==> n.children[j].repr !! marked
    ensures n.children[i].repr <= n.repr - {n}
    ensures forall j :: 0 <= j < i ==> n.children[j].Marked(more, keys)
    ensures forall j :: i < j < |n.children| ==> n.children[j].repr !! more
  {
    assert n.Below(n.children[i]);
    forall j | 0 <= j < i ensures n.children[j].Marked(more, keys) {
      assert n.children[j].repr !! n.children[i].repr;
      MarksAgree(n.children[j], marked, more, keys);
    }
    forall j | i < j < |n.children| ensures n.children[j].repr !! more { assert n.children[i].repr !! n.children[j].repr; }
  }

  predicate SomeRequired(vs: seq<FNode>, n: nat, keys: seq<Attr>)
    requires n <= |vs|
  {
    exists j :: 0 <= j < n && Required(vs[j], keys)
  }

  lemma OneMoreRequired(vs: seq<FNode>, i: nat, keys: seq<Attr>)
    requires i < |vs|
    ensures SomeRequired(vs, i + 1, keys) <==> SomeRequired(vs, i, keys) || Required(vs[i], keys)
  {}

  /** One child of a tree. */
  lemma AtChild(n: TreeNode, i: nat)
    requires n.Valid() && i < |n.children|
    ensures n.children[i].Valid() && n.Value().children[i] == n.children[i].Value()
    ensures n.children[i].repr <= n.repr - {n}
    ensures forall j :: i < j < |n.children| ==> n.children[i].repr !! n.children[j].repr
  {
    assert n.Below(n.children[i]);
  }

  lemma AtMarkedChild(n: TreeNode, i: nat, required: set<TreeNode>, keys: seq<Attr>)
    requires n.Valid() && i < |n.children| && n.MarkedBelow(required, keys)
    ensures n.children[i].Valid() && (n.children[i] in required <==> Required(n.children[i].Value(), keys))
    ensures n.children[i].Marked(required, keys) && n.children[i].MarkedBelow(required, keys)
  {
    assert n.Below(n.children[i]);
  }

  /** A mark on the node itself leaves the marks below it. */
  lemma MarkSelf(n: TreeNode, marked: set<TreeNode>, keys: seq<Attr>)
    requires n.Valid()
    ensures n.MarkedBelow(marked, keys) <==> n.MarkedBelow(marked + {n}, keys)
  {
    forall i | 0 <= i < |n.children| ensures n.children[i].Marked(marked, keys) <==> n.children[i].Marked(marked + {n}, keys) {
      assert n.Below(n.children[i]);
      MarksAgree(n.children[i], marked, marked + {n}, keys);
    }
  }

  /** Takes the required nodes among `ns` and below them into `top`; the answer is what hung
      below them. */
  method Absorb(ns: seq<TreeNode>, top: TreeNode, required: set<TreeNode>, ghost keys: seq<Attr>) returns (kept: seq<TreeNode>)
    requires Owned(ns) && top !in Footprint(ns) && forall n :: n in ns ==> n.Valid() && n.Marked(required, keys)
    modifies top`attrs, top`sources
    ensures top.attrs == old(top.attrs) + AbsorbedAttrs(Values(ns), keys)
    ensures top.sources == old(top.sources) + AbsorbedSources(Values(ns), keys)
    ensures Owned(ns) && Values(ns) == old(Values(ns)) && Footprint(ns) == old(Footprint(ns))
    ensures Owned(kept) && Footprint(kept) <= Footprint(ns) && Values(kept) == Residue(Values(ns), keys)
    decreases Footprint(ns), 2
  {
    hide *;
    kept := [];
    Covers(ns);
    ghost var vs := Values(ns);
    NothingAbsorbed(vs, keys);
    assert Owned([]) && Values([]) == [] && Footprint([]) == {} by { NothingOwned(); }
    for i := 0 to |ns|
      invariant Owned(ns) && Values(ns) == vs && Footprint(ns) == old(Footprint(ns))
      invariant forall n :: n in ns ==> n.Valid() && n.Marked(required, keys)
      invariant top.attrs == old(top.attrs) + AbsorbedAttrs(vs[..i], keys)
      invariant top.sources == old(top.sources) + AbsorbedSources(vs[..i], keys)
      invariant Owned(kept) && Footprint(kept) <= Footprint(ns) && Values(kept) == Residue(vs[..i], keys)
      invariant forall j :: i <= j < |ns| ==> ns[j].repr !! Footprint(kept)
    {
      AmongOwned(ns, i);
      Covers(ns);
      AbsorbedSnoc(vs, i, keys);
      kept := AbsorbNext(ns[i], kept, top, required, keys);
    }
    assert vs[..|ns|] == vs;
  }

  /** Absorbs one node or keeps it. */
  method AbsorbNext(child: TreeNode, kept: seq<TreeNode>, top: TreeNode, required: set<TreeNode>, ghost keys: seq<Attr>)
    returns (more: seq<TreeNode>)
    requires child.Valid() && child.Marked(required, keys) && Owned(kept) && Footprint(kept) !! child.repr
    requires top !in Footprint(kept) + child.repr
    modifies top`attrs, top`sources
    ensures var v := old(child.Value());
      if Required(v, keys) then
        && top.attrs == old(top.attrs) + v.attrs + AbsorbedAttrs(v.children, keys)
        && top.sources == old(top.sources) + v.sources + AbsorbedSources(v.children, keys)
      else top.attrs == old(top.attrs) && top.sources == old(top.sources)
    ensures Owned(more) && Footprint(more) <= old(Footprint(kept)) + old(child.repr)
    ensures var v := old(child.Value());
      Values(more) == old(Values(kept)) + (if Required(v, keys) then Residue(v.children, keys) else [v])
    decreases child.repr, 1
  {
    hide *;
    MarkedIs(child, required, keys);
    if child in required {
      Covers(kept);
      var below := AbsorbChild(child, top, required, keys);
      OwnedAppend(kept, below);
      more := kept + below;
    } else {
      OneOwned(child);
      OwnedAppend(kept, [child]);
      more := kept + [child];
    }
  }

  /** Takes one required node into `top`, and all required ones below it. */
  method AbsorbChild(child: TreeNode, top: TreeNode, required: set<TreeNode>, ghost keys: seq<Attr>) returns (kept: seq<TreeNode>)
    requires child.Valid() && child.Marked(required, keys) && top !in child.repr
    modifies top`attrs, top`sources
    ensures top.attrs == old(top.attrs) + child.Value().attrs + AbsorbedAttrs(child.Value().children, keys)
    ensures top.sources == old(top.sources) + child.Value().sources + AbsorbedSources(child.Value().children, keys)
    ensures child.Valid() && child.Value() == old(child.Value())
    ensures Owned(kept) && Footprint(kept) <= child.repr && Values(kept) == Residue(child.Value().children, keys)
    decreases child.repr, 0
  {
    hide *;
    ghost var v := child.Value();
    MarkedIs(child, required, keys);
    ChildrenOwned(child);
    ChildrenMarked(child, required, keys);
    SelfIn(child);
    Covers(child.children);
    ghost var room := Footprint(child.children);
    top.attrs, top.sources := top.attrs + child.attrs, top.sources + child.sources;
    assert Footprint(child.children) == room;
    assert child in child.repr - room;
    kept := Absorb(child.children, top, required, keys);
  }

  lemma NothingOwned()
    ensures Owned([]) && Values([]) == [] && Footprint([]) == {}
  {}

  lemma NothingAbsorbed(vs: seq<FNode>, keys: seq<Attr>)
    ensures AbsorbedAttrs(vs[..0], keys) == {} && AbsorbedSources(vs[..0], keys) == [] && Residue(vs[..0], keys) == []
  {}

  lemma AmongOwned(ns: seq<TreeNode>, i: nat)
    requires Owned(ns) && i < |ns|
    ensures ns[i].Valid() && ns[i].repr <= Footprint(ns) && Values(ns)[i] == ns[i].Value() && ns[i] in ns
    ensures forall j :: i < j < |ns| ==> ns[i].repr !! ns[j].repr
  {}

  lemma MarkedIs(n: TreeNode, required: set<TreeNode>, keys: seq<Attr>)
    requires n.Valid() && n.Marked(required, keys)
    ensures (n in required <==> Required(n.Value(), keys)) && n.MarkedBelow(required, keys)
    ensures n.Value().attrs == n.attrs && n.Value().sources == n.sources
  {}

  lemma ChildrenMarked(n: TreeNode, required: set<TreeNode>, keys: seq<Attr>)
    requires n.Valid() && n.MarkedBelow(required, keys)
    ensures forall c :: c in n.children ==> c.Valid() && c.Marked(required, keys)
  {
    forall c | c in n.children ensures c.Valid() && c.Marked(required, keys) { assert n.Below(c); }
  }

  /** The definitions of what is absorbed and what is left, one node at a time. */
  lemma AbsorbedStep(vs: seq<FNode>, keys: seq<Attr>)
    requires vs != []
    ensures AbsorbedAttrs(vs, keys) == (if Required(vs[0], keys) then vs[0].attrs + AbsorbedAttrs(vs[0].children, keys) else {})
                                       + AbsorbedAttrs(vs[1..], keys)
    ensures AbsorbedSources(vs, keys) == (if Required(vs[0], keys) then vs[0].sources + AbsorbedSources(vs[0].children, keys) else [])
                                         + AbsorbedSources(vs[1..], keys)
    ensures Residue(vs, keys) == (if Required(vs[0], keys) then Residue(vs[0].children, keys) else [vs[0]]) + Residue(vs[1..], keys)
  {}

  lemma Reassociate<T>(a: seq<T>, b: seq<T>, c: seq<T>)
    ensures a + (b + c) == (a + b) + c
  {}

  lemma {:induction false} AbsorbedAppend(vs: seq<FNode>, v: FNode, keys: seq<Attr>)
    ensures AbsorbedAttrs(vs + [v], keys) == AbsorbedAttrs(vs, keys) + AbsorbedAttrs([v], keys)
    ensures AbsorbedSources(vs + [v], keys) == AbsorbedSources(vs, keys) + AbsorbedSources([v], keys)
    ensures Residue(vs + [v], keys) == Residue(vs, keys) + Residue([v], keys)
    decreases |vs|
  {
    if vs == [] {
      assert vs + [v] == [v];
    } else {
      hide Required, AbsorbedAttrs, AbsorbedSources, Residue;
      assert (vs + [v])[0] == vs[0] && (vs + [v])[1..] == vs[1..] + [v];
      AbsorbedAppend(vs[1..], v, keys);
      AbsorbedStep(vs, keys);
      AbsorbedStep(vs + [v], keys);
      var drawn := if Required(vs[0], keys) then vs[0].sources + AbsorbedSources(vs[0].children, keys) else [];
      var hung := if Required(vs[0], keys) then Residue(vs[0].children, keys) else [vs[0]];
      Reassociate(drawn, AbsorbedSources(vs[1..], keys), AbsorbedSources([v], keys));
      Reassociate(hung, Residue(vs[1..], keys), Residue([v], keys));
    }
  }

  /** One more node, absorbed with what is required below it, or kept. */
  lemma AbsorbedSnoc(vs: seq<FNode>, i: nat, keys: seq<Attr>)
    requires i < |vs|
    ensures var v, now, then' := vs[i], vs[..i], vs[..i + 1];
      if Required(v, keys) then
        && AbsorbedAttrs(then', keys) == AbsorbedAttrs(now, keys) + v.attrs + AbsorbedAttrs(v.children, keys)
        && AbsorbedSources(then', keys) == AbsorbedSources(now, keys) + v.sources + AbsorbedSources(v.children, keys)
        && Residue(then', keys) == Residue(now, keys) + Residue(v.children, keys)
      else
        && AbsorbedAttrs(then', keys) == AbsorbedAttrs(now, keys) && AbsorbedSources(then', keys) == AbsorbedSources(now, keys)
        && Residue(then', keys) == Residue(now, keys) + [v]
  {
    assert vs[..i + 1] == vs[..i] + [vs[i]];
    AbsorbedAppend(vs[..i], vs[i], keys);
    assert [vs[i]][1..] == [];
  }

  /** What has been gathered from the first `i` children. */
  ghost predicate Gathered(n: TreeNode, i: nat, held: set<Attr>, drawn: seq<Path>, grand: seq<TreeNode>, kept: seq<TreeNode>,
                           required: set<TreeNode>, keys: seq<Attr>)
    requires n.Valid() && i <= |n.children|
    reads n, n.repr, grand, kept, Footprint(grand), Footprint(kept)
  {
    var vs := n.Value().children[..i];
    var chosen := Chosen(vs, keys);
    && held == AttrsOf(chosen) && drawn == SourcesOf(chosen)
    && Owned(grand) && Values(grand) == ChildrenOf(chosen) && Owned(kept) && Values(kept) == Kept(vs, keys)
    && Footprint(kept) !! Footprint(grand) && Footprint(kept) + Footprint(grand) <= n.repr - {n}
    && (forall j :: i <= j < |n.children| ==> n.children[j].repr !! Footprint(kept) + Footprint(grand))
    && forall g :: g in grand ==> g.Valid() && g.Marked(required, keys)
  }

  lemma NothingGathered(n: TreeNode, required: set<TreeNode>, keys: seq<Attr>)
    requires n.Valid()
    ensures Gathered(n, 0, {}, [], [], [], required, keys)
  {
    NothingOwned();
  }

  lemma AllGathered(n: TreeNode, held: set<Attr>, drawn: seq<Path>, grand: seq<TreeNode>, kept: seq<TreeNode>,
                    required: set<TreeNode>, keys: seq<Attr>)
    requires n.Valid() && Gathered(n, |n.children|, held, drawn, grand, kept, required, keys)
    ensures var chosen := Chosen(n.Value().children, keys);
      held == AttrsOf(chosen) && drawn == SourcesOf(chosen) && Owned(grand) && Values(grand) == ChildrenOf(chosen)
    ensures Owned(kept) && Values(kept) == Kept(n.Value().children, keys)
    ensures Footprint(kept) !! Footprint(grand) && Footprint(kept) + Footprint(grand) <= n.repr - {n}
    ensures forall g :: g in grand ==> g.Valid() && g.Marked(required, keys)
  {
    assert n.Value().children[..|n.children|] == n.Value().children;
  }

  lemma GatherStep(n: TreeNode, i: nat, held: set<Attr>, drawn: seq<Path>, grand: seq<TreeNode>, kept: seq<TreeNode>,
                   required: set<TreeNode>, keys: seq<Attr>)
    requires n.Valid() && i < |n.children| && n.MarkedBelow(required, keys)
    requires Gathered(n, i, held, drawn, grand, kept, required, keys)
    ensures var child := n.children[i];
      if child in required then
        Gathered(n, i + 1, held + child.attrs, drawn + child.sources, grand + child.children, kept, required, keys)
      else Gathered(n, i + 1, held, drawn, grand, kept + [child], required, keys)
  {
    var child, vs := n.children[i], n.Value().children;
    hide Owned, Values, Footprint, Chosen, AttrsOf, SourcesOf, ChildrenOf, Kept;
    AtChild(n, i);
    AtMarkedChild(n, i, required, keys);
    ChosenSnoc(vs, i, keys);
    if child in required {
      TakeChildren(child, grand, required, keys);
    } else {
      OneOwned(child);
      OwnedAppend(kept, [child]);
    }
  }

  /** A node that has been given other children. */
  lemma Rehung(n: TreeNode)
    requires Owned(n.children) && n in n.repr && Footprint(n.children) <= n.repr - {n}
    ensures n.Valid() && n.Value() == FNode(n.attrs, n.sources, Values(n.children))
  {
    forall i | 0 <= i < |n.children| ensures n.Below(n.children[i]) {
      assert n.children[i] in n.children && n.children[i].repr <= Footprint(n.children);
    }
  }

  /** The children beside one. */
  lemma Others(n: TreeNode, i: nat)
    requires n.Valid() && i < |n.children|
    ensures var pre, post := n.children[..i], n.children[i + 1..];
      && Owned(pre) && Owned(post) && Footprint(pre) !! Footprint(post)
      && Footprint(pre) + Footprint(post) <= n.repr - {n} - n.children[i].repr
      && Values(pre) == n.Value().children[..i] && Values(post) == n.Value().children[i + 1..]
  {
    var pre, post := n.children[..i], n.children[i + 1..];
    forall j | 0 <= j < |n.children| ensures n.Below(n.children[j]) {}
    forall c | c in pre ensures c.repr <= n.repr - {n} - n.children[i].repr {
      var j :| 0 <= j < |pre| && pre[j] == c;
      assert c == n.children[j];
    }
    forall c | c in post ensures c.repr <= n.repr - {n} - n.children[i].repr {
      var j :| 0 <= j < |post| && post[j] == c;
      assert c == n.children[i + 1 + j];
    }
    forall c, d | c in pre && d in post ensures c.repr !! d.repr {
      var j :| 0 <= j < |pre| && pre[j] == c;
      var k :| 0 <= k < |post| && post[k] == d;
      assert c == n.children[j] && d == n.children[i + 1 + k];
    }
  }

  /** The children beside one are whole trees that share nothing with it. */
  ghost predicate Apart(n: TreeNode, i: nat)
    requires i < |n.children|
    reads n, n.children, Footprint(n.children[..i]), Footprint(n.children[i + 1..])
  {
    var pre, post := n.children[..i], n.children[i + 1..];
    && Owned(pre) && Owned(post) && Footprint(pre) !! Footprint(post)
    && Footprint(pre) + Footprint(post) <= n.repr - {n} && Footprint(pre) + Footprint(post) !! n.children[i].repr
  }

  lemma ApartIs(n: TreeNode, i: nat)
    requires i < |n.children|
    requires var pre, post := n.children[..i], n.children[i + 1..];
      && Owned(pre) && Owned(post) && Footprint(pre) !! Footprint(post)
      && Footprint(pre) + Footprint(post) <= n.repr - {n} && Footprint(pre) + Footprint(post) !! n.children[i].repr
    ensures Apart(n, i)
  {}

  /** One child has changed below. */
  lemma Rejoined(n: TreeNode, i: nat)
    requires i < |n.children| && n in n.repr && n.children[i].Valid() && n.children[i].repr <= n.repr - {n}
    requires Apart(n, i)
    ensures Owned(n.children[..i]) && Owned(n.children[i + 1..])
    ensures n.Valid()
    ensures n.Value() == FNode(n.attrs, n.sources, Values(n.children[..i]) + [n.children[i].Value()] + Values(n.children[i + 1..]))
  {
    var pre, child, post := n.children[..i], n.children[i], n.children[i + 1..];
    hide Owned, Values, Footprint;
    OneOwned(child);
    OwnedAppend(pre, [child]);
    OwnedAppend(pre + [child], post);
    assert n.children == pre + [child] + post;
    Rehung(n);
  }

  lemma Replaced(v: FNode, i: nat, child: FNode)
    requires i < |v.children|
    ensures v.(children := v.children[i := child]) == FNode(v.attrs, v.sources, v.children[..i] + [child] + v.children[i + 1..])
  {}

  lemma StepAt(n: TreeNode, i: nat, below: Path, end: TreeNode)
    requires n.Valid() && i < |n.children| && n.children[i].Valid() && n.children[i].IsAt(below, end)
    ensures n.IsAt([i] + below, end)
  {
    assert ([i] + below)[1..] == below;
  }

  lemma FirstSnoc(vs: seq<FNode>, i: nat, keys: seq<Attr>)
    requires i < |vs|
    ensures Chosen(vs[..i], keys) != [] ==> Chosen(vs[..i + 1], keys) != []
    ensures Chosen(vs[..i], keys) != [] ==> FirstRequired(vs[..i + 1], keys) == FirstRequired(vs[..i], keys)
    ensures Chosen(vs[..i], keys) == [] && Required(vs[i], keys) ==> Chosen(vs[..i + 1], keys) != [] && FirstRequired(vs[..i + 1], keys) == i
  {
    assert vs[..i + 1] == vs[..i] + [vs[i]];
    FirstAppend(vs[..i], vs[i], keys);
  }

  lemma {:induction false} FirstAppend(a: seq<FNode>, v: FNode, keys: seq<Attr>)
    ensures Chosen(a, keys) != [] ==> Chosen(a + [v], keys) != []
    ensures Chosen(a, keys) != [] ==> FirstRequired(a + [v], keys) == FirstRequired(a, keys)
    ensures Chosen(a, keys) == [] && Required(v, keys) ==> Chosen(a + [v], keys) != [] && FirstRequired(a + [v], keys) == |a|
  {
    hide Required;
    if a == [] {
      assert a + [v] == [v];
    } else {
      assert (a + [v])[0] == a[0] && (a + [v])[1..] == a[1..] + [v];
      FirstAppend(a[1..], v, keys);
    }
  }

  /** A node whose last child has been replaced by another tree. */
  lemma Attached(n: TreeNode, kept: seq<TreeNode>, merged: TreeNode)
    requires Owned(kept) && merged.Valid() && Footprint(kept) !! merged.repr && n !in Footprint(kept) + merged.repr
    requires n.children == kept + [merged] && {n} + Footprint(kept) + merged.repr <= n.repr
    ensures n.Valid() && n.Value() == FNode(n.attrs, n.sources, Values(kept) + [merged.Value()])
  {
    OneOwned(merged);
    OwnedAppend(kept, [merged]);
    forall i | 0 <= i < |n.children| ensures n.Below(n.children[i]) {
      if i < |kept| { assert kept[i] in kept && kept[i].repr <= Footprint(kept); }
    }
  }

  lemma MarkedFrom(n: TreeNode, required: set<TreeNode>, keys: seq<Attr>)
    requires n.Valid() && forall c :: c in n.children ==> c.Valid() && c.Marked(required, keys)
    ensures n.MarkedBelow(required, keys)
  {}

  lemma SelfIn(n: TreeNode)
    requires n.Valid()
    ensures n in n.repr && forall m :: m in n.repr ==> allocated(m)
  {}

  lemma Covers(ns: seq<TreeNode>)
    requires Owned(ns)
    ensures forall n :: n in ns ==> n in Footprint(ns) && n.repr <= Footprint(ns)
    ensures forall m :: m in Footprint(ns) ==> allocated(m)
  {}

  lemma OneOwned(n: TreeNode)
    requires n.Valid()
    ensures Owned([n]) && Footprint([n]) == n.repr && Values([n]) == [n.Value()]
  {}

  lemma OwnedAppend(a: seq<TreeNode>, b: seq<TreeNode>)
    requires Owned(a) && Owned(b) && Footprint(a) !! Footprint(b)
    ensures Owned(a + b) && Footprint(a + b) == Footprint(a) + Footprint(b) && Values(a + b) == Values(a) + Values(b)
  {
    var c := a + b;
    assert forall n :: n in c <==> n in a || n in b;
    forall i, j | 0 <= i < j < |c| ensures c[i].repr !! c[j].repr {
      if i < |a| <= j { assert c[i] in a && c[j] in b && c[i].repr <= Footprint(a) && c[j].repr <= Footprint(b); }
    }
  }

  lemma ChildrenOwned(n: TreeNode)
    requires n.Valid()
    ensures Owned(n.children) && Footprint(n.children) <= n.repr - {n} && Values(n.children) == n.Value().children
  {
    forall c | c in n.children ensures c.repr <= n.repr - {n} { assert n.Below(c); }
  }

  lemma TakeChildren(child: TreeNode, grand: seq<TreeNode>, required: set<TreeNode>, keys: seq<Attr>)
    requires child.Valid() && Owned(grand) && child.repr !! Footprint(grand) && child.MarkedBelow(required, keys)
    requires forall n :: n in grand ==> n.Valid() && n.Marked(required, keys)
    ensures Owned(grand + child.children) && Values(grand + child.children) == Values(grand) + child.Value().children
    ensures Footprint(grand + child.children) == Footprint(grand) + Footprint(child.children)
    ensures Footprint(child.children) <= child.repr
    ensures forall n :: n in grand + child.children ==> n.Valid() && n.Marked(required, keys)
  {
    forall c | c in child.children ensures c.Valid() && c.Marked(required, keys) { assert child.Below(c); }
    ChildrenOwned(child);
    OwnedAppend(grand, child.children);
  }

  lemma ChosenStep(vs: seq<FNode>, keys: seq<Attr>)
    requires vs != []
    ensures Chosen(vs, keys) == (if Required(vs[0], keys) then [vs[0]] else []) + Chosen(vs[1..], keys)
    ensures Kept(vs, keys) == (if Required(vs[0], keys) then [] else [vs[0]]) + Kept(vs[1..], keys)
  {}

  lemma {:induction false} ChosenAppend(a: seq<FNode>, b: seq<FNode>, keys: seq<Attr>)
    ensures Chosen(a + b, keys) == Chosen(a, keys) + Chosen(b, keys) && Kept(a + b, keys) == Kept(a, keys) + Kept(b, keys)
  {
    if a == [] {
      assert a + b == b;
    } else {
      hide Required, Chosen, Kept;
      assert (a + b)[0] == a[0] && (a + b)[1..] == a[1..] + b;
      ChosenAppend(a[1..], b, keys);
      ChosenStep(a, keys);
      ChosenStep(a + b, keys);
    }
  }

  lemma ChosenPrefix(vs: seq<FNode>, i: nat, keys: seq<Attr>)
    requires i <= |vs|
    ensures |Chosen(vs[..i], keys)| <= |Chosen(vs, keys)|
  {
    assert vs == vs[..i] + vs[i..];
    ChosenAppend(vs[..i], vs[i..], keys);
  }

  lemma {:induction false} AttrsSnoc(ns: seq<FNode>, n: FNode)
    ensures AttrsOf(ns + [n]) == AttrsOf(ns) + n.attrs
  {
    if ns == [] {
      assert ns + [n] == [n];
    } else {
      assert (ns + [n])[0] == ns[0] && (ns + [n])[1..] == ns[1..] + [n];
      AttrsSnoc(ns[1..], n);
    }
  }

  lemma {:induction false} SourcesSnoc(ns: seq<FNode>, n: FNode)
    ensures SourcesOf(ns + [n]) == SourcesOf(ns) + n.sources
  {
    if ns == [] {
      assert ns + [n] == [n];
    } else {
      assert (ns + [n])[0] == ns[0] && (ns + [n])[1..] == ns[1..] + [n];
      SourcesSnoc(ns[1..], n);
    }
  }

  lemma {:induction false} ChildrenSnoc(ns: seq<FNode>, n: FNode)
    ensures ChildrenOf(ns + [n]) == ChildrenOf(ns) + n.children
  {
    if ns == [] {
      assert ns + [n] == [n];
    } else {
      assert (ns + [n])[0] == ns[0] && (ns + [n])[1..] == ns[1..] + [n];
      ChildrenSnoc(ns[1..], n);
    }
  }

  /** One more child, merged or kept. */
  lemma ChosenSnoc(vs: seq<FNode>, i: nat, keys: seq<Attr>)
    requires i < |vs|
    ensures var c, d := Chosen(vs[..i], keys), Chosen(vs[..i + 1], keys);
      if Required(vs[i], keys) then
        d == c + [vs[i]] && AttrsOf(d) == AttrsOf(c) + vs[i].attrs && SourcesOf(d) == SourcesOf(c) + vs[i].sources
        && ChildrenOf(d) == ChildrenOf(c) + vs[i].children && Kept(vs[..i + 1], keys) == Kept(vs[..i], keys)
      else d == c && Kept(vs[..i + 1], keys) == Kept(vs[..i], keys) + [vs[i]]
  {
    assert vs[..i + 1] == vs[..i] + [vs[i]];
    ChosenAppend(vs[..i], [vs[i]], keys);
    AttrsSnoc(Chosen(vs[..i], keys), vs[i]);
    SourcesSnoc(Chosen(vs[..i], keys), vs[i]);
    ChildrenSnoc(Chosen(vs[..i], keys), vs[i]);
  }
}
