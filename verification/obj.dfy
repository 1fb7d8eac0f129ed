/**
 * The document node tree (src/capsule/obj.rs and the node kinds of src/capsule/objs/).
 *
 * A node's kind, identifier, children, events and style cell never change after it is
 * created (the children are appended only while the parser builds the node, and no code
 * of this core writes an identifier), so they are `const` fields; only the computed
 * geometry is written in place, and the style record inside the shared style cell. The ghost
 * fields give the subtree's footprint: every node below this one, every style cell in
 * the subtree, and a height that bounds recursion.
 */
module Obj {
  import opened Wrappers
  import opened Style

  /** The closed set of node kinds: `CSObj`, `CSText`, `CapsuleView` and `CSScript`. */
  datatype ObjKind = CSObj | CSText(text: string) | CapsuleView | CSScript(code: string)

  /** `CapsuleObjectEvent`: an event name and the script callback it names, if any. */
  datatype CapsuleObjectEvent = CapsuleObjectEvent(name: string, callback: Option<string>)

  /** `ComputedStyling`: absolute geometry written by the layout pass. */
  datatype ComputedStyling = ComputedStyling(x: real, y: real, width: real, height: real)

  /** `ComputedStyling::default()`. */
  const DEFAULT_COMPUTED: ComputedStyling := ComputedStyling(0.0, 0.0, 0.0, 0.0)

  datatype Rect = Rect(x: real, y: real, w: real, h: real)

  /** `CapsuleObjectCreationContext`. */
  datatype CreationContext = CreationContext(
    id: Option<string>,
    children: seq<CapsuleObject>,
    events: seq<CapsuleObjectEvent>,
    style: Styling)

  /** Every node of the given subtrees. */
  ghost function ReprOf(ns: seq<CapsuleObject>): set<CapsuleObject> {
    if ns == [] then {} else ReprOf(ns[..|ns| - 1]) + ns[|ns| - 1].Repr()
  }

  /** Every style cell of the given subtrees. */
  ghost function StylesOf(ns: seq<CapsuleObject>): set<Styling> {
    if ns == [] then {} else StylesOf(ns[..|ns| - 1]) + ns[|ns| - 1].Styles
  }

  ghost function MaxHeight(ns: seq<CapsuleObject>): (h: nat)
    ensures forall i | 0 <= i < |ns| :: ns[i].height <= h
  {
    if ns == [] then 0
    else
      var h0 := MaxHeight(ns[..|ns| - 1]);
      var last := ns[|ns| - 1].height;
      assert forall i | 0 <= i < |ns| - 1 :: ns[i] == ns[..|ns| - 1][i];
      if h0 < last then last else h0
  }

  ghost predicate AllValid(ns: seq<CapsuleObject>) {
    forall i | 0 <= i < |ns| :: ns[i].Valid()
  }

  ghost predicate Disjoint(ns: seq<CapsuleObject>) {
    forall i, j | 0 <= i < j < |ns| :: ns[i].Repr() !! ns[j].Repr()
  }

  class CapsuleObject {
    const kind: ObjKind
    const children: seq<CapsuleObject>
    const events: seq<CapsuleObjectEvent>
    const style: Styling
    const id: Option<string>
    var computed: ComputedStyling

    ghost const Descendants: set<CapsuleObject>
    ghost const Styles: set<Styling>
    ghost const height: nat

    ghost function Repr(): set<CapsuleObject> {
      {this} + Descendants
    }

    /** The subtree is a finite tree: no node is its own descendant and sibling subtrees share no node. */
    ghost predicate Valid()
      decreases height
    {
      && (forall o | o in Descendants :: o.height < height)
      && this !in Descendants
      && Descendants == ReprOf(children)
      && Styles == {style} + StylesOf(children)
      && (forall i | 0 <= i < |children| :: children[i].height < height && children[i].Valid())
      && (forall i | 0 <= i < |children| :: children[i].Repr() <= Descendants && children[i].Styles <= StylesOf(children))
      && Disjoint(children)
    }

    /** `CapsuleObjectBase::new`: identifier, children, events and style come from the
        context; the computed geometry starts at its all-zero default. */
    constructor (kind: ObjKind, ctx: CreationContext)
      requires AllValid(ctx.children) && Disjoint(ctx.children)
      ensures Valid()
      ensures this.kind == kind && children == ctx.children && events == ctx.events
      ensures style == ctx.style && id == ctx.id
      ensures computed == DEFAULT_COMPUTED
      ensures Descendants == ReprOf(ctx.children) && Styles == {ctx.style} + StylesOf(ctx.children)
      ensures height == MaxHeight(ctx.children) + 1
    {
      this.kind := kind;
      children := ctx.children;
      events := ctx.events;
      style := ctx.style;
      id := ctx.id;
      computed := DEFAULT_COMPUTED;
      Descendants := ReprOf(ctx.children);
      Styles := {ctx.style} + StylesOf(ctx.children);
      height := MaxHeight(ctx.children) + 1;
      new;
      ReprOfCovers(children);
      ReprOfHeights(children);
    }

    /** `bounding_box`. */
    function BoundingBox(): (r: Rect)
      reads this
      ensures r.x == computed.x && r.y == computed.y
      ensures r.w == computed.width && r.h == computed.height
    {
      Rect(computed.x, computed.y, computed.width, computed.height)
    }

    /** `is_dirty`: the flag of this node's own style cell. */
    function IsDirty(): (r: bool)
      reads style
      ensures r == style.Record().dirty
    {
      style.IsDirty()
    }

    /** `set_dirty`: raises this node's own flag and nothing else. */
    method SetDirty()
      modifies style
      ensures style.Record() == old(style.Record()).(dirty := true)
    {
      style.SetDirty();
    }

    /** `set_non_dirty`: clears this node's own flag and nothing else. */
    method SetNonDirty()
      modifies style
      ensures style.Record() == old(style.Record()).(dirty := false)
    {
      style.SetNonDirty();
    }

    /** `children_vec`: a snapshot of the children, same length, same order. */
    method ChildrenVec() returns (out: seq<CapsuleObject>)
      ensures |out| == |children|
      ensures forall i | 0 <= i < |out| :: out[i] == children[i]
    {
      out := [];
      for i := 0 to |children|
        invariant |out| == i
        invariant forall k | 0 <= k < i :: out[k] == children[k]
      {
        out := out + [children[i]];
      }
    }
  }

  /** Each subtree's nodes and style cells are among those of the whole list. */
  lemma {:induction false} ReprOfCovers(ns: seq<CapsuleObject>)
    ensures forall i | 0 <= i < |ns| :: ns[i].Repr() <= ReprOf(ns) && ns[i].Styles <= StylesOf(ns)
  {
    if ns != [] {
      var init := ns[..|ns| - 1];
      ReprOfCovers(init);
      assert forall i | 0 <= i < |ns| - 1 :: ns[i] == init[i];
    }
  }

  /** No node of the given subtrees is taller than the tallest root among them. */
  lemma {:induction false} ReprOfHeights(ns: seq<CapsuleObject>)
    requires AllValid(ns)
    ensures forall o | o in ReprOf(ns) :: o.height <= MaxHeight(ns)
  {
    if ns != [] {
      var init := ns[..|ns| - 1];
      assert forall i | 0 <= i < |init| :: init[i] == ns[i];
      ReprOfHeights(init);
      assert MaxHeight(init) <= MaxHeight(ns);
    }
  }

  /** The subtrees `ns` hang below a node of height `h`. */
  ghost predicate Forest(ns: seq<CapsuleObject>, h: nat) {
    forall i | 0 <= i < |ns| :: ns[i].Valid() && ns[i].height < h
  }

  /** The pre-order walk of a list of subtrees: each subtree in stored order, every node
      immediately followed by the walks of its own children. */
  ghost function Walk(ns: seq<CapsuleObject>, h: nat): seq<CapsuleObject>
    requires Forest(ns, h)
    decreases h, |ns|
  {
    if ns == [] then []
    else
      var init, last := ns[..|ns| - 1], ns[|ns| - 1];
      assert forall i | 0 <= i < |init| :: init[i] == ns[i];
      Walk(init, h) + [last] + Walk(last.children, last.height)
  }

  /** The walk of the first `k + 1` subtrees extends the walk of the first `k` by
      subtree `k`: its root, then the walk of its children. */
  lemma WalkSnoc(ns: seq<CapsuleObject>, h: nat, k: nat)
    requires Forest(ns, h) && k < |ns|
    ensures Forest(ns[..k], h) && Forest(ns[..k + 1], h)
    ensures Walk(ns[..k + 1], h) == Walk(ns[..k], h) + [ns[k]] + Walk(ns[k].children, ns[k].height)
  {
    assert ns[..k + 1][..k] == ns[..k];
  }

  /** The nodes `iter_all_objects` hands to its callback, in the order it does so: the
      pre-order walk below the root view, without the root view itself. */
  ghost function AllObjects(view: CapsuleObject): seq<CapsuleObject>
    requires view.Valid()
  {
    Walk(view.children, view.height)
  }

  /** `iter_all_objects`: the callback's successive arguments are returned as `visits`. */
  method IterAllObjects(view: CapsuleObject) returns (visits: seq<CapsuleObject>)
    requires view.Valid()
    ensures visits == AllObjects(view)
  {
    visits := [];
    for k := 0 to |view.children|
      invariant visits == Walk(view.children[..k], view.height)
    {
      var sub := Recurse(view.children[k]);
      WalkSnoc(view.children, view.height, k);
      Regroup(visits, view.children[k], Walk(view.children[k].children, view.children[k].height));
      visits := visits + sub;
    }
    assert view.children[..|view.children|] == view.children;
  }

  /** The inner `recurse` of `iter_all_objects`: the callback on `o`, then on each child's subtree. */
  method Recurse(o: CapsuleObject) returns (visits: seq<CapsuleObject>)
    requires o.Valid()
    ensures visits == [o] + Walk(o.children, o.height)
    decreases o.height
  {
    visits := [o];
    for k := 0 to |o.children|
      invariant visits == [o] + Walk(o.children[..k], o.height)
    {
      var sub := Recurse(o.children[k]);
      ghost var done := Walk(o.children[..k], o.height);
      WalkSnoc(o.children, o.height, k);
      Regroup(done, o.children[k], Walk(o.children[k].children, o.children[k].height));
      Assoc([o], done, sub);
      visits := visits + sub;
    }
    assert o.children[..|o.children|] == o.children;
  }

  ghost predicate Distinct(s: seq<CapsuleObject>) {
    forall i, j | 0 <= i < j < |s| :: s[i] != s[j]
  }

  lemma DistinctConcat(a: seq<CapsuleObject>, b: seq<CapsuleObject>)
    requires Distinct(a) && Distinct(b)
    requires forall x | x in a :: x !in b
    ensures Distinct(a + b)
  {
    forall i, j | 0 <= i < j < |a + b|
      ensures (a + b)[i] != (a + b)[j]
    {
      if j >= |a| && i < |a| {
        assert (a + b)[i] in a && (a + b)[j] in b;
      }
    }
  }

  lemma Assoc<T>(a: seq<T>, b: seq<T>, c: seq<T>)
    ensures a + b + c == a + (b + c)
  {
  }

  lemma Regroup<T>(a: seq<T>, x: T, b: seq<T>)
    ensures a + ([x] + b) == a + [x] + b
  {
  }

  /** A set that misses every subtree misses their union. */
  lemma {:induction false} ReprOfDisjoint(ns: seq<CapsuleObject>, other: set<CapsuleObject>)
    requires forall i | 0 <= i < |ns| :: ns[i].Repr() !! other
    ensures ReprOf(ns) !! other
  {
    if ns != [] {
      var init := ns[..|ns| - 1];
      assert forall i | 0 <= i < |init| :: init[i] == ns[i];
      ReprOfDisjoint(init, other);
    }
  }

  /** The walk meets exactly the nodes of the subtrees. */
  lemma {:induction false} WalkCovers(ns: seq<CapsuleObject>, h: nat)
    requires Forest(ns, h)
    ensures forall o :: o in Walk(ns, h) <==> o in ReprOf(ns)
    decreases h, |ns|
  {
    if ns != [] {
      var init, last := ns[..|ns| - 1], ns[|ns| - 1];
      assert forall i | 0 <= i < |init| :: init[i] == ns[i];
      WalkCovers(init, h);
      WalkCovers(last.children, last.height);
    }
  }

  /** The walk of one subtree stays inside it and meets no node twice. */
  lemma {:induction false} WalkOneDistinct(n: CapsuleObject)
    requires n.Valid()
    ensures forall x | x in [n] + Walk(n.children, n.height) :: x in n.Repr()
    ensures Distinct([n] + Walk(n.children, n.height))
    decreases n.height, 1, 0
  {
    var w := Walk(n.children, n.height);
    WalkCovers(n.children, n.height);
    WalkDistinct(n.children, n.height);
    DistinctConcat([n], w);
    forall x | x in w
      ensures x in n.Descendants
    {
      WalkMember(n.children, n.height, x);
    }
  }

  lemma WalkMember(ns: seq<CapsuleObject>, h: nat, x: CapsuleObject)
    requires Forest(ns, h) && x in Walk(ns, h)
    ensures x in ReprOf(ns)
  {
    WalkCovers(ns, h);
  }

  /** The walk meets no node twice, provided sibling subtrees share no node. */
  lemma {:induction false} WalkDistinct(ns: seq<CapsuleObject>, h: nat)
    requires Forest(ns, h) && Disjoint(ns)
    ensures Distinct(Walk(ns, h))
    decreases h, 0, |ns|
  {
    if ns != [] {
      var init, last := ns[..|ns| - 1], ns[|ns| - 1];
      WalkUnfold(ns, h);
      assert Disjoint(init) by {
        assert forall i | 0 <= i < |init| :: init[i] == ns[i];
      }
      WalkDistinct(init, h);
      WalkOneDistinct(last);
      WalkCovers(init, h);
      assert forall i | 0 <= i < |init| :: init[i].Repr() !! last.Repr() by {
        assert forall i | 0 <= i < |init| :: init[i] == ns[i];
      }
      ReprOfDisjoint(init, last.Repr());
      var a, b := Walk(init, h), Walk(last.children, last.height);
      DistinctConcat(a, [last] + b);
      Regroup(a, last, b);
    }
  }

  /** In `w`, position `i` is immediately followed by the run `sub`. */
  ghost predicate Follows<T>(w: seq<T>, i: nat, sub: seq<T>) {
    i + 1 + |sub| <= |w| && w[i + 1 .. i + 1 + |sub|] == sub
  }

  lemma FollowsPrefix<T>(a: seq<T>, b: seq<T>, i: nat, sub: seq<T>)
    requires i < |a| && Follows(a, i, sub)
    ensures (a + b)[i] == a[i] && Follows(a + b, i, sub)
  {
    assert (a + b)[i + 1 .. i + 1 + |sub|] == a[i + 1 .. i + 1 + |sub|];
  }

  lemma FollowsSuffix<T>(a: seq<T>, b: seq<T>, j: nat, sub: seq<T>)
    requires j < |b| && Follows(b, j, sub)
    ensures (a + b)[|a| + j] == b[j] && Follows(a + b, |a| + j, sub)
  {
    assert (a + b)[|a| + j + 1 .. |a| + j + 1 + |sub|] == b[j + 1 .. j + 1 + |sub|];
  }

  lemma FollowsJoin<T>(a: seq<T>, x: T, b: seq<T>)
    ensures (a + [x] + b)[|a|] == x && Follows(a + [x] + b, |a|, b)
  {
    assert (a + [x] + b)[|a| + 1 .. |a| + 1 + |b|] == b;
  }

  /** Pre-order: every node the walk meets is valid and is immediately followed by the
      walk of its own children, so a node comes before all of its descendants. */
  lemma {:induction false} WalkSubtreeFollows(ns: seq<CapsuleObject>, h: nat, i: nat)
    requires Forest(ns, h) && i < |Walk(ns, h)|
    ensures var w := Walk(ns, h); w[i].Valid() && Follows(w, i, Walk(w[i].children, w[i].height))
    decreases h, |ns|
  {
    var init, last := ns[..|ns| - 1], ns[|ns| - 1];
    WalkUnfold(ns, h);
    var a, b := Walk(init, h), Walk(last.children, last.height);
    if i < |a| {
      WalkSubtreeFollows(init, h, i);
      FollowsInFront(Walk(ns, h), a, last, b, i);
    } else if i == |a| {
      FollowsAtRoot(Walk(ns, h), a, last, b);
    } else {
      WalkSubtreeFollows(last.children, last.height, i - |a| - 1);
      FollowsBelowRoot(Walk(ns, h), a, last, b, i);
    }
  }

  /** One step of `Walk`, with the facts its recursive calls rely on. */
  lemma WalkUnfold(ns: seq<CapsuleObject>, h: nat)
    requires Forest(ns, h) && ns != []
    ensures Forest(ns[..|ns| - 1], h) && ns[|ns| - 1].Valid() && ns[|ns| - 1].height < h
    ensures Walk(ns, h) == Walk(ns[..|ns| - 1], h) + [ns[|ns| - 1]] + Walk(ns[|ns| - 1].children, ns[|ns| - 1].height)
  {
    var init := ns[..|ns| - 1];
    assert forall k | 0 <= k < |init| :: init[k] == ns[k];
  }

  /** A node of the earlier subtrees' walk keeps its run when the last subtree's walk
      is appended. */
  lemma FollowsInFront(w: seq<CapsuleObject>, a: seq<CapsuleObject>, last: CapsuleObject, b: seq<CapsuleObject>, i: nat)
    requires w == a + [last] + b
    requires i < |a| && a[i].Valid() && Follows(a, i, Walk(a[i].children, a[i].height))
    ensures w[i].Valid() && Follows(w, i, Walk(w[i].children, w[i].height))
  {
    var sub := Walk(a[i].children, a[i].height);
    FollowsPrefix(a, [last], i, sub);
    FollowsPrefix(a + [last], b, i, sub);
  }

  /** The root of the last subtree is followed by the walk of its children. */
  lemma FollowsAtRoot(w: seq<CapsuleObject>, a: seq<CapsuleObject>, last: CapsuleObject, b: seq<CapsuleObject>)
    requires w == a + [last] + b
    requires last.Valid() && b == Walk(last.children, last.height)
    ensures w[|a|].Valid() && Follows(w, |a|, Walk(w[|a|].children, w[|a|].height))
  {
    FollowsJoin(a, last, b);
  }

  /** A node below the root of the last subtree keeps its run when the earlier walk and
      that root are put in front. */
  lemma FollowsBelowRoot(w: seq<CapsuleObject>, a: seq<CapsuleObject>, last: CapsuleObject, b: seq<CapsuleObject>, i: nat)
    requires w == a + [last] + b && |a| < i < |w|
    requires var j := i - |a| - 1; b[j].Valid() && Follows(b, j, Walk(b[j].children, b[j].height))
    ensures w[i].Valid() && Follows(w, i, Walk(w[i].children, w[i].height))
  {
    var j := i - |a| - 1;
    FollowsSuffix(a + [last], b, j, Walk(b[j].children, b[j].height));
  }

  /** `iter_all_objects` calls back exactly once for every descendant of the root view,
      never for the root view itself, and in pre-order. */
  lemma IterAllObjectsVisitsEachOnce(view: CapsuleObject)
    requires view.Valid()
    ensures forall o :: o in AllObjects(view) <==> o in view.Descendants
    ensures view !in AllObjects(view)
    ensures Distinct(AllObjects(view))
  {
    WalkCovers(view.children, view.height);
    WalkDistinct(view.children, view.height);
  }

  /** The value of a node tree at one moment: structure, identifiers, events and each
      node's style record (everything but the computed geometry). */
  datatype NodeValue = NodeValue(
    kind: ObjKind,
    id: Option<string>,
    events: seq<CapsuleObjectEvent>,
    style: StyleRecord,
    children: seq<NodeValue>)

  ghost function ValueOf(o: CapsuleObject): NodeValue
    requires o.Valid()
    reads o.Styles
    decreases o.height, 1, 0
  {
    NodeValue(o.kind, o.id, o.events, o.style.Record(), ValuesOf(o.children, o.height))
  }

  /** The values of a list of subtrees, in order. */
  ghost function ValuesOf(ns: seq<CapsuleObject>, h: nat): (vs: seq<NodeValue>)
    requires Forest(ns, h)
    reads StylesOf(ns)
    ensures |vs| == |ns|
    decreases h, 0, |ns|
  {
    if ns == [] then []
    else
      var init, last := ns[..|ns| - 1], ns[|ns| - 1];
      assert forall i | 0 <= i < |init| :: init[i] == ns[i];
      ReprOfCovers(ns);
      ValuesOf(init, h) + [ValueOf(last)]
  }

  /** Every style cell of the subtrees exists in the current heap. */
  lemma {:induction false} StylesOfAllocated(ns: seq<CapsuleObject>)
    ensures forall s | s in StylesOf(ns) :: allocated(s)
  {
    if ns != [] {
      StylesOfAllocated(ns[..|ns| - 1]);
    }
  }

  /** The value at position `i` is the value of the subtree at position `i`. */
  lemma {:induction false} ValuesOfAt(ns: seq<CapsuleObject>, h: nat, i: nat)
    requires Forest(ns, h) && i < |ns|
    ensures ValuesOf(ns, h)[i] == ValueOf(ns[i])
  {
    var init := ns[..|ns| - 1];
    assert forall k | 0 <= k < |init| :: init[k] == ns[k];
    if i < |ns| - 1 {
      ValuesOfAt(init, h, i);
    }
  }

  /** Appending one subtree appends its value. */
  lemma ValuesOfSnoc(ns: seq<CapsuleObject>, c: CapsuleObject, h: nat)
    requires Forest(ns + [c], h)
    ensures Forest(ns, h) && c.Valid()
    ensures ValuesOf(ns + [c], h) == ValuesOf(ns, h) + [ValueOf(c)]
  {
    assert (ns + [c])[|ns|] == c;
    assert (ns + [c])[..|ns|] == ns;
    assert forall i | 0 <= i < |ns| :: ns[i] == (ns + [c])[i];
  }

  /** The bound passed to `ValuesOf` does not change the values. */
  lemma {:induction false} ValuesOfHeight(ns: seq<CapsuleObject>, h1: nat, h2: nat)
    requires Forest(ns, h1) && Forest(ns, h2)
    ensures ValuesOf(ns, h1) == ValuesOf(ns, h2)
  {
    if ns != [] {
      var init := ns[..|ns| - 1];
      assert forall i | 0 <= i < |init| :: init[i] == ns[i];
      ValuesOfHeight(init, h1, h2);
    }
  }

  /** `CapsuleMeta`: the document title and its scripts' sources. */
  datatype CapsuleMeta = CapsuleMeta(title: string, scripts: seq<string>)

  /** `CapsuleMeta::default()`. */
  const DEFAULT_META := CapsuleMeta("", [])

  /** A root view with no children and the default style. */
  const EMPTY_VIEW := NodeValue(CapsuleView, None, [], DefaultStyling(), [])

  /** `Capsule`: a document's metadata and its root view. The script engine is not
      part of this model. */
  class Capsule {
    var meta: CapsuleMeta
    var view: CapsuleObject

    /** `Capsule::default()`: empty metadata and an empty root view. */
    constructor Default()
      ensures meta == DEFAULT_META
      ensures view.Valid() && fresh(view.Repr()) && fresh(view.Styles)
      ensures ValueOf(view) == EMPTY_VIEW
    {
      meta := DEFAULT_META;
      var style := new Styling.Default();
      view := new CapsuleObject(CapsuleView, CreationContext(None, [], [], style));
    }
  }
}
