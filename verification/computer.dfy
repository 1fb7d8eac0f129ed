/**
 * The layout pass (src/layout/computer.rs): each node's style is translated for the
 * flexbox solver, the node tree is mirrored into a solver arena under a window-sized
 * root, the solver runs once, and the solved geometry is written back into every
 * node as absolute coordinates.
 */
module Computer {
  import opened Wrappers
  import Flexbox
  import Align
  import Justify
  import FlexDir
  import Dimension
  import opened Style
  import opened Obj

  /** `WINDOW_WIDTH` and `WINDOW_HEIGHT` (src/main.rs). */
  const WINDOW_WIDTH: int := 800
  const WINDOW_HEIGHT: int := 600

  /** The root node's style: the window's size in points, children in a column, all
      other fields at the solver's defaults. */
  const ROOT_STYLE: Flexbox.Style :=
    Flexbox.DefaultStyle().(
      size := Flexbox.Size(Flexbox.Dimension.Points(WINDOW_WIDTH as real), Flexbox.Dimension.Points(WINDOW_HEIGHT as real)),
      flexDirection := Flexbox.FlexDirection.Column)

  /** An unset width or height is left to the solver as `Auto`. */
  function SolverDimension(d: Option<Dimension.CODimension>): Flexbox.Dimension {
    if d.Some? then Dimension.AsStretch(d.value) else Flexbox.Dimension.Auto
  }

  /** `styling_to_stretch`: size, alignment, justification and direction; the colours,
      the font size and the dirty flag are not the solver's concern. */
  function StylingToStretch(s: StyleRecord): (r: Flexbox.Style)
    ensures s.width.None? ==> r.size.width == Flexbox.Dimension.Auto
    ensures s.height.None? ==> r.size.height == Flexbox.Dimension.Auto
    ensures s.width.Some? ==> r.size.width == Dimension.AsStretch(s.width.value)
    ensures s.height.Some? ==> r.size.height == Dimension.AsStretch(s.height.value)
    ensures r.alignItems == Align.AsStretch(s.align) && r.justifyContent == Justify.AsStretch(s.justify)
    ensures r.flexDirection == FlexDir.AsStretch(s.flexdir)
  {
    Flexbox.Style(
      Flexbox.Size(SolverDimension(s.width), SolverDimension(s.height)),
      Align.AsStretch(s.align),
      Justify.AsStretch(s.justify),
      FlexDir.AsStretch(s.flexdir))
  }

  /** The width or height the solver effectively sees: unset counts as `auto`. */
  function Effective(d: Option<Dimension.CODimension>): Dimension.CODimension {
    d.GetOr(Dimension.CODimension.Auto)
  }

  /** Two style records give the solver the same style exactly when they agree on the
      layout fields, an unset size counting as `auto`; colours, font size and the dirty
      flag make no difference. */
  lemma StylingToStretchExact(s: StyleRecord, t: StyleRecord)
    ensures StylingToStretch(s) == StylingToStretch(t) <==>
      && s.align == t.align && s.justify == t.justify && s.flexdir == t.flexdir
      && Effective(s.width) == Effective(t.width) && Effective(s.height) == Effective(t.height)
  {
    Align.AsStretchBijective(s.align, t.align, Align.AsStretch(s.align));
    Justify.AsStretchBijective(s.justify, t.justify, Justify.AsStretch(s.justify));
    FlexDir.AsStretchBijective(s.flexdir, t.flexdir, FlexDir.AsStretch(s.flexdir));
    Dimension.AsStretchInjective(Effective(s.width), Effective(t.width));
    Dimension.AsStretchInjective(Effective(s.height), Effective(t.height));
  }

  /** A node whose style was never touched gets exactly the solver's default style. */
  lemma DefaultStylingToStretch()
    ensures StylingToStretch(DefaultStyling()) == Flexbox.DefaultStyle()
  {
  }

  /** The arena node `id` mirrors the node tree value `v`: its style is the translation
      of the node's style record, and its children mirror the node's children one for one. */
  ghost predicate Mirrors(arena: seq<Flexbox.StretchNode>, id: nat, v: NodeValue)
    decreases v
  {
    && id < |arena|
    && arena[id].style == StylingToStretch(v.style)
    && |arena[id].children| == |v.children|
    && forall i | 0 <= i < |v.children| :: Mirrors(arena, arena[id].children[i], v.children[i])
  }

  /** Appending nodes to the arena keeps every mirror already built. */
  lemma {:induction false} MirrorsExtend(a: seq<Flexbox.StretchNode>, b: seq<Flexbox.StretchNode>, id: nat, v: NodeValue)
    requires Mirrors(a, id, v) && Flexbox.Extends(b, a)
    ensures Mirrors(b, id, v)
    decreases v
  {
    forall i | 0 <= i < |v.children|
      ensures Mirrors(b, b[id].children[i], v.children[i])
    {
      MirrorsExtend(a, b, a[id].children[i], v.children[i]);
    }
  }

  /** The same, for the first `n` values of a list and the ids that mirror them. */
  lemma MirrorsExtendAll(a: seq<Flexbox.StretchNode>, b: seq<Flexbox.StretchNode>, ids: seq<nat>, vs: seq<NodeValue>, n: nat)
    requires n <= |ids| && n <= |vs|
    requires forall k | 0 <= k < n :: Mirrors(a, ids[k], vs[k])
    requires Flexbox.Extends(b, a)
    ensures forall k | 0 <= k < n :: Mirrors(b, ids[k], vs[k])
  {
    forall k | 0 <= k < n
      ensures Mirrors(b, ids[k], vs[k])
    {
      MirrorsExtend(a, b, ids[k], vs[k]);
    }
  }

  /** Every id mirrors the value at the same position. */
  ghost predicate MirrorsAll(arena: seq<Flexbox.StretchNode>, ids: seq<nat>, vs: seq<NodeValue>) {
    |ids| == |vs| && forall k | 0 <= k < |vs| :: Mirrors(arena, ids[k], vs[k])
  }

  /** One more subtree built: the mirrors of the earlier ones survive the nodes it appended. */
  lemma MirrorsStep(before: seq<Flexbox.StretchNode>, after: seq<Flexbox.StretchNode>, ids: seq<nat>, vs: seq<NodeValue>, c: nat, v: NodeValue)
    requires Flexbox.Extends(after, before) && MirrorsAll(before, ids, vs) && Mirrors(after, c, v)
    ensures MirrorsAll(after, ids + [c], vs + [v])
  {
    MirrorsExtendAll(before, after, ids, vs, |ids|);
  }

  /** The node appended last, with the translated style and the children's ids, mirrors
      the whole value. */
  lemma MirrorsClose(before: seq<Flexbox.StretchNode>, after: seq<Flexbox.StretchNode>, id: nat, kids: seq<nat>, v: NodeValue)
    requires after == before + [Flexbox.StretchNode(StylingToStretch(v.style), kids)] && id == |before|
    requires MirrorsAll(before, kids, v.children)
    ensures Mirrors(after, id, v)
  {
    MirrorsExtendAll(before, after, kids, v.children, |kids|);
  }

  /** The arena `build_node` leaves when it adds the subtree `v` to the arena `base`: the
      children's subtrees one after the other in stored order, then the node itself, as
      the last node. */
  ghost function Built(base: seq<Flexbox.StretchNode>, v: NodeValue): (r: seq<Flexbox.StretchNode>)
    ensures |base| < |r|
    decreases v, 1
  {
    var kids := BuiltAll(base, v.children);
    kids.0 + [Flexbox.StretchNode(StylingToStretch(v.style), kids.1)]
  }

  /** The arena after adding the subtrees `vs` one after the other, and the id of each. */
  ghost function BuiltAll(base: seq<Flexbox.StretchNode>, vs: seq<NodeValue>): (r: (seq<Flexbox.StretchNode>, seq<nat>))
    ensures |base| <= |r.0| && |r.1| == |vs|
    decreases vs, 0
  {
    if vs == [] then (base, [])
    else
      var init := BuiltAll(base, vs[..|vs| - 1]);
      var arena := Built(init.0, vs[|vs| - 1]);
      (arena, init.1 + [|arena| - 1])
  }

  /** Adding one more subtree adds its nodes after those of the earlier ones. */
  lemma BuiltAllSnoc(base: seq<Flexbox.StretchNode>, vs: seq<NodeValue>, v: NodeValue,
                     before: seq<Flexbox.StretchNode>, ids: seq<nat>, after: seq<Flexbox.StretchNode>)
    requires before == BuiltAll(base, vs).0 && ids == BuiltAll(base, vs).1 && after == Built(before, v)
    ensures after == BuiltAll(base, vs + [v]).0 && ids + [|after| - 1] == BuiltAll(base, vs + [v]).1
  {
  }

  /** A node added after its children's subtrees closes the subtree. */
  lemma BuiltClose(base: seq<Flexbox.StretchNode>, v: NodeValue, before: seq<Flexbox.StretchNode>, kids: seq<nat>)
    requires before == BuiltAll(base, v.children).0 && kids == BuiltAll(base, v.children).1
    ensures Built(base, v) == before + [Flexbox.StretchNode(StylingToStretch(v.style), kids)]
  {
  }

  /** The arena `compute_layout` builds on `base`: the root view's children, then the
      window-sized root over them, as the last node. */
  ghost function RootArena(base: seq<Flexbox.StretchNode>, vs: seq<NodeValue>): (r: seq<Flexbox.StretchNode>)
    ensures |base| < |r| && r[|r| - 1].style == ROOT_STYLE
  {
    var kids := BuiltAll(base, vs);
    kids.0 + [Flexbox.StretchNode(ROOT_STYLE, kids.1)]
  }

  /** What `Built` leaves: the nodes already there are kept, the last node mirrors `v`,
      and a closed arena stays closed. */
  lemma {:induction false} BuiltMirrors(base: seq<Flexbox.StretchNode>, v: NodeValue)
    ensures var r := Built(base, v);
      && Flexbox.Extends(r, base) && Mirrors(r, |r| - 1, v)
      && (Flexbox.Closed(base) ==> Flexbox.Closed(r))
    decreases v, 1
  {
    var kids := BuiltAll(base, v.children);
    BuiltAllMirrors(base, v.children);
    var node := Flexbox.StretchNode(StylingToStretch(v.style), kids.1);
    MirrorsClose(kids.0, kids.0 + [node], |kids.0|, kids.1, v);
    Flexbox.ExtendsTrans(kids.0 + [node], kids.0, base);
    if Flexbox.Closed(base) {
      Flexbox.ClosedSnoc(kids.0, node);
    }
  }

  /** What `BuiltAll` leaves: the nodes already there are kept, the ids mirror the
      values in order, and a closed arena stays closed. */
  lemma {:induction false} BuiltAllMirrors(base: seq<Flexbox.StretchNode>, vs: seq<NodeValue>)
    ensures var r := BuiltAll(base, vs);
      && Flexbox.Extends(r.0, base) && MirrorsAll(r.0, r.1, vs)
      && (Flexbox.Closed(base) ==> Flexbox.Closed(r.0))
    decreases vs, 0
  {
    if vs != [] {
      var init, last := vs[..|vs| - 1], vs[|vs| - 1];
      var p := BuiltAll(base, init);
      BuiltAllMirrors(base, init);
      BuiltMirrors(p.0, last);
      var a := Built(p.0, last);
      MirrorsStep(p.0, a, p.1, init, |a| - 1, last);
      Flexbox.ExtendsTrans(a, p.0, base);
      assert init + [last] == vs;
    }
  }

  /** The arena of a layout pass is closed, and the window root's children mirror the
      root view's children. */
  lemma RootArenaMirrors(vs: seq<NodeValue>)
    ensures var r := RootArena([], vs);
      Flexbox.Closed(r) && MirrorsAll(r, r[|r| - 1].children, vs)
  {
    var kids := BuiltAll([], vs);
    BuiltAllMirrors([], vs);
    var node := Flexbox.StretchNode(ROOT_STYLE, kids.1);
    MirrorsExtendAll(kids.0, kids.0 + [node], kids.1, vs, |vs|);
    Flexbox.ClosedSnoc(kids.0, node);
  }

  /** `build_node`: the subtree, whose value is `v`, is added to the arena bottom-up,
      children first in stored order, and the node last; its id is returned. */
  method BuildNode(stretch: Flexbox.Stretch, o: CapsuleObject, ghost v: NodeValue) returns (id: nat)
    requires o.Valid() && v == ValueOf(o)
    modifies stretch
    ensures stretch.nodes == Built(old(stretch.nodes), v) && id == |stretch.nodes| - 1
    ensures stretch.layouts == old(stretch.layouts)
    decreases o.height, 1, 0
  {
    ghost var start := stretch.nodes;
    var nodeStyle := StylingToStretch(o.style.Record());
    var kids := BuildChildren(stretch, o.children, o.height, v.children);
    BuiltAllMirrors(start, v.children);
    ghost var before := stretch.nodes;
    id := stretch.NewNode(nodeStyle, kids);
    BuiltClose(start, v, before, kids);
  }

  /** The `map(build_node).collect()` of `build_node`: each subtree is built in stored
      order and the ids are collected in the same order. */
  method BuildChildren(stretch: Flexbox.Stretch, ns: seq<CapsuleObject>, ghost h: nat, ghost vs: seq<NodeValue>)
    returns (ids: seq<nat>)
    requires Forest(ns, h) && vs == ValuesOf(ns, h)
    modifies stretch
    ensures stretch.nodes == BuiltAll(old(stretch.nodes), vs).0 && ids == BuiltAll(old(stretch.nodes), vs).1
    ensures stretch.layouts == old(stretch.layouts)
    decreases h, 0, |ns|
  {
    if ns == [] {
      return [];
    }
    ghost var start := stretch.nodes;
    var init, last := ns[..|ns| - 1], ns[|ns| - 1];
    assert ns == init + [last];
    ValuesOfSnoc(init, last, h);
    assert vs == vs[..|ns| - 1] + [vs[|ns| - 1]];
    var first := BuildChildren(stretch, init, h, vs[..|ns| - 1]);
    ghost var before := stretch.nodes;
    StylesOfAllocated(init);
    var c := BuildNode(stretch, last, vs[|ns| - 1]);
    BuiltAllSnoc(start, vs[..|ns| - 1], vs[|ns| - 1], before, first, stretch.nodes);
    ids := first + [c];
  }

  /** A node's absolute coordinate: its parent's absolute coordinate plus the offset the
      solver gave it inside the parent. */
  function Offset(parent: real, local: real): real {
    parent + local
  }

  /** The subtree `o` carries the geometry the solver gave arena node `id`, placed
      relative to the absolute position (`px`, `py`) of its parent; its children are
      placed relative to it, paired with the arena children in order (as `zip` pairs
      them, up to the shorter of the two). */
  ghost predicate Placed(arena: seq<Flexbox.StretchNode>, layouts: seq<Flexbox.Layout>, id: nat, o: CapsuleObject, px: real, py: real)
    requires o.Valid()
    reads o.Repr()
    decreases o.height
  {
    && id < |arena| && id < |layouts|
    && var l := layouts[id];
       var ax, ay := Offset(px, l.location.x), Offset(py, l.location.y);
       && o.computed == ComputedStyling(ax, ay, l.size.width, l.size.height)
       && forall i | 0 <= i < |arena[id].children| && i < |o.children| ::
            Placed(arena, layouts, arena[id].children[i], o.children[i], ax, ay)
  }

  /** `apply_layout`: writes the computed geometry of every node of the subtree. */
  method ApplyLayout(stretch: Flexbox.Stretch, node: nat, o: CapsuleObject, px: real, py: real)
    requires o.Valid() && Flexbox.Closed(stretch.nodes)
    requires node < |stretch.nodes| && |stretch.layouts| == |stretch.nodes|
    modifies o.Repr()
    ensures Placed(stretch.nodes, stretch.layouts, node, o, px, py)
    decreases o.height, 1
  {
    var l := stretch.layouts[node];
    var ax, ay := Offset(px, l.location.x), Offset(py, l.location.y);
    o.computed := ComputedStyling(ax, ay, l.size.width, l.size.height);
    var kidNodes := stretch.nodes[node].children;
    var n := if |kidNodes| < |o.children| then |kidNodes| else |o.children|;
    for i := 0 to n
      invariant o.computed == ComputedStyling(ax, ay, l.size.width, l.size.height)
      invariant forall k | 0 <= k < i :: Placed(stretch.nodes, stretch.layouts, kidNodes[k], o.children[k], ax, ay)
    {
      ApplyToChild(stretch, kidNodes, o, i, ax, ay);
    }
  }

  /** One turn of `apply_layout`'s loop: the recursive call on child `i`, which leaves
      the children already placed where they were. */
  method ApplyToChild(stretch: Flexbox.Stretch, kidNodes: seq<nat>, o: CapsuleObject, i: nat, ax: real, ay: real)
    requires o.Valid() && Flexbox.Closed(stretch.nodes) && |stretch.layouts| == |stretch.nodes|
    requires i < |o.children| && i < |kidNodes| && kidNodes[i] < |stretch.nodes|
    requires forall k | 0 <= k < i :: Placed(stretch.nodes, stretch.layouts, kidNodes[k], o.children[k], ax, ay)
    modifies o.children[i].Repr()
    ensures forall k | 0 <= k <= i :: Placed(stretch.nodes, stretch.layouts, kidNodes[k], o.children[k], ax, ay)
    decreases o.height, 0
  {
    ApplyLayout(stretch, kidNodes[i], o.children[i], ax, ay);
    assert forall k | 0 <= k < i :: o.children[k].Repr() !! o.children[i].Repr();
  }

  /** What one layout pass leaves behind: the arena built afresh from the root view's
      children under the window root, which mirrors them, the solver's layouts for that arena, and every
      node below the root view placed from the window's origin. */
  ghost predicate LaidOut(view: CapsuleObject, solver: Flexbox.Solver, arena: seq<Flexbox.StretchNode>, root: nat, layouts: seq<Flexbox.Layout>)
    requires view.Valid()
    reads view.Repr(), view.Styles
  {
    && arena == RootArena([], ValuesOf(view.children, view.height)) && root == |arena| - 1
    && root < |arena| && arena[root].style == ROOT_STYLE
    && MirrorsAll(arena, arena[root].children, ValuesOf(view.children, view.height))
    && |layouts| == |arena|
    && (forall id | 0 <= id < |arena| :: layouts[id] == solver(arena, root, id))
    && (forall i | 0 <= i < |view.children| :: Placed(arena, layouts, arena[root].children[i], view.children[i], 0.0, 0.0))
  }

  /** The root of the arena as `compute_layout` builds it: one `build_node` per child of
      the root view, in order, under a node with the window style, added last. */
  method BuildRoot(stretch: Flexbox.Stretch, view: CapsuleObject, ghost vs: seq<NodeValue>) returns (rootNode: nat)
    requires view.Valid() && vs == ValuesOf(view.children, view.height)
    modifies stretch
    ensures stretch.nodes == RootArena(old(stretch.nodes), vs)
    ensures rootNode == |stretch.nodes| - 1
    ensures stretch.layouts == old(stretch.layouts)
  {
    ghost var start := stretch.nodes;
    var rootKids := BuildChildren(stretch, view.children, view.height, vs);
    BuiltAllMirrors(start, vs);
    rootNode := stretch.NewNode(ROOT_STYLE, rootKids);
  }

  /** The last loop of `compute_layout`: each child of the root view is placed from the
      window's origin, paired with the root node's children by `zip`. */
  method ApplyToRootChildren(stretch: Flexbox.Stretch, kidNodes: seq<nat>, view: CapsuleObject)
    requires view.Valid() && Flexbox.Closed(stretch.nodes) && |stretch.layouts| == |stretch.nodes|
    requires forall k | 0 <= k < |kidNodes| :: kidNodes[k] < |stretch.nodes|
    modifies view.Descendants
    ensures forall k | 0 <= k < |view.children| && k < |kidNodes| ::
              Placed(stretch.nodes, stretch.layouts, kidNodes[k], view.children[k], 0.0, 0.0)
    ensures view.computed == old(view.computed)
    ensures ValuesOf(view.children, view.height) == old(ValuesOf(view.children, view.height))
  {
    StylesOfAllocated(view.children);
    var n := if |kidNodes| < |view.children| then |kidNodes| else |view.children|;
    for i := 0 to n
      invariant forall k | 0 <= k < i :: Placed(stretch.nodes, stretch.layouts, kidNodes[k], view.children[k], 0.0, 0.0)
      invariant view.computed == old(view.computed)
    {
      ApplyToChild(stretch, kidNodes, view, i, 0.0, 0.0);
    }
  }

  /** `compute_layout`: a fresh arena is built, solved and read back. The root view's own
      geometry is never written. */
  method ComputeLayout(view: CapsuleObject, solver: Flexbox.Solver)
    returns (ghost arena: seq<Flexbox.StretchNode>, ghost root: nat, ghost layouts: seq<Flexbox.Layout>)
    requires view.Valid()
    modifies view.Descendants
    ensures LaidOut(view, solver, arena, root, layouts)
    ensures view.computed == old(view.computed)
  {
    ghost var vs := ValuesOf(view.children, view.height);
    StylesOfAllocated(view.children);
    var stretch := new Flexbox.Stretch();
    var rootNode := BuildRoot(stretch, view, vs);
    stretch.ComputeLayout(rootNode, solver);
    assert ValuesOf(view.children, view.height) == vs;
    arena, root, layouts := stretch.nodes, rootNode, stretch.layouts;
    RootArenaMirrors(vs);
    assert |arena[root].children| == |view.children|;
    ApplyToRootChildren(stretch, stretch.nodes[rootNode].children, view);
  }

  /** Two subtrees carry the same geometry, node for node. */
  ghost predicate SameGeometry(o1: CapsuleObject, o2: CapsuleObject)
    requires o1.Valid() && o2.Valid()
    reads o1.Repr(), o2.Repr()
    decreases o1.height
  {
    && o1.computed == o2.computed
    && |o1.children| == |o2.children|
    && forall i | 0 <= i < |o1.children| :: SameGeometry(o1.children[i], o2.children[i])
  }

  /** Two subtrees with the same value, placed from the same arena node with the same
      layouts and the same parent position, get the same geometry throughout. */
  lemma {:induction false} PlacedAlike(arena: seq<Flexbox.StretchNode>, layouts: seq<Flexbox.Layout>, id: nat,
                                       v: NodeValue, o1: CapsuleObject, o2: CapsuleObject, px: real, py: real)
    requires o1.Valid() && o2.Valid() && ValueOf(o1) == v && ValueOf(o2) == v && Mirrors(arena, id, v)
    requires Placed(arena, layouts, id, o1, px, py) && Placed(arena, layouts, id, o2, px, py)
    ensures SameGeometry(o1, o2)
    decreases o1.height, 1
  {
    forall i | 0 <= i < |o1.children|
      ensures SameGeometry(o1.children[i], o2.children[i])
    {
      PlacedAlikeChild(arena, layouts, id, v, o1, o2, px, py, i);
    }
  }

  /** One child in `PlacedAlike`. */
  lemma {:induction false} PlacedAlikeChild(arena: seq<Flexbox.StretchNode>, layouts: seq<Flexbox.Layout>, id: nat,
                                            v: NodeValue, o1: CapsuleObject, o2: CapsuleObject, px: real, py: real, i: nat)
    requires o1.Valid() && o2.Valid() && ValueOf(o1) == v && ValueOf(o2) == v && Mirrors(arena, id, v)
    requires Placed(arena, layouts, id, o1, px, py) && Placed(arena, layouts, id, o2, px, py)
    requires i < |o1.children|
    ensures i < |o2.children| && SameGeometry(o1.children[i], o2.children[i])
    decreases o1.height, 0
  {
    PlacedChild(arena, layouts, id, v, o1, px, py, i);
    PlacedChild(arena, layouts, id, v, o2, px, py, i);
    PlacedAlike(arena, layouts, arena[id].children[i], v.children[i], o1.children[i], o2.children[i],
                Offset(px, layouts[id].location.x), Offset(py, layouts[id].location.y));
  }

  /** Child `i` of a placed subtree that mirrors `v` mirrors child `i` of `v` and is placed
      relative to the subtree's own position. */
  lemma PlacedChild(arena: seq<Flexbox.StretchNode>, layouts: seq<Flexbox.Layout>, id: nat, v: NodeValue,
                    o: CapsuleObject, px: real, py: real, i: nat)
    requires o.Valid() && ValueOf(o) == v && Mirrors(arena, id, v) && Placed(arena, layouts, id, o, px, py)
    requires i < |o.children|
    ensures i < |v.children| && i < |arena[id].children| && o.children[i].Valid()
    ensures ValueOf(o.children[i]) == v.children[i] && Mirrors(arena, arena[id].children[i], v.children[i])
    ensures Placed(arena, layouts, arena[id].children[i], o.children[i],
                   Offset(px, layouts[id].location.x), Offset(py, layouts[id].location.y))
  {
    ValuesOfAt(o.children, o.height, i);
  }

  /** `PlacedAlike` for the subtrees at position `i` of two forests with the same values. */
  lemma PlacedAlikeAt(arena: seq<Flexbox.StretchNode>, layouts: seq<Flexbox.Layout>, ids: seq<nat>, vs: seq<NodeValue>,
                      ns1: seq<CapsuleObject>, ns2: seq<CapsuleObject>, h1: nat, h2: nat, i: nat)
    requires Forest(ns1, h1) && Forest(ns2, h2) && ValuesOf(ns1, h1) == vs && ValuesOf(ns2, h2) == vs
    requires MirrorsAll(arena, ids, vs) && i < |vs|
    requires Placed(arena, layouts, ids[i], ns1[i], 0.0, 0.0) && Placed(arena, layouts, ids[i], ns2[i], 0.0, 0.0)
    ensures SameGeometry(ns1[i], ns2[i])
  {
    ValuesOfAt(ns1, h1, i);
    ValuesOfAt(ns2, h2, i);
    PlacedAlike(arena, layouts, ids[i], vs[i], ns1[i], ns2[i], 0.0, 0.0);
  }

  /** The layout pass depends on the tree's values only: two views whose nodes carry the
      same values are laid out on the same arena with the same layouts, and every node
      below them gets the same geometry, whatever it held before. */
  lemma LayoutDeterministic(v1: CapsuleObject, v2: CapsuleObject, solver: Flexbox.Solver,
                            a1: seq<Flexbox.StretchNode>, r1: nat, l1: seq<Flexbox.Layout>,
                            a2: seq<Flexbox.StretchNode>, r2: nat, l2: seq<Flexbox.Layout>)
    requires v1.Valid() && v2.Valid() && ValuesOf(v1.children, v1.height) == ValuesOf(v2.children, v2.height)
    requires LaidOut(v1, solver, a1, r1, l1) && LaidOut(v2, solver, a2, r2, l2)
    ensures a1 == a2 && r1 == r2 && l1 == l2
    ensures |v1.children| == |v2.children|
    ensures forall i | 0 <= i < |v1.children| :: SameGeometry(v1.children[i], v2.children[i])
  {
    LaidOutArena(v1, v2, solver, a1, r1, l1, a2, r2, l2);
    forall i | 0 <= i < |v1.children|
      ensures SameGeometry(v1.children[i], v2.children[i])
    {
      PlacedAlikeAt(a1, l1, a1[r1].children, ValuesOf(v1.children, v1.height), v1.children, v2.children, v1.height, v2.height, i);
    }
  }

  /** The arena and layouts half of `LayoutDeterministic`. */
  lemma LaidOutArena(v1: CapsuleObject, v2: CapsuleObject, solver: Flexbox.Solver,
                     a1: seq<Flexbox.StretchNode>, r1: nat, l1: seq<Flexbox.Layout>,
                     a2: seq<Flexbox.StretchNode>, r2: nat, l2: seq<Flexbox.Layout>)
    requires v1.Valid() && v2.Valid() && ValuesOf(v1.children, v1.height) == ValuesOf(v2.children, v2.height)
    requires LaidOut(v1, solver, a1, r1, l1) && LaidOut(v2, solver, a2, r2, l2)
    ensures a1 == a2 && r1 == r2 && l1 == l2
  {
  }
}
