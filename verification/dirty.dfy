/**
 * The dirty scan (src/layout/dirty.rs): one walk over every node below the root view
 * reads each node's dirty flag and clears the ones that are set; if any was set, the
 * whole layout is recomputed.
 */
module Dirty {
  import opened Wrappers
  import Flexbox
  import opened Style
  import opened Obj
  import opened Computer

  /** The style cells of the nodes below the root view. */
  ghost function DescendantStyles(view: CapsuleObject): set<Styling> {
    set o | o in view.Descendants :: o.style
  }

  /** Some node below the root view has its dirty flag set. */
  ghost predicate NeedsLayout(view: CapsuleObject)
    reads DescendantStyles(view)
  {
    exists o | o in view.Descendants :: o.style.dirty
  }

  /** The traversal closure of `update_layout`, applied to every visited node in turn:
      a node whose flag is set raises `anyDirty` and has its flag cleared; a clean node's
      cell is not written at all. */
  method ScanAndClear(visits: seq<CapsuleObject>) returns (anyDirty: bool)
    modifies set i | 0 <= i < |visits| && visits[i].style.dirty :: visits[i].style
    ensures anyDirty <==> exists i | 0 <= i < |visits| :: old(visits[i].style.dirty)
    ensures forall i | 0 <= i < |visits| :: visits[i].style.Record() == old(visits[i].style.Record()).(dirty := false)
  {
    anyDirty := false;
    for i := 0 to |visits|
      invariant anyDirty <==> exists j | 0 <= j < i :: old(visits[j].style.dirty)
      invariant forall j | 0 <= j < i :: !visits[j].style.dirty
      invariant forall j | 0 <= j < |visits| ::
        || visits[j].style.Record() == old(visits[j].style.Record())
        || (anyDirty && visits[j].style.Record() == old(visits[j].style.Record()).(dirty := false))
    {
      if visits[i].IsDirty() {
        anyDirty := true;
        visits[i].SetNonDirty();
      }
    }
  }

  /** The scanning block of `update_layout`: `iter_all_objects` with the closure above.
      Every flag below the root view ends up clear, and the result says whether one was set. */
  method ScanDescendants(view: CapsuleObject) returns (anyDirty: bool)
    requires view.Valid()
    modifies DescendantStyles(view)
    ensures anyDirty == old(NeedsLayout(view))
    ensures forall o | o in view.Descendants :: o.style.Record() == old(o.style.Record()).(dirty := false)
    ensures !NeedsLayout(view)
  {
    var visits := IterAllObjects(view);
    IterAllObjectsVisitsEachOnce(view);
    ghost var dirtyNode: Option<CapsuleObject> := None;
    if NeedsLayout(view) {
      ghost var o :| o in view.Descendants && o.style.dirty;
      dirtyNode := Some(o);
    }
    anyDirty := ScanAndClear(visits);
    if dirtyNode.Some? {
      assert dirtyNode.value in visits;
    }
    if anyDirty {
      ghost var i :| 0 <= i < |visits| && visits[i] in view.Descendants && old(visits[i].style.dirty);
    }
  }

  /** `update_layout`. The flags of every node below the root view are cleared, and the
      layout is recomputed exactly when one of them was set. */
  method UpdateLayout(view: CapsuleObject, solver: Flexbox.Solver)
    returns (relaid: bool, ghost arena: seq<Flexbox.StretchNode>, ghost root: nat, ghost layouts: seq<Flexbox.Layout>)
    requires view.Valid()
    modifies DescendantStyles(view), view.Descendants
    ensures relaid == old(NeedsLayout(view))
    ensures forall o | o in view.Descendants :: o.style.Record() == old(o.style.Record()).(dirty := false)
    ensures !NeedsLayout(view)
    ensures relaid ==> LaidOut(view, solver, arena, root, layouts)
    ensures !relaid ==> forall o | o in view.Descendants :: o.computed == old(o.computed)
    ensures view.computed == old(view.computed)
    ensures view.style !in DescendantStyles(view) ==> view.style.Record() == old(view.style.Record())
  {
    relaid := ScanDescendants(view);
    arena, root, layouts := [], 0, [];
    if relaid {
      arena, root, layouts := ComputeLayout(view, solver);
    }
  }

  /** Two passes with nothing changed in between: the second finds every flag clear and
      does not lay out again. */
  method UpdateLayoutTwice(view: CapsuleObject, solver: Flexbox.Solver) returns (first: bool, second: bool)
    requires view.Valid()
    modifies DescendantStyles(view), view.Descendants
    ensures first == old(NeedsLayout(view))
    ensures !second
  {
    ghost var arena, root, layouts;
    first, arena, root, layouts := UpdateLayout(view, solver);
    second, arena, root, layouts := UpdateLayout(view, solver);
  }
}
