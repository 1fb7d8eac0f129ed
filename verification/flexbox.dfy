/**
 * The parts of the `stretch` flexbox crate that the layout code talks to: its style
 * enums, its `Style` record, the per-node `Layout` it computes, and the node arena
 * (`Stretch`) that `new_node`, `children` and `layout` operate on. The solver itself
 * is foreign code; it enters the model as a host function `Solver`.
 */
module Flexbox {

  datatype AlignItems = FlexStart | FlexEnd | Center | Baseline | Stretch

  datatype JustifyContent = FlexStart | FlexEnd | Center | SpaceBetween | SpaceAround | SpaceEvenly

  datatype FlexDirection = Row | Column | RowReverse | ColumnReverse

  /** Coordinates and lengths are f32 in the crate; the model uses exact reals. */
  datatype Dimension = Undefined | Auto | Points(points: real) | Percent(percent: real)

  datatype Size<T> = Size(width: T, height: T)

  datatype Point = Point(x: real, y: real)

  /** The fields of `stretch::style::Style` that the layout code sets; the crate's
      other style fields keep their defaults and are not modelled. */
  datatype Style = Style(
    size: Size<Dimension>,
    alignItems: AlignItems,
    justifyContent: JustifyContent,
    flexDirection: FlexDirection)

  /** `Style::default()` for the modelled fields. */
  function DefaultStyle(): Style {
    Style(Size(Auto, Auto), AlignItems.Stretch, JustifyContent.FlexStart, FlexDirection.Row)
  }

  /** What the solver reports for one node: its size and its position relative to its parent. */
  datatype Layout = Layout(size: Size<real>, location: Point)

  /** One node of the arena: its style and the ids of its children, in order. */
  datatype StretchNode = StretchNode(style: Style, children: seq<nat>)

  /**
   * The solver, supplied by the host: given the arena and the root it was asked to lay
   * out, the layout of any node id. Because it is a function, the same arena always
   * yields the same geometry; because children are read from the arena, the solved
   * tree has the shape that was built.
   */
  type Solver = (seq<StretchNode>, nat, nat) -> Layout

  /** Every child id in the arena names a node of the arena. */
  ghost predicate Closed(nodes: seq<StretchNode>) {
    forall i, j | 0 <= i < |nodes| && 0 <= j < |nodes[i].children| :: nodes[i].children[j] < |nodes|
  }

  /** `b` is `a` with nodes appended. */
  ghost predicate Extends(b: seq<StretchNode>, a: seq<StretchNode>) {
    |a| <= |b| && forall i | 0 <= i < |a| :: b[i] == a[i]
  }

  lemma ExtendsTrans(c: seq<StretchNode>, b: seq<StretchNode>, a: seq<StretchNode>)
    requires Extends(c, b) && Extends(b, a)
    ensures Extends(c, a)
  {
  }

  /** Appending a node whose children already exist keeps the arena closed. */
  lemma ClosedSnoc(nodes: seq<StretchNode>, node: StretchNode)
    requires Closed(nodes) && forall j | 0 <= j < |node.children| :: node.children[j] < |nodes|
    ensures Closed(nodes + [node])
  {
  }

  /** The node arena. Node ids are indices into `nodes`. */
  class Stretch {
    var nodes: seq<StretchNode>
    var layouts: seq<Layout>

    constructor ()
      ensures nodes == [] && layouts == []
    {
      nodes := [];
      layouts := [];
    }

    /** `new_node`: appends a node and returns its id; the children must already exist. */
    method NewNode(style: Style, children: seq<nat>) returns (id: nat)
      requires forall j | 0 <= j < |children| :: children[j] < |nodes|
      modifies this
      ensures nodes == old(nodes) + [StretchNode(style, children)]
      ensures id == |old(nodes)| && nodes[id].children == children
      ensures layouts == old(layouts)
    {
      id := |nodes|;
      nodes := nodes + [StretchNode(style, children)];
      assert forall i | 0 <= i < id :: nodes[i] == old(nodes)[i];
    }

    /** `compute_layout`: asks the solver for the layout of every node; the tree is unchanged. */
    method ComputeLayout(root: nat, solver: Solver)
      modifies this
      ensures nodes == old(nodes)
      ensures |layouts| == |nodes|
      ensures forall id :: 0 <= id < |nodes| ==> layouts[id] == solver(nodes, root, id)
    {
      var n := nodes;
      layouts := seq(|n|, (id: nat) => solver(n, root, id));
    }
  }
}
