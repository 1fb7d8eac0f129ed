/**
 * The capsule markup parser (src/capsule/parser.rs): a `<capsule>` document holding
 * `<meta>` and `<view>` elements becomes a `Capsule` whose view is a tree of
 * `CapsuleObject`s. Every `panic!`, `assert!` and `unwrap` that can fail in the source
 * is a `Failure` here, carrying which check failed.
 */
module Parser {
  import opened Wrappers
  import opened Xml
  import opened Style
  import opened Obj
  import Align
  import Justify
  import FlexDir
  import Dimension

  datatype ParseError =
    | BadAlign(align: string)
    | BadJustify(justify: string)
    | MissingText(tag: string)
    | UnknownTag(tag: string)
    | WrongElement(expected: string, found: string)
    | BadRootChild(tag: string)

  /** What `measure_text` reports. */
  datatype TextDimensions = TextDimensions(width: real, height: real)

  /** The outside code the parser calls: Rust's `str::parse::<f32>` and the renderer's
      `measure_text` at a font size. */
  datatype ParseHost = ParseHost(
    parseF32: string -> Option<real>,
    measureText: (string, u16) -> TextDimensions)

  // ---------------------------------------------------------------------------
  // Attribute keywords

  /** The markup's keyword for each align variant: the lower-case name without separators. */
  function AlignKeyword(a: Align.COAlignItems): string {
    match a
    case FlexStart => "flexstart"
    case FlexEnd => "flexend"
    case Center => "center"
    case Baseline => "baseline"
    case Stretch => "stretch"
  }

  /** The `align` attribute's match: one of the five keywords, nothing else. */
  function ParseAlign(v: string): (r: Option<Align.COAlignItems>)
    ensures r.Some? ==> AlignKeyword(r.value) == v
  {
    if v == "flexstart" then Some(Align.FlexStart)
    else if v == "flexend" then Some(Align.FlexEnd)
    else if v == "center" then Some(Align.Center)
    else if v == "baseline" then Some(Align.Baseline)
    else if v == "stretch" then Some(Align.Stretch)
    else None
  }

  /** Exactly five align keywords are accepted, and each names its own variant. */
  lemma AlignKeywords(v: string, a: Align.COAlignItems)
    ensures ParseAlign(v).Some? <==> v in {"flexstart", "flexend", "center", "baseline", "stretch"}
    ensures ParseAlign(AlignKeyword(a)) == Some(a)
  {
  }

  /** The markup and strum's names agree only on the one-word variants: each vocabulary
      rejects the other's spelling of `FlexStart` and `FlexEnd`. */
  lemma AlignVocabularies(a: Align.COAlignItems)
    ensures AlignKeyword(a) == Align.AsRef(a) <==> !(a.FlexStart? || a.FlexEnd?)
    ensures Align.FromStr(AlignKeyword(a)).Some? <==> !(a.FlexStart? || a.FlexEnd?)
    ensures ParseAlign(Align.AsRef(a)).Some? <==> !(a.FlexStart? || a.FlexEnd?)
  {
    assert "flexstart" != "flex_start" by { assert "flexstart"[4] != "flex_start"[4]; }
    assert "flexend" != "flex_end" by { assert "flexend"[4] != "flex_end"[4]; }
  }

  /** The markup's keyword for each justify variant. */
  function JustifyKeyword(j: Justify.COJustifyContent): string {
    match j
    case FlexStart => "flexstart"
    case FlexEnd => "flexend"
    case Center => "center"
    case SpaceBetween => "spacebetween"
    case SpaceAround => "spacearound"
    case SpaceEvenly => "spaceevenly"
  }

  /** The `justify` attribute's match: one of the six keywords, nothing else. */
  function ParseJustify(v: string): (r: Option<Justify.COJustifyContent>)
    ensures r.Some? ==> JustifyKeyword(r.value) == v
  {
    if v == "flexstart" then Some(Justify.FlexStart)
    else if v == "flexend" then Some(Justify.FlexEnd)
    else if v == "center" then Some(Justify.Center)
    else if v == "spacebetween" then Some(Justify.SpaceBetween)
    else if v == "spacearound" then Some(Justify.SpaceAround)
    else if v == "spaceevenly" then Some(Justify.SpaceEvenly)
    else None
  }

  /** Exactly six justify keywords are accepted, and each names its own variant. */
  lemma JustifyKeywords(v: string, j: Justify.COJustifyContent)
    ensures ParseJustify(v).Some? <==>
      v in {"flexstart", "flexend", "center", "spacebetween", "spacearound", "spaceevenly"}
    ensures ParseJustify(JustifyKeyword(j)) == Some(j)
  {
  }

  /** Only `center` is spelled alike in the markup and by strum. */
  lemma JustifyVocabularies(j: Justify.COJustifyContent)
    ensures JustifyKeyword(j) == Justify.AsRef(j) <==> j.Center?
    ensures Justify.FromStr(JustifyKeyword(j)).Some? <==> j.Center?
    ensures ParseJustify(Justify.AsRef(j)).Some? <==> j.Center?
  {
    assert "flexstart" != "flex_start" by { assert "flexstart"[4] != "flex_start"[4]; }
    assert "flexend" != "flex_end" by { assert "flexend"[4] != "flex_end"[4]; }
    assert "spacebetween" != "space_between" by { assert "spacebetween"[5] != "space_between"[5]; }
    assert "spacearound" != "space_around" by { assert "spacearound"[5] != "space_around"[5]; }
    assert "spaceevenly" != "space_evenly" by { assert "spaceevenly"[5] != "space_evenly"[5]; }
  }

  // ---------------------------------------------------------------------------
  // The style of one element

  /** A `width` or `height` attribute that parses as a number, as points; an attribute
      that does not parse is ignored (the source only logs a warning). */
  function SizeAttribute(x: XmlNode, name: string, host: ParseHost): (r: Option<Dimension.CODimension>)
    ensures r.Some? <==> Attribute(x, name).Some? && host.parseF32(Attribute(x, name).value).Some?
    ensures r.Some? ==> r.value == Dimension.Points(host.parseF32(Attribute(x, name).value).value)
  {
    var v := Attribute(x, name);
    if v.Some? && host.parseF32(v.value).Some? then Some(Dimension.Points(host.parseF32(v.value).value))
    else None
  }

  /** The size `measure_text` gives a text at the record's font size, as points. */
  function Measured(s: StyleRecord, text: string, host: ParseHost): StyleRecord {
    var m := host.measureText(text, s.fontSize);
    s.(width := Some(Dimension.Points(m.width)), height := Some(Dimension.Points(m.height)))
  }

  /** The style `parse_child` builds for an element, step by step from the default:
      align, justify, the measured size of a `text` element, then explicit width and height. */
  function ElementStyle(x: XmlNode, host: ParseHost): Result<StyleRecord, ParseError>
    requires x.Element?
  {
    var align := Attribute(x, "align");
    var justify := Attribute(x, "justify");
    if align.Some? && ParseAlign(align.value).None? then Failure(BadAlign(align.value))
    else if justify.Some? && ParseJustify(justify.value).None? then Failure(BadJustify(justify.value))
    else if x.tag == "text" && NodeText(x).None? then Failure(MissingText(x.tag))
    else
      var s0 := DefaultStyling();
      var s1 := if align.Some? then s0.(align := ParseAlign(align.value).value) else s0;
      var s2 := if justify.Some? then s1.(justify := ParseJustify(justify.value).value) else s1;
      var s3 := if x.tag == "text" then Measured(s2, NodeText(x).value, host) else s2;
      var w, h := SizeAttribute(x, "width", host), SizeAttribute(x, "height", host);
      var s4 := if w.Some? then s3.(width := w) else s3;
      Success(if h.Some? then s4.(height := h) else s4)
  }

  /**
   * What the style of an element is, field by field: it fails exactly on a bad align or
   * justify keyword or a `text` element without text, in that order of precedence; an
   * explicit numeric size wins over the measured one, which is taken at the default font
   * size; everything the markup cannot set keeps its default, and the record is clean.
   */
  lemma ElementStyleMeaning(x: XmlNode, host: ParseHost)
    requires x.Element?
    ensures var r := ElementStyle(x, host);
      var align, justify := Attribute(x, "align"), Attribute(x, "justify");
      && (r.Success? <==>
           && (align.None? || ParseAlign(align.value).Some?)
           && (justify.None? || ParseJustify(justify.value).Some?)
           && (x.tag == "text" ==> NodeText(x).Some?))
      && (align.Some? && ParseAlign(align.value).None? ==> r == Failure(BadAlign(align.value)))
      && (r.Success? ==>
           && r.value.align == (if align.Some? then ParseAlign(align.value).value else Align.DEFAULT)
           && r.value.justify == (if justify.Some? then ParseJustify(justify.value).value else Justify.DEFAULT))
    ensures var r := ElementStyle(x, host);
      var w, h := SizeAttribute(x, "width", host), SizeAttribute(x, "height", host);
      r.Success? ==>
        var m := host.measureText(NodeText(x).GetOr(""), DEFAULT_TEXT_SIZE);
        && r.value.width ==
             (if w.Some? then w else if x.tag == "text" then Some(Dimension.Points(m.width)) else None)
        && r.value.height ==
             (if h.Some? then h else if x.tag == "text" then Some(Dimension.Points(m.height)) else None)
        && r.value.flexdir == FlexDir.DEFAULT && r.value.fontSize == DEFAULT_TEXT_SIZE
        && r.value.color == None && r.value.backgroundColor == None && !r.value.dirty
  {
  }

  /** `parse_child`'s style block, on a fresh `Styling` that it assigns field by field. */
  method ParseStyle(x: XmlNode, host: ParseHost) returns (r: Result<Styling, ParseError>)
    requires x.Element?
    ensures r.Failure? <==> ElementStyle(x, host).Failure?
    ensures r.Failure? ==> r.error == ElementStyle(x, host).error
    ensures r.Success? ==> fresh(r.value) && r.value.Record() == ElementStyle(x, host).value
  {
    var style := new Styling.Default();
    var align := Attribute(x, "align");
    if align.Some? {
      var a := ParseAlign(align.value);
      if a.None? {
        return Failure(BadAlign(align.value));
      }
      style.align := a.value;
    }
    var justify := Attribute(x, "justify");
    if justify.Some? {
      var j := ParseJustify(justify.value);
      if j.None? {
        return Failure(BadJustify(justify.value));
      }
      style.justify := j.value;
    }
    if x.tag == "text" {
      var text := NodeText(x);
      if text.None? {
        return Failure(MissingText(x.tag));
      }
      var m := host.measureText(text.value, style.fontSize);
      style.width := Some(Dimension.Points(m.width));
      style.height := Some(Dimension.Points(m.height));
    }
    var width := Attribute(x, "width");
    if width.Some? {
      var w := host.parseF32(width.value);
      if w.Some? {
        style.width := Some(Dimension.Points(w.value));
      }
    }
    var height := Attribute(x, "height");
    if height.Some? {
      var h := host.parseF32(height.value);
      if h.Some? {
        style.height := Some(Dimension.Points(h.value));
      }
    }
    r := Success(style);
  }

  // ---------------------------------------------------------------------------
  // The node tree, as values

  /** The node `parse_child` makes of an XML node: nothing for text, a `CSText` or
      `CSObj` holding the parsed element children for the two known tags. */
  function ChildTree(x: XmlNode, host: ParseHost): (r: Result<Option<NodeValue>, ParseError>)
    ensures x.Text? ==> r == Success(None)
    ensures x.Element? && r.Success? ==> r.value.Some?
    ensures x.Element? && x.tag != "text" && x.tag != "obj" ==> r.Failure?
    decreases x, 1
  {
    if x.Text? then Success(None)
    else
      var kids :- ChildTrees(x, |x.children|, host);
      var style :- ElementStyle(x, host);
      if x.tag == "text" then Success(Some(NodeValue(CSText(NodeText(x).value), None, [], style, kids)))
      else if x.tag == "obj" then Success(Some(NodeValue(CSObj, None, [], style, kids)))
      else Failure(UnknownTag(x.tag))
  }

  /**
   * What `parse_child` makes of an element: the children's failure comes first, then the
   * style's, then an unknown tag; a success is a `CSText` holding the element's text for
   * `text` and a `CSObj` for `obj`, with no identifier, no event, the element's style and
   * its parsed children.
   */
  lemma ChildTreeMeaning(x: XmlNode, host: ParseHost)
    requires x.Element?
    ensures var r, kids, style := ChildTree(x, host), ChildTrees(x, |x.children|, host), ElementStyle(x, host);
      && (r.Success? <==> kids.Success? && style.Success? && (x.tag == "text" || x.tag == "obj"))
      && (kids.Failure? ==> r == Failure(kids.error))
      && (kids.Success? && style.Failure? ==> r == Failure(style.error))
      && (kids.Success? && style.Success? && x.tag != "text" && x.tag != "obj" ==> r == Failure(UnknownTag(x.tag)))
    ensures var r := ChildTree(x, host);
      r.Success? ==>
        && r.value.Some?
        && r.value.value.kind == (if x.tag == "text" then CSText(NodeText(x).value) else CSObj)
        && r.value.value.id == None && r.value.value.events == []
        && r.value.value.style == ElementStyle(x, host).value
        && r.value.value.children == ChildTrees(x, |x.children|, host).value
  {
  }

  /** The nodes made of the first `n` children of `p`, in document order; the first
      failure among them is the result. */
  function ChildTrees(p: XmlNode, n: nat, host: ParseHost): (r: Result<seq<NodeValue>, ParseError>)
    requires p.Element? && n <= |p.children|
    ensures r.Success? ==> |r.value| <= n
    decreases p, 0, n
  {
    if n == 0 then Success([])
    else
      var init :- ChildTrees(p, n - 1, host);
      var c :- ChildTree(p.children[n - 1], host);
      Success(if c.Some? then init + [c.value] else init)
  }

  /** Once a prefix of the children fails, so does every longer prefix, with the same error. */
  lemma {:induction false} ChildTreesFailed(p: XmlNode, k: nat, n: nat, host: ParseHost)
    requires p.Element? && k <= n <= |p.children|
    requires ChildTrees(p, k, host).Failure?
    ensures ChildTrees(p, n, host) == ChildTrees(p, k, host)
    decreases n
  {
    if k < n {
      ChildTreesFailed(p, k, n - 1, host);
    }
  }

  /** The parsed children are the element children, in document order, each parsed on its own. */
  lemma {:induction false} ChildTreesInOrder(p: XmlNode, n: nat, host: ParseHost)
    requires p.Element? && n <= |p.children|
    requires ChildTrees(p, n, host).Success?
    ensures var vs, es := ChildTrees(p, n, host).value, ElementsOf(p.children[..n]);
      && |vs| == |es|
      && forall i | 0 <= i < |vs| :: ChildTree(es[i], host) == Success(Some(vs[i]))
  {
    if n > 0 {
      ChildTreesInOrder(p, n - 1, host);
      assert p.children[..n][..n - 1] == p.children[..n - 1];
    }
  }

  /** The children fail exactly when one of them fails, and then with the error of the
      first one that does. */
  lemma {:induction false} ChildTreesFailure(p: XmlNode, n: nat, host: ParseHost)
    requires p.Element? && n <= |p.children|
    ensures ChildTrees(p, n, host).Failure? <==> exists i | 0 <= i < n :: ChildTree(p.children[i], host).Failure?
    ensures ChildTrees(p, n, host).Failure? ==>
      exists i | 0 <= i < n ::
        && ChildTree(p.children[i], host) == Failure(ChildTrees(p, n, host).error)
        && forall j | 0 <= j < i :: ChildTree(p.children[j], host).Success?
  {
    if n > 0 {
      ChildTreesFailure(p, n - 1, host);
    }
  }

  /** A node value and every node below it have a clean style record. */
  ghost predicate Clean(v: NodeValue) {
    !v.style.dirty && forall i | 0 <= i < |v.children| :: Clean(v.children[i])
  }

  /** Parsing marks nothing dirty: the first layout pass after parsing has nothing to do
      until a script changes a style. */
  lemma {:induction false} ChildTreeClean(x: XmlNode, host: ParseHost)
    requires ChildTree(x, host).Success? && ChildTree(x, host).value.Some?
    ensures Clean(ChildTree(x, host).value.value)
    decreases x, 1
  {
    ChildTreesClean(x, |x.children|, host);
    ElementStyleMeaning(x, host);
  }

  lemma {:induction false} ChildTreesClean(p: XmlNode, n: nat, host: ParseHost)
    requires p.Element? && n <= |p.children|
    requires ChildTrees(p, n, host).Success?
    ensures forall i | 0 <= i < |ChildTrees(p, n, host).value| :: Clean(ChildTrees(p, n, host).value[i])
    decreases p, 0, n
  {
    if n > 0 {
      ChildTreesClean(p, n - 1, host);
      var c := ChildTree(p.children[n - 1], host);
      if c.value.Some? {
        ChildTreeClean(p.children[n - 1], host);
      }
    }
  }

  // ---------------------------------------------------------------------------
  // The node tree, as objects

  /** The objects `kids` are the node values `vs`, one for one. */
  ghost predicate Describes(kids: seq<CapsuleObject>, vs: seq<NodeValue>)
    requires AllValid(kids)
    reads StylesOf(kids)
  {
    vs == ValuesOf(kids, MaxHeight(kids) + 1)
  }

  /** The object result `r` is the node the value result `spec` describes. */
  ghost predicate Builds(r: Result<Option<CapsuleObject>, ParseError>, spec: Result<Option<NodeValue>, ParseError>)
    reads if r.Success? && r.value.Some? then r.value.value.Styles else {}
  {
    && (r.Failure? <==> spec.Failure?)
    && (r.Failure? ==> r.error == spec.error)
    && (r.Success? ==> (r.value.Some? <==> spec.value.Some?))
    && (r.Success? && r.value.Some? ==> r.value.value.Valid() && ValueOf(r.value.value) == spec.value.value)
  }

  /** `parse_child`: the element's children first, then its style, then the node. */
  method ParseChild(x: XmlNode, host: ParseHost) returns (r: Result<Option<CapsuleObject>, ParseError>)
    ensures Builds(r, ChildTree(x, host))
    ensures r.Success? && r.value.Some? ==> fresh(r.value.value.Repr()) && fresh(r.value.value.Styles)
    decreases x, 2
  {
    if x.Text? {
      return Success(None);
    }
    var kids := ParseChildren(x, host);
    if kids.Failure? {
      return Failure(kids.error);
    }
    StylesOfAllocated(kids.value);
    var style := ParseStyle(x, host);
    if style.Failure? {
      return Failure(style.error);
    }
    r := NewChild(x, host, kids.value, style.value);
  }

  /** The end of `parse_child`: the tag chooses the kind of node made over the parsed
      children and style. */
  method NewChild(x: XmlNode, host: ParseHost, kids: seq<CapsuleObject>, style: Styling)
    returns (r: Result<Option<CapsuleObject>, ParseError>)
    requires x.Element? && ChildTrees(x, |x.children|, host).Success? && ElementStyle(x, host).Success?
    requires AllValid(kids) && Disjoint(kids) && Describes(kids, ChildTrees(x, |x.children|, host).value)
    requires style.Record() == ElementStyle(x, host).value
    ensures Builds(r, ChildTree(x, host))
    ensures r.Success? && r.value.Some? ==>
      && fresh(r.value.value)
      && r.value.value.Repr() == {r.value.value} + ReprOf(kids)
      && r.value.value.Styles == {style} + StylesOf(kids)
  {
    var kind: ObjKind;
    if x.tag == "text" {
      kind := CSText(NodeText(x).value);
    } else if x.tag == "obj" {
      kind := CSObj;
    } else {
      return Failure(UnknownTag(x.tag));
    }
    StylesOfAllocated(kids);
    var o := new CapsuleObject(kind, CreationContext(None, kids, [], style));
    ValueOfNode(o, ChildTrees(x, |x.children|, host).value);
    r := Success(Some(o));
  }

  /** The value of a node built over described children. */
  lemma ValueOfNode(o: CapsuleObject, vs: seq<NodeValue>)
    requires o.Valid() && AllValid(o.children) && o.height == MaxHeight(o.children) + 1
    requires Describes(o.children, vs)
    ensures ValueOf(o) == NodeValue(o.kind, o.id, o.events, o.style.Record(), vs)
  {
  }

  /** The loop of `parse_child` and `parse_capsule_view` over an element's children:
      each child is parsed in order and the nodes kept. */
  method ParseChildren(p: XmlNode, host: ParseHost) returns (r: Result<seq<CapsuleObject>, ParseError>)
    requires p.Element?
    ensures r.Failure? <==> ChildTrees(p, |p.children|, host).Failure?
    ensures r.Failure? ==> r.error == ChildTrees(p, |p.children|, host).error
    ensures r.Success? ==> && AllValid(r.value) && Disjoint(r.value)
                           && Describes(r.value, ChildTrees(p, |p.children|, host).value)
    ensures r.Success? ==> fresh(ReprOf(r.value)) && fresh(StylesOf(r.value))
    decreases p, 1
  {
    var kids: seq<CapsuleObject> := [];
    for k := 0 to |p.children|
      invariant ChildTrees(p, k, host).Success?
      invariant AllValid(kids) && Disjoint(kids) && Describes(kids, ChildTrees(p, k, host).value)
      invariant fresh(ReprOf(kids)) && fresh(StylesOf(kids))
    {
      var next := ParseNextChild(p, k, host, kids);
      if next.Failure? {
        ChildTreesFailed(p, k + 1, |p.children|, host);
        return Failure(next.error);
      }
      kids := next.value;
    }
    r := Success(kids);
  }

  /** One turn of that loop: child `k` is parsed and its node, if any, kept after the
      nodes of the children before it. */
  method ParseNextChild(p: XmlNode, k: nat, host: ParseHost, kids: seq<CapsuleObject>)
    returns (r: Result<seq<CapsuleObject>, ParseError>)
    requires p.Element? && k < |p.children| && ChildTrees(p, k, host).Success?
    requires AllValid(kids) && Disjoint(kids) && Describes(kids, ChildTrees(p, k, host).value)
    ensures r.Failure? <==> ChildTrees(p, k + 1, host).Failure?
    ensures r.Failure? ==> r.error == ChildTrees(p, k + 1, host).error
    ensures r.Success? ==> && AllValid(r.value) && Disjoint(r.value)
                           && Describes(r.value, ChildTrees(p, k + 1, host).value)
    ensures r.Success? ==> forall o | o in ReprOf(r.value) && o !in ReprOf(kids) :: fresh(o)
    ensures r.Success? ==> forall c | c in StylesOf(r.value) && c !in StylesOf(kids) :: fresh(c)
    decreases p, 0
  {
    ReprOfAllocated(kids);
    StylesOfAllocated(kids);
    var c := ParseChild(p.children[k], host);
    ChildTreesStep(p, k, host);
    if c.Failure? {
      return Failure(c.error);
    }
    if c.value.None? {
      return Success(kids);
    }
    var o := c.value.value;
    assert o.Repr() !! ReprOf(kids);
    SnocChild(kids, o, ChildTrees(p, k, host).value);
    r := Success(kids + [o]);
  }

  /** One more child: its node, if any, is appended to the nodes before it. */
  lemma ChildTreesStep(p: XmlNode, k: nat, host: ParseHost)
    requires p.Element? && k < |p.children| && ChildTrees(p, k, host).Success?
    ensures var c := ChildTree(p.children[k], host);
      && (c.Failure? ==> ChildTrees(p, k + 1, host) == Failure(c.error))
      && (c.Success? && c.value.None? ==> ChildTrees(p, k + 1, host) == ChildTrees(p, k, host))
      && (c.Success? && c.value.Some? ==>
            ChildTrees(p, k + 1, host) == Success(ChildTrees(p, k, host).value + [c.value.value]))
  {
  }

  /** What appending a separate, well-formed subtree to a list of subtrees keeps. */
  lemma SnocChild(kids: seq<CapsuleObject>, o: CapsuleObject, vs: seq<NodeValue>)
    requires AllValid(kids) && Disjoint(kids) && Describes(kids, vs)
    requires o.Valid() && o.Repr() !! ReprOf(kids)
    ensures AllValid(kids + [o]) && Disjoint(kids + [o]) && Describes(kids + [o], vs + [ValueOf(o)])
    ensures ReprOf(kids + [o]) == ReprOf(kids) + o.Repr()
    ensures StylesOf(kids + [o]) == StylesOf(kids) + o.Styles
  {
    SnocShape(kids, o);
    SnocValues(kids, o, vs);
  }

  lemma SnocShape(kids: seq<CapsuleObject>, o: CapsuleObject)
    requires AllValid(kids) && Disjoint(kids) && o.Valid() && o.Repr() !! ReprOf(kids)
    ensures AllValid(kids + [o]) && Disjoint(kids + [o])
    ensures ReprOf(kids + [o]) == ReprOf(kids) + o.Repr()
    ensures StylesOf(kids + [o]) == StylesOf(kids) + o.Styles
  {
    var ks := kids + [o];
    assert ks[..|kids|] == kids;
    assert ks[|kids|] == o;
    ReprOfCovers(kids);
    assert forall i | 0 <= i < |kids| :: ks[i] == kids[i];
  }

  lemma SnocValues(kids: seq<CapsuleObject>, o: CapsuleObject, vs: seq<NodeValue>)
    requires AllValid(kids) && o.Valid() && Describes(kids, vs)
    ensures AllValid(kids + [o]) && Describes(kids + [o], vs + [ValueOf(o)])
  {
    var ks := kids + [o];
    assert forall i | 0 <= i < |kids| :: ks[i] == kids[i];
    assert ks[|kids|] == o;
    var h := MaxHeight(ks) + 1;
    ValuesOfSnoc(kids, o, h);
    ValuesOfHeight(kids, h, MaxHeight(kids) + 1);
  }

  /** Every node of the subtrees exists in the current heap. */
  lemma {:induction false} ReprOfAllocated(ns: seq<CapsuleObject>)
    ensures forall o | o in ReprOf(ns) :: allocated(o)
  {
    if ns != [] {
      ReprOfAllocated(ns[..|ns| - 1]);
    }
  }

  // ---------------------------------------------------------------------------
  // The view, the metadata and the capsule

  /** The value `parse_capsule_view` makes of a `view` element: the default root view
      holding the element's parsed children. */
  function ViewTree(x: XmlNode, host: ParseHost): Result<NodeValue, ParseError> {
    if TagName(x) != "view" then Failure(WrongElement("view", TagName(x)))
    else
      var kids :- ChildTrees(x, |x.children|, host);
      Success(EMPTY_VIEW.(children := kids))
  }

  /** `parse_capsule_view`. */
  method ParseCapsuleView(x: XmlNode, host: ParseHost) returns (r: Result<CapsuleObject, ParseError>)
    ensures r.Failure? <==> ViewTree(x, host).Failure?
    ensures r.Failure? ==> r.error == ViewTree(x, host).error
    ensures r.Success? ==> && r.value.Valid() && fresh(r.value.Repr()) && fresh(r.value.Styles)
                           && ValueOf(r.value) == ViewTree(x, host).value
  {
    if TagName(x) != "view" {
      return Failure(WrongElement("view", TagName(x)));
    }
    var kids := ParseChildren(x, host);
    if kids.Failure? {
      return Failure(kids.error);
    }
    StylesOfAllocated(kids.value);
    var style := new Styling.Default();
    var view := new CapsuleObject(CapsuleView, CreationContext(None, kids.value, [], style));
    ValueOfNode(view, ChildTrees(x, |x.children|, host).value);
    r := Success(view);
  }

  /** The position of the first element named `tag` among `xs`. */
  function FirstTagged(xs: seq<XmlNode>, tag: string): (r: Option<nat>)
    ensures r.Some? ==> r.value < |xs| && TagName(xs[r.value]) == tag
    ensures r.Some? ==> forall j | 0 <= j < r.value :: TagName(xs[j]) != tag
    ensures r.None? ==> forall j | 0 <= j < |xs| :: TagName(xs[j]) != tag
  {
    if xs == [] then None
    else if TagName(xs[0]) == tag then Some(0)
    else
      match FirstTagged(xs[1..], tag)
      case None => None
      case Some(i) => Some(i + 1)
  }

  /** `parse_capsule_meta`: the text of the first `title` child, if there is one. */
  function ParseCapsuleMeta(x: XmlNode): (r: Result<CapsuleMeta, ParseError>)
    ensures TagName(x) != "meta" ==> r == Failure(WrongElement("meta", TagName(x)))
    ensures TagName(x) == "meta" && r.Failure? ==> r.error == MissingText("title")
    ensures r.Success? ==> r.value.scripts == []
  {
    if TagName(x) != "meta" then Failure(WrongElement("meta", TagName(x)))
    else
      match FirstTagged(x.children, "title")
      case None => Success(DEFAULT_META)
      case Some(i) =>
        if NodeText(x.children[i]).None? then Failure(MissingText("title"))
        else Success(DEFAULT_META.(title := NodeText(x.children[i]).value))
  }

  /** Without a `title` child the metadata is the default: empty title, no script. */
  lemma MetaWithoutTitle(x: XmlNode)
    requires x.Element? && x.tag == "meta"
    requires forall k | 0 <= k < |x.children| :: TagName(x.children[k]) != "title"
    ensures ParseCapsuleMeta(x) == Success(CapsuleMeta("", []))
  {
    assert FirstTagged(x.children, "title").None?;
  }

  /** The title is the text of the first `title` child, whatever follows it; a first
      `title` without text is an error; no script is collected. */
  lemma MetaTitle(x: XmlNode, i: nat)
    requires x.Element? && x.tag == "meta"
    requires i < |x.children| && TagName(x.children[i]) == "title"
    requires forall j | 0 <= j < i :: TagName(x.children[j]) != "title"
    ensures ParseCapsuleMeta(x) ==
      (if NodeText(x.children[i]).Some? then Success(CapsuleMeta(NodeText(x.children[i]).value, []))
       else Failure(MissingText("title")))
  {
    var f := FirstTagged(x.children, "title");
    assert f.Some?;
    assert f.value >= i;
    assert f.value <= i;
  }

  /** A comment or processing instruction of the parsed document: neither text nor a
      known tag, its tag name is empty. */
  const COMMENT: XmlNode := Element("", map[], [])

  /** `find` looks for the `title` by tag name, so a comment before it is skipped. */
  lemma CommentInMetaAccepted()
    ensures ParseCapsuleMeta(Element("meta", map[], [COMMENT, Element("title", map[], [Text("T")])]))
         == Success(CapsuleMeta("T", []))
  {
    var x := Element("meta", map[], [COMMENT, Element("title", map[], [Text("T")])]);
    assert TagName(x.children[0]) != "title";
    MetaTitle(x, 1);
  }

  /** A comment that comes first inside the `title` hides its text, as `text()` looks
      only at the first child. */
  lemma CommentFirstInTitle()
    ensures ParseCapsuleMeta(Element("meta", map[], [Element("title", map[], [COMMENT, Text("T")])]))
         == Failure(MissingText("title"))
  {
  }

  /** A document's metadata and root view, as values. */
  datatype CapsuleValue = CapsuleValue(meta: CapsuleMeta, view: NodeValue)

  /** What one child of the root does to the capsule: text changes nothing, a `meta` or
      `view` element replaces that part, and anything else is an error. */
  function RootStep(acc: CapsuleValue, c: XmlNode, host: ParseHost): Result<CapsuleValue, ParseError> {
    if c.Text? then Success(acc)
    else if c.tag == "meta" then
      var meta :- ParseCapsuleMeta(c);
      Success(acc.(meta := meta))
    else if c.tag == "view" then
      var view :- ViewTree(c, host);
      Success(acc.(view := view))
    else Failure(BadRootChild(c.tag))
  }

  /** The capsule after the first `n` children of the root, starting from the default. */
  function ScanRoot(root: XmlNode, n: nat, host: ParseHost): Result<CapsuleValue, ParseError>
    requires root.Element? && n <= |root.children|
  {
    if n == 0 then Success(CapsuleValue(DEFAULT_META, EMPTY_VIEW))
    else
      var acc :- ScanRoot(root, n - 1, host);
      RootStep(acc, root.children[n - 1], host)
  }

  /** The capsule `parse_capsule` makes of a parsed document, whose root must be `capsule`. */
  function CapsuleTree(doc: XmlNode, host: ParseHost): Result<CapsuleValue, ParseError> {
    if TagName(doc) != "capsule" then Failure(WrongElement("capsule", TagName(doc)))
    else ScanRoot(doc, |doc.children|, host)
  }

  lemma {:induction false} ScanRootFailed(root: XmlNode, k: nat, n: nat, host: ParseHost)
    requires root.Element? && k <= n <= |root.children|
    requires ScanRoot(root, k, host).Failure?
    ensures ScanRoot(root, n, host) == ScanRoot(root, k, host)
    decreases n
  {
    if k < n {
      ScanRootFailed(root, k, n - 1, host);
    }
  }

  /** A document is accepted only if its root is `capsule` and every element below the
      root is a `meta` or a `view`. */
  lemma CapsuleShape(doc: XmlNode, host: ParseHost)
    requires CapsuleTree(doc, host).Success?
    ensures doc.Element? && doc.tag == "capsule"
    ensures forall k | 0 <= k < |doc.children| && doc.children[k].Element? ::
      doc.children[k].tag == "meta" || doc.children[k].tag == "view"
  {
    ScanRootShape(doc, |doc.children|, host);
  }

  lemma {:induction false} ScanRootShape(root: XmlNode, n: nat, host: ParseHost)
    requires root.Element? && n <= |root.children|
    requires ScanRoot(root, n, host).Success?
    ensures forall k | 0 <= k < n && root.children[k].Element? ::
      root.children[k].tag == "meta" || root.children[k].tag == "view"
  {
    if n > 0 {
      ScanRootShape(root, n - 1, host);
    }
  }

  /** A comment is an unknown node inside a `view`, `obj` or `text` element. */
  lemma CommentInObjRejected(host: ParseHost)
    ensures ChildTree(COMMENT, host) == Failure(UnknownTag(""))
    ensures ChildTree(Element("obj", map[], [COMMENT]), host) == Failure(UnknownTag(""))
    ensures ChildTree(Element("text", map[], [COMMENT]), host) == Failure(UnknownTag(""))
    ensures ViewTree(Element("view", map[], [COMMENT]), host) == Failure(UnknownTag(""))
  {
    assert Attribute(COMMENT, "align").None? && Attribute(COMMENT, "justify").None?;
    assert ElementStyle(COMMENT, host).Success?;
    assert ChildTree(COMMENT, host) == Failure(UnknownTag(""));
    forall p | p in [Element("obj", map[], [COMMENT]), Element("text", map[], [COMMENT]),
                     Element("view", map[], [COMMENT])]
      ensures ChildTrees(p, 1, host) == Failure(UnknownTag(""))
    {
      assert p.children[0] == COMMENT;
    }
  }

  /** A comment below the root is neither `meta` nor `view`. */
  lemma CommentAtRootRejected(host: ParseHost)
    ensures CapsuleTree(Element("capsule", map[], [COMMENT]), host) == Failure(BadRootChild(""))
  {
    var doc := Element("capsule", map[], [COMMENT]);
    assert ScanRoot(doc, 1, host) == RootStep(CapsuleValue(DEFAULT_META, EMPTY_VIEW), COMMENT, host);
  }

  /** The last `view` element is the capsule's view and the last `meta` element its
      metadata; without one, the default stays. */
  lemma CapsuleLastWins(doc: XmlNode, host: ParseHost, i: nat)
    requires CapsuleTree(doc, host).Success?
    ensures doc.Element?
    ensures var c := CapsuleTree(doc, host).value;
      && ((forall k | 0 <= k < |doc.children| :: TagName(doc.children[k]) != "view") ==> c.view == EMPTY_VIEW)
      && (i < |doc.children| && TagName(doc.children[i]) == "view" &&
          (forall k | i < k < |doc.children| :: TagName(doc.children[k]) != "view") ==>
            ViewTree(doc.children[i], host) == Success(c.view))
    ensures var c := CapsuleTree(doc, host).value;
      && ((forall k | 0 <= k < |doc.children| :: TagName(doc.children[k]) != "meta") ==> c.meta == DEFAULT_META)
      && (i < |doc.children| && TagName(doc.children[i]) == "meta" &&
          (forall k | i < k < |doc.children| :: TagName(doc.children[k]) != "meta") ==>
            ParseCapsuleMeta(doc.children[i]) == Success(c.meta))
  {
    ScanRootLast(doc, |doc.children|, host, i, "view");
    ScanRootLast(doc, |doc.children|, host, i, "meta");
  }

  /** What the scan keeps after `n` children, for one of the two tags. */
  ghost function Kept(c: CapsuleValue, tag: string): (NodeValue, CapsuleMeta) {
    if tag == "view" then (c.view, DEFAULT_META) else (EMPTY_VIEW, c.meta)
  }

  /** What the element at position `i` contributes for that tag. */
  ghost function Parsed(x: XmlNode, tag: string, host: ParseHost): Result<(NodeValue, CapsuleMeta), ParseError> {
    if tag == "view" then
      match ViewTree(x, host)
      case Success(v) => Success((v, DEFAULT_META))
      case Failure(e) => Failure(e)
    else
      match ParseCapsuleMeta(x)
      case Success(m) => Success((EMPTY_VIEW, m))
      case Failure(e) => Failure(e)
  }

  lemma {:induction false} ScanRootLast(root: XmlNode, n: nat, host: ParseHost, i: nat, tag: string)
    requires root.Element? && n <= |root.children| && (tag == "view" || tag == "meta")
    requires ScanRoot(root, n, host).Success?
    ensures (forall k | 0 <= k < n :: TagName(root.children[k]) != tag) ==>
      Kept(ScanRoot(root, n, host).value, tag) == (EMPTY_VIEW, DEFAULT_META)
    ensures i < n && TagName(root.children[i]) == tag && (forall k | i < k < n :: TagName(root.children[k]) != tag) ==>
      Parsed(root.children[i], tag, host) == Success(Kept(ScanRoot(root, n, host).value, tag))
  {
    if n > 0 {
      ScanRootLast(root, n - 1, host, i, tag);
    }
  }

  /** Nothing in a parsed capsule's view is dirty. */
  lemma CapsuleClean(doc: XmlNode, host: ParseHost)
    requires CapsuleTree(doc, host).Success?
    ensures Clean(CapsuleTree(doc, host).value.view)
  {
    ScanRootClean(doc, |doc.children|, host);
  }

  lemma {:induction false} ScanRootClean(root: XmlNode, n: nat, host: ParseHost)
    requires root.Element? && n <= |root.children|
    requires ScanRoot(root, n, host).Success?
    ensures Clean(ScanRoot(root, n, host).value.view)
  {
    if n == 0 {
      DefaultStylingIsClean();
    } else {
      ScanRootClean(root, n - 1, host);
      var c := root.children[n - 1];
      if c.Element? && c.tag == "view" {
        ChildTreesClean(c, |c.children|, host);
        DefaultStylingIsClean();
      }
    }
  }

  /** The capsule object holds the capsule value `v`. */
  ghost predicate Shows(capsule: Capsule, v: CapsuleValue)
    reads capsule, capsule.view.Styles
  {
    capsule.view.Valid() && capsule.meta == v.meta && ValueOf(capsule.view) == v.view
  }

  /** `parse_capsule`: starting from the default capsule, each `meta` or `view` element
      below the `capsule` root replaces the capsule's metadata or view. */
  method ParseCapsule(doc: XmlNode, host: ParseHost) returns (r: Result<Capsule, ParseError>)
    ensures r.Failure? <==> CapsuleTree(doc, host).Failure?
    ensures r.Failure? ==> r.error == CapsuleTree(doc, host).error
    ensures r.Success? ==> && fresh(r.value) && r.value.view.Valid()
                           && fresh(r.value.view.Repr()) && fresh(r.value.view.Styles)
    ensures r.Success? ==> && r.value.meta == CapsuleTree(doc, host).value.meta
                           && ValueOf(r.value.view) == CapsuleTree(doc, host).value.view
  {
    var capsule := new Capsule.Default();
    if TagName(doc) != "capsule" {
      return Failure(WrongElement("capsule", TagName(doc)));
    }
    ghost var spec := CapsuleValue(DEFAULT_META, EMPTY_VIEW);
    for k := 0 to |doc.children|
      invariant ScanRoot(doc, k, host) == Success(spec)
      invariant Shows(capsule, spec)
      invariant fresh(capsule.view.Repr()) && fresh(capsule.view.Styles)
    {
      var step := ParseRootChild(capsule, doc.children[k], host, spec);
      if step.Fail? {
        ScanRootFailed(doc, k + 1, |doc.children|, host);
        return Failure(step.error);
      }
      spec := RootStep(spec, doc.children[k], host).value;
    }
    r := Success(capsule);
  }

  /** The body of `parse_capsule`'s loop: one child of the root updates the capsule. */
  method ParseRootChild(capsule: Capsule, child: XmlNode, host: ParseHost, ghost acc: CapsuleValue)
    returns (r: Outcome<ParseError>)
    requires Shows(capsule, acc)
    modifies capsule
    ensures r.Fail? <==> RootStep(acc, child, host).Failure?
    ensures r.Fail? ==> r.error == RootStep(acc, child, host).error
    ensures r.Pass? ==> Shows(capsule, RootStep(acc, child, host).value)
    ensures capsule.view == old(capsule.view) || (fresh(capsule.view.Repr()) && fresh(capsule.view.Styles))
  {
    if child.Text? {
      return Pass;
    }
    if child.tag != "meta" && child.tag != "view" {
      return Fail(BadRootChild(child.tag));
    }
    if child.tag == "meta" {
      var meta := ParseCapsuleMeta(child);
      if meta.Failure? {
        return Fail(meta.error);
      }
      capsule.meta := meta.value;
    } else {
      var view := ParseCapsuleView(child, host);
      if view.Failure? {
        return Fail(view.error);
      }
      capsule.view := view.value;
    }
    r := Pass;
  }
}
