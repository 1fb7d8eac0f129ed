/**
 * The parsed XML document the capsule parser walks, as the `roxmltree` crate presents
 * it: a tree of elements (tag, attributes, children in document order) and text nodes.
 * Turning markup text into this tree is the crate's job and is not modelled.
 */
module Xml {
  import opened Wrappers

  datatype XmlNode =
    | Text(text: string)
    | Element(tag: string, attrs: map<string, string>, children: seq<XmlNode>)

  /** `tag_name().name()`: the element's tag; a text node has the empty name. */
  function TagName(x: XmlNode): (r: string)
    ensures x.Element? ==> r == x.tag
    ensures x.Text? ==> r == ""
  {
    if x.Element? then x.tag else ""
  }

  /** `attribute(name)`: the value of an attribute; text nodes carry none. */
  function Attribute(x: XmlNode, name: string): (r: Option<string>)
    ensures r.Some? <==> x.Element? && name in x.attrs
    ensures r.Some? ==> r.value == x.attrs[name]
  {
    if x.Element? && name in x.attrs then Some(x.attrs[name]) else None
  }

  /** `text()`: a text node's own text; for an element, the text of its first child
      when that child is a text node, and nothing otherwise. */
  function NodeText(x: XmlNode): (r: Option<string>)
    ensures x.Text? ==> r == Some(x.text)
    ensures x.Element? ==> (r.Some? <==> |x.children| > 0 && x.children[0].Text?)
    ensures x.Element? && r.Some? ==> r.value == x.children[0].text
  {
    match x
    case Text(t) => Some(t)
    case Element(_, _, children) =>
      if |children| > 0 && children[0].Text? then Some(children[0].text) else None
  }

  /** The element children among `xs`, in document order. */
  function ElementsOf(xs: seq<XmlNode>): (es: seq<XmlNode>)
    ensures |es| <= |xs|
    ensures forall i | 0 <= i < |es| :: es[i].Element? && es[i] in xs
  {
    if xs == [] then []
    else
      var init, last := xs[..|xs| - 1], xs[|xs| - 1];
      assert forall x | x in init :: x in xs;
      if last.Element? then ElementsOf(init) + [last] else ElementsOf(init)
  }
}
