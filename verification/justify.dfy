/** `COJustifyContent` (src/layout/capsule/justify.rs): how a node distributes its children on the main axis. */
module Justify {
  import opened Wrappers
  import opened Strum
  import Flexbox

  datatype COJustifyContent = FlexStart | FlexEnd | Center | SpaceBetween | SpaceAround | SpaceEvenly

  /** The `#[default]` variant. */
  const DEFAULT: COJustifyContent := FlexStart

  /** `as_stretch`: the solver variant of the same name. */
  function AsStretch(j: COJustifyContent): (r: Flexbox.JustifyContent)
    ensures j.FlexStart? <==> r.FlexStart?
    ensures j.FlexEnd? <==> r.FlexEnd?
    ensures j.Center? <==> r.Center?
    ensures j.SpaceBetween? <==> r.SpaceBetween?
    ensures j.SpaceAround? <==> r.SpaceAround?
    ensures j.SpaceEvenly? <==> r.SpaceEvenly?
  {
    match j
    case FlexStart => Flexbox.JustifyContent.FlexStart
    case FlexEnd => Flexbox.JustifyContent.FlexEnd
    case Center => Flexbox.JustifyContent.Center
    case SpaceBetween => Flexbox.JustifyContent.SpaceBetween
    case SpaceAround => Flexbox.JustifyContent.SpaceAround
    case SpaceEvenly => Flexbox.JustifyContent.SpaceEvenly
  }

  /** `as_ref` derived by strum: the snake_case name of the variant. */
  function AsRef(j: COJustifyContent): (r: string)
    ensures IsSnakeCase(r)
  {
    match j
    case FlexStart => "flex_start"
    case FlexEnd => "flex_end"
    case Center => "center"
    case SpaceBetween => "space_between"
    case SpaceAround => "space_around"
    case SpaceEvenly => "space_evenly"
  }

  /** `from_str` derived by strum: exact, case-sensitive match on the six names. */
  function FromStr(s: string): (r: Option<COJustifyContent>)
    ensures r.Some? ==> AsRef(r.value) == s
  {
    if s == "flex_start" then Some(FlexStart)
    else if s == "flex_end" then Some(FlexEnd)
    else if s == "center" then Some(Center)
    else if s == "space_between" then Some(SpaceBetween)
    else if s == "space_around" then Some(SpaceAround)
    else if s == "space_evenly" then Some(SpaceEvenly)
    else None
  }

  lemma FromStrAsRef(j: COJustifyContent)
    ensures FromStr(AsRef(j)) == Some(j)
  {
  }

  /** A string parses exactly when it is the name of some variant. */
  lemma FromStrAccepts(s: string)
    ensures FromStr(s).Some? <==> exists j :: AsRef(j) == s
  {
    if j :| AsRef(j) == s {
      FromStrAsRef(j);
    }
  }

  /** `as_stretch` is a bijection onto the solver's six variants. */
  lemma AsStretchBijective(a: COJustifyContent, b: COJustifyContent, t: Flexbox.JustifyContent)
    ensures AsStretch(a) == AsStretch(b) ==> a == b
    ensures exists c :: AsStretch(c) == t
  {
    match t
    case FlexStart => assert AsStretch(FlexStart) == t;
    case FlexEnd => assert AsStretch(FlexEnd) == t;
    case Center => assert AsStretch(Center) == t;
    case SpaceBetween => assert AsStretch(SpaceBetween) == t;
    case SpaceAround => assert AsStretch(SpaceAround) == t;
    case SpaceEvenly => assert AsStretch(SpaceEvenly) == t;
  }
}
