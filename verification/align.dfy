/** `COAlignItems` (src/layout/capsule/align.rs): the cross-axis alignment a node asks for. */
module Align {
  import opened Wrappers
  import opened Strum
  import Flexbox

  datatype COAlignItems = FlexStart | FlexEnd | Center | Baseline | Stretch

  /** The `#[default]` variant. */
  const DEFAULT: COAlignItems := Stretch

  /** `as_stretch`: the solver variant of the same name. */
  function AsStretch(a: COAlignItems): (r: Flexbox.AlignItems)
    ensures a.FlexStart? <==> r.FlexStart?
    ensures a.FlexEnd? <==> r.FlexEnd?
    ensures a.Center? <==> r.Center?
    ensures a.Baseline? <==> r.Baseline?
    ensures a.Stretch? <==> r.Stretch?
  {
    match a
    case FlexStart => Flexbox.AlignItems.FlexStart
    case FlexEnd => Flexbox.AlignItems.FlexEnd
    case Center => Flexbox.AlignItems.Center
    case Baseline => Flexbox.AlignItems.Baseline
    case Stretch => Flexbox.AlignItems.Stretch
  }

  /** `as_ref` derived by strum: the snake_case name of the variant. */
  function AsRef(a: COAlignItems): (r: string)
    ensures IsSnakeCase(r)
  {
    match a
    case FlexStart => "flex_start"
    case FlexEnd => "flex_end"
    case Center => "center"
    case Baseline => "baseline"
    case Stretch => "stretch"
  }

  /** `from_str` derived by strum: exact, case-sensitive match on the five names. */
  function FromStr(s: string): (r: Option<COAlignItems>)
    ensures r.Some? ==> AsRef(r.value) == s
  {
    if s == "flex_start" then Some(FlexStart)
    else if s == "flex_end" then Some(FlexEnd)
    else if s == "center" then Some(Center)
    else if s == "baseline" then Some(Baseline)
    else if s == "stretch" then Some(Stretch)
    else None
  }

  lemma FromStrAsRef(a: COAlignItems)
    ensures FromStr(AsRef(a)) == Some(a)
  {
  }

  /** A string parses exactly when it is the name of some variant. */
  lemma FromStrAccepts(s: string)
    ensures FromStr(s).Some? <==> exists a :: AsRef(a) == s
  {
    if a :| AsRef(a) == s {
      FromStrAsRef(a);
    }
  }

  /** `as_stretch` is a bijection onto the solver's five variants. */
  lemma AsStretchBijective(a: COAlignItems, b: COAlignItems, t: Flexbox.AlignItems)
    ensures AsStretch(a) == AsStretch(b) ==> a == b
    ensures exists c :: AsStretch(c) == t
  {
    match t
    case FlexStart => assert AsStretch(FlexStart) == t;
    case FlexEnd => assert AsStretch(FlexEnd) == t;
    case Center => assert AsStretch(Center) == t;
    case Baseline => assert AsStretch(Baseline) == t;
    case Stretch => assert AsStretch(Stretch) == t;
  }
}
