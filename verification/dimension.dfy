/** `CODimension` (src/layout/capsule/dimension.rs): a width or height as a node's style states it. */
module Dimension {
  import Flexbox

  datatype CODimension = Undefined | Auto | Points(points: real) | Percent(percent: real)

  /** Rust's `{}` rendering of an f32, supplied by the host (number formatting is not modelled). */
  type Formatter = real -> string

  /** The characters Rust's `Display` for f32 can produce: digits, sign, point, `inf` and `NaN`. */
  predicate IsFloatChar(c: char) {
    ('0' <= c <= '9') || c == '-' || c == '.' || c == 'i' || c == 'n' || c == 'f' || c == 'N' || c == 'a'
  }

  /** What the model assumes of a formatter: it renders every number with float characters only. */
  ghost predicate RendersFloats(fmt: Formatter) {
    forall v: real :: forall i :: 0 <= i < |fmt(v)| ==> IsFloatChar(fmt(v)[i])
  }

  /** `as_stretch`: the solver dimension of the same variant, with the same payload. */
  function AsStretch(d: CODimension): (r: Flexbox.Dimension)
    ensures d.Undefined? <==> r.Undefined?
    ensures d.Auto? <==> r.Auto?
    ensures d.Points? <==> r.Points?
    ensures d.Percent? <==> r.Percent?
    ensures d.Points? ==> r.points == d.points
    ensures d.Percent? ==> r.percent == d.percent
  {
    match d
    case Auto => Flexbox.Dimension.Auto
    case Undefined => Flexbox.Dimension.Undefined
    case Percent(v) => Flexbox.Dimension.Percent(v)
    case Points(v) => Flexbox.Dimension.Points(v)
  }

  /** `as_text`: the keyword, the rendered number, or the rendered percentage with a `%` suffix. */
  function AsText(d: CODimension, fmt: Formatter): (r: string)
    ensures d.Undefined? ==> r == "undefined"
    ensures d.Auto? ==> r == "auto"
    ensures d.Points? ==> r == fmt(d.points)
    ensures d.Percent? ==> |r| > 0 && r[|r| - 1] == '%' && r[..|r| - 1] == fmt(d.percent * 100.0)
  {
    match d
    case Undefined => "undefined"
    case Auto => "auto"
    case Points(v) => fmt(v)
    case Percent(v) => fmt(v * 100.0) + "%"
  }

  predicate EndsWithPercent(s: string) {
    |s| > 0 && s[|s| - 1] == '%'
  }

  /** `as_stretch` loses nothing: distinct dimensions go to distinct solver dimensions. */
  lemma AsStretchInjective(d: CODimension, e: CODimension)
    ensures AsStretch(d) == AsStretch(e) ==> d == e
  {
  }

  /** Exactly the percentage texts end in `%`. */
  lemma {:induction false} AsTextPercentSuffix(d: CODimension, fmt: Formatter)
    requires RendersFloats(fmt)
    ensures EndsWithPercent(AsText(d, fmt)) <==> d.Percent?
  {
    if d.Points? {
      var s := fmt(d.points);
      if |s| > 0 {
        assert IsFloatChar(s[|s| - 1]);
      }
    }
  }

  /** The text of a dimension determines its variant: no number renders as a keyword
      and no plain number text equals a percentage text. */
  lemma {:induction false} AsTextDeterminesVariant(d: CODimension, e: CODimension, fmt: Formatter)
    requires RendersFloats(fmt)
    requires AsText(d, fmt) == AsText(e, fmt)
    ensures d.Undefined? <==> e.Undefined?
    ensures d.Auto? <==> e.Auto?
    ensures d.Points? <==> e.Points?
    ensures d.Percent? <==> e.Percent?
  {
    AsTextPercentSuffix(d, fmt);
    AsTextPercentSuffix(e, fmt);
    NumberIsNoKeyword(d, fmt);
    NumberIsNoKeyword(e, fmt);
  }

  /** A rendered number is neither `undefined` nor `auto`: both contain a `u`. */
  lemma NumberIsNoKeyword(d: CODimension, fmt: Formatter)
    requires RendersFloats(fmt)
    ensures d.Points? ==> AsText(d, fmt) != "undefined" && AsText(d, fmt) != "auto"
    ensures d.Percent? ==> AsText(d, fmt) != "undefined" && AsText(d, fmt) != "auto"
  {
    if d.Points? {
      var s := fmt(d.points);
      if |s| > 1 {
        assert IsFloatChar(s[0]) && IsFloatChar(s[1]);
      }
    } else if d.Percent? {
      var t := AsText(d, fmt);
      assert t[|t| - 1] == '%';
    }
  }
}
