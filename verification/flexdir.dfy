/** `COFlexDirection` (src/layout/capsule/flexdir.rs): the main axis of a node. */
module FlexDir {
  import opened Wrappers
  import opened Strum
  import Flexbox

  datatype COFlexDirection = Row | Column | RowReverse | ColumnReverse

  /** The `#[default]` variant. */
  const DEFAULT: COFlexDirection := Row

  /** `as_stretch`: the solver variant of the same name. */
  function AsStretch(d: COFlexDirection): (r: Flexbox.FlexDirection)
    ensures d.Row? <==> r.Row?
    ensures d.Column? <==> r.Column?
    ensures d.RowReverse? <==> r.RowReverse?
    ensures d.ColumnReverse? <==> r.ColumnReverse?
  {
    match d
    case Row => Flexbox.FlexDirection.Row
    case Column => Flexbox.FlexDirection.Column
    case RowReverse => Flexbox.FlexDirection.RowReverse
    case ColumnReverse => Flexbox.FlexDirection.ColumnReverse
  }

  /** `as_ref` derived by strum: the snake_case name of the variant. */
  function AsRef(d: COFlexDirection): (r: string)
    ensures IsSnakeCase(r)
  {
    match d
    case Row => "row"
    case Column => "column"
    case RowReverse => "row_reverse"
    case ColumnReverse => "column_reverse"
  }

  /** `from_str` derived by strum: exact, case-sensitive match on the four names. */
  function FromStr(s: string): (r: Option<COFlexDirection>)
    ensures r.Some? ==> AsRef(r.value) == s
  {
    if s == "row" then Some(Row)
    else if s == "column" then Some(Column)
    else if s == "row_reverse" then Some(RowReverse)
    else if s == "column_reverse" then Some(ColumnReverse)
    else None
  }

  lemma FromStrAsRef(d: COFlexDirection)
    ensures FromStr(AsRef(d)) == Some(d)
  {
  }

  /** A string parses exactly when it is the name of some variant. */
  lemma FromStrAccepts(s: string)
    ensures FromStr(s).Some? <==> exists d :: AsRef(d) == s
  {
    if d :| AsRef(d) == s {
      FromStrAsRef(d);
    }
  }

  /** `as_stretch` is a bijection onto the solver's four variants. */
  lemma AsStretchBijective(a: COFlexDirection, b: COFlexDirection, t: Flexbox.FlexDirection)
    ensures AsStretch(a) == AsStretch(b) ==> a == b
    ensures exists c :: AsStretch(c) == t
  {
    match t
    case Row => assert AsStretch(Row) == t;
    case Column => assert AsStretch(Column) == t;
    case RowReverse => assert AsStretch(RowReverse) == t;
    case ColumnReverse => assert AsStretch(ColumnReverse) == t;
  }
}
