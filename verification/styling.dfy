/**
 * The style record of a node and the script-facing handle to it (src/layout/styling.rs).
 * `Styling` is the record behind a node's `ArcLock<Styling>`: the class is the shared,
 * mutable cell, `Record()` its current value.
 */
module Style {
  import opened Wrappers
  import Align
  import Justify
  import FlexDir
  import Dimension

  newtype u16 = x: int | 0 <= x < 0x1_0000

  /** An RGBA colour; `COColor` itself (layout/capsule/color.rs) is not part of this model. */
  datatype COColor = COColor(r: real, g: real, b: real, a: real)

  /** The renderer's default font size; renderer/constants.rs is not part of this model,
      so its value is left open. */
  const DEFAULT_TEXT_SIZE: u16

  /** The value of a `Styling`, all nine fields including the private `dirty` flag. */
  datatype StyleRecord = StyleRecord(
    align: Align.COAlignItems,
    justify: Justify.COJustifyContent,
    flexdir: FlexDir.COFlexDirection,
    width: Option<Dimension.CODimension>,
    height: Option<Dimension.CODimension>,
    color: Option<COColor>,
    backgroundColor: Option<COColor>,
    fontSize: u16,
    dirty: bool)

  /** `Styling::default()`. */
  function DefaultStyling(): StyleRecord {
    StyleRecord(Align.DEFAULT, Justify.DEFAULT, FlexDir.DEFAULT, None, None, None, None, DEFAULT_TEXT_SIZE, false)
  }

  /** The default record is clean, sets no size or colour, and uses each enum's default. */
  lemma DefaultStylingIsClean()
    ensures !DefaultStyling().dirty
    ensures DefaultStyling().width == None && DefaultStyling().height == None
    ensures DefaultStyling().color == None && DefaultStyling().backgroundColor == None
    ensures DefaultStyling().fontSize == DEFAULT_TEXT_SIZE
    ensures DefaultStyling().align == Align.COAlignItems.Stretch
    ensures DefaultStyling().justify == Justify.COJustifyContent.FlexStart
    ensures DefaultStyling().flexdir == FlexDir.COFlexDirection.Row
  {
  }

  class Styling {
    var align: Align.COAlignItems
    var justify: Justify.COJustifyContent
    var flexdir: FlexDir.COFlexDirection
    var width: Option<Dimension.CODimension>
    var height: Option<Dimension.CODimension>
    var color: Option<COColor>
    var backgroundColor: Option<COColor>
    var fontSize: u16
    /** Private in the source: only the methods below change it. */
    var dirty: bool

    function Record(): StyleRecord
      reads this
    {
      StyleRecord(align, justify, flexdir, width, height, color, backgroundColor, fontSize, dirty)
    }

    /** A fresh cell holding `Styling::default()`. */
    constructor Default()
      ensures Record() == DefaultStyling()
    {
      align, justify, flexdir := Align.DEFAULT, Justify.DEFAULT, FlexDir.DEFAULT;
      width, height, color, backgroundColor := None, None, None, None;
      fontSize := DEFAULT_TEXT_SIZE;
      dirty := false;
    }

    /** `is_dirty`. */
    function IsDirty(): (r: bool)
      reads this
      ensures r == Record().dirty
    {
      dirty
    }

    /** `set_dirty`: raises the flag and changes nothing else. */
    method SetDirty()
      modifies this
      ensures IsDirty()
      ensures Record() == old(Record()).(dirty := true)
    {
      dirty := true;
    }

    /** `set_non_dirty`: clears the flag and changes nothing else. */
    method SetNonDirty()
      modifies this
      ensures !IsDirty()
      ensures Record() == old(Record()).(dirty := false)
    {
      dirty := false;
    }
  }

  /** The conversions the script bridge relies on that live outside the model:
      number formatting, colour names, and `try_parse_dimension` / `try_parse_color`. */
  datatype ScriptHost = ScriptHost(
    fmt: Dimension.Formatter,
    colorText: COColor -> string,
    parseDimension: string -> Option<Dimension.CODimension>,
    parseColor: string -> Option<COColor>)

  /** `StylingHandle`: the script's view of a node's style, sharing the node's cell. */
  class StylingHandle {
    const inner: Styling

    constructor (inner: Styling)
      ensures this.inner == inner
    {
      this.inner := inner;
    }

    /** `write`: takes the writer and marks the record dirty before any field is changed. */
    method Write()
      modifies inner
      ensures inner.Record() == old(inner.Record()).(dirty := true)
    {
      inner.SetDirty();
    }

    /** Getter `width`: the dimension's text, or nil when unset. */
    function GetWidth(host: ScriptHost): (r: Option<string>)
      reads inner
      ensures r.None? <==> inner.width.None?
      ensures r.Some? ==> r.value == Dimension.AsText(inner.width.value, host.fmt)
    {
      if inner.width.Some? then Some(Dimension.AsText(inner.width.value, host.fmt)) else None
    }

    /** Getter `height`: the dimension's text, or nil when unset. */
    function GetHeight(host: ScriptHost): (r: Option<string>)
      reads inner
      ensures r.None? <==> inner.height.None?
      ensures r.Some? ==> r.value == Dimension.AsText(inner.height.value, host.fmt)
    {
      if inner.height.Some? then Some(Dimension.AsText(inner.height.value, host.fmt)) else None
    }

    /** Getter `align`: the strum name, which parses back to the stored value. */
    function GetAlign(): (r: string)
      reads inner
      ensures Align.FromStr(r) == Some(inner.align)
    {
      Align.FromStrAsRef(inner.align);
      Align.AsRef(inner.align)
    }

    /** Getter `justify`: the strum name, which parses back to the stored value. */
    function GetJustify(): (r: string)
      reads inner
      ensures Justify.FromStr(r) == Some(inner.justify)
    {
      Justify.FromStrAsRef(inner.justify);
      Justify.AsRef(inner.justify)
    }

    /** Getter `flexdir`: the strum name, which parses back to the stored value. */
    function GetFlexDir(): (r: string)
      reads inner
      ensures FlexDir.FromStr(r) == Some(inner.flexdir)
    {
      FlexDir.FromStrAsRef(inner.flexdir);
      FlexDir.AsRef(inner.flexdir)
    }

    /** Getter `font_size`. */
    function GetFontSize(): (r: u16)
      reads inner
      ensures r == inner.Record().fontSize
    {
      inner.fontSize
    }

    /** Getter `color`: the colour's name, or nil when unset. */
    function GetColor(host: ScriptHost): (r: Option<string>)
      reads inner
      ensures r.None? <==> inner.color.None?
      ensures r.Some? ==> r.value == host.colorText(inner.color.value)
    {
      if inner.color.Some? then Some(host.colorText(inner.color.value)) else None
    }

    /** Setter `width`: stores whatever `try_parse_dimension` gives (None clears the width),
        then marks the record dirty, through the lock directly rather than `write`. */
    method SetWidth(v: string, host: ScriptHost)
      modifies inner
      ensures inner.Record() == old(inner.Record()).(width := host.parseDimension(v), dirty := true)
      ensures GetWidth(host).None? <==> host.parseDimension(v).None?
    {
      inner.width := host.parseDimension(v);
      inner.SetDirty();
    }

    /** Setter `height`: through `write`, so the flag is raised first. */
    method SetHeight(v: string, host: ScriptHost)
      modifies inner
      ensures inner.Record() == old(inner.Record()).(height := host.parseDimension(v), dirty := true)
      ensures GetHeight(host).None? <==> host.parseDimension(v).None?
    {
      Write();
      inner.height := host.parseDimension(v);
    }

    /** Setter `align`: a name strum does not know is an error raised before `write`,
        so neither the field nor the flag changes. */
    method SetAlign(v: string) returns (r: Outcome<string>)
      modifies inner
      ensures r.Pass? <==> Align.FromStr(v).Some?
      ensures r.Pass? ==> inner.Record() == old(inner.Record()).(align := Align.FromStr(v).value, dirty := true)
      ensures r.Pass? ==> GetAlign() == v
      ensures r.Fail? ==> inner.Record() == old(inner.Record()) && r.error == "failed to parse align"
    {
      var parsed := Align.FromStr(v);
      if parsed.None? {
        return Fail("failed to parse align");
      }
      Write();
      inner.align := parsed.value;
      r := Pass;
    }

    /** Setter `justify`: as `align`, with the six justify names. */
    method SetJustify(v: string) returns (r: Outcome<string>)
      modifies inner
      ensures r.Pass? <==> Justify.FromStr(v).Some?
      ensures r.Pass? ==> inner.Record() == old(inner.Record()).(justify := Justify.FromStr(v).value, dirty := true)
      ensures r.Pass? ==> GetJustify() == v
      ensures r.Fail? ==> inner.Record() == old(inner.Record()) && r.error == "failed to parse justify"
    {
      var parsed := Justify.FromStr(v);
      if parsed.None? {
        return Fail("failed to parse justify");
      }
      Write();
      inner.justify := parsed.value;
      r := Pass;
    }

    /** Setter `font_size`: the script value has already been converted to a u16. */
    method SetFontSize(v: u16)
      modifies inner
      ensures inner.Record() == old(inner.Record()).(fontSize := v, dirty := true)
      ensures GetFontSize() == v
    {
      Write();
      inner.fontSize := v;
    }

    /** Setter `color`: stores whatever `try_parse_color` gives. */
    method SetColor(v: string, host: ScriptHost)
      modifies inner
      ensures inner.Record() == old(inner.Record()).(color := host.parseColor(v), dirty := true)
    {
      Write();
      inner.color := host.parseColor(v);
    }

    /** Setter `flexdir`: as `align`, with the four direction names. */
    method SetFlexDir(v: string) returns (r: Outcome<string>)
      modifies inner
      ensures r.Pass? <==> FlexDir.FromStr(v).Some?
      ensures r.Pass? ==> inner.Record() == old(inner.Record()).(flexdir := FlexDir.FromStr(v).value, dirty := true)
      ensures r.Pass? ==> GetFlexDir() == v
      ensures r.Fail? ==> inner.Record() == old(inner.Record()) && r.error == "failed to parse flexdir"
    {
      var parsed := FlexDir.FromStr(v);
      if parsed.None? {
        return Fail("failed to parse flexdir");
      }
      Write();
      inner.flexdir := parsed.value;
      r := Pass;
    }
  }
}
