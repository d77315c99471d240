/**
 * The meme text box: its configuration, the CSS values derived from it for the hidden
 * font-fitting copy and the visible editor, and the state the box keeps beside its DRR
 * container (text, fitted font size, and the size last reported by a committed resize).
 */
module TextArea {
  import opened Wrappers
  import opened Geometry
  import opened DrrContainer

  datatype VerticalAlign = VTop | VCenter | VBottom
  datatype HorizontalAlign = HLeft | HCenter | HRight

  datatype TextConfig = TextConfig(
    initialText: string,
    fontColor: string,
    underline: bool,
    linethrough: bool,
    uppercase: bool,
    fontFamily: string,
    fontWeight: string,
    fontStyle: string,
    verticalTextAlign: VerticalAlign,
    horizontalTextAlign: HorizontalAlign,
    letterSpacing: real,
    strokeWidth: real,
    strokeColor: string,
    lineHeight: real,
    textOpacity: real,
    outlineWidth: real,
    outlineStyle: string,
    outlineColor: string,
    textShadowX: real,
    textShadowY: real,
    textShadowBlur: real,
    textShadowColor: string,
    backgroundColor: string,
    isTextAreaSelected: bool)

  const DefaultTextConfig: TextConfig := TextConfig(
    "Edit Me.", "#000000", false, false, false, "Arial", "normal", "normal",
    VCenter, HCenter, 0.0, 0.0, "#000000", 1.2, 1.0, 0.0, "solid", "#000000",
    0.0, 0.0, 0.0, "#000000", "transparent", false)

  /** The id of the hidden font-fitting copy. */
  const TextFitPlaceholderId: string := "te-ph"

  /** `items-start`, `items-center` or `items-end` for the flex container. */
  function VerticalAlignClass(v: VerticalAlign): (c: string)
    ensures v == VTop ==> c == "items-start"
    ensures v == VCenter ==> c == "items-center"
    ensures v == VBottom ==> c == "items-end"
  {
    if v == VTop then "items-start" else if v == VCenter then "items-center" else "items-end"
  }

  /** The CSS `text-align` value of the horizontal alignment. */
  function HorizontalAlignCss(h: HorizontalAlign): (a: string)
    ensures h == HLeft ==> a == "left"
    ensures h == HCenter ==> a == "center"
    ensures h == HRight ==> a == "right"
  {
    match h
    case HLeft => "left"
    case HCenter => "center"
    case HRight => "right"
  }

  /** `[flag && name]` after `.filter(Boolean)`: the name when the flag is set and the name is non-empty. */
  function Keep(flag: bool, name: string): (parts: seq<string>)
    ensures |parts| <= 1
    ensures name in parts <==> flag && name != ""
    ensures forall p | p in parts :: p == name
  {
    if flag && name != "" then [name] else []
  }

  /** `parts.join(sep)`. */
  function Join(parts: seq<string>, sep: string): (s: string)
    ensures |parts| == 0 ==> s == ""
    ensures |parts| == 1 ==> s == parts[0]
    ensures |parts| == 2 ==> s == parts[0] + sep + parts[1]
    decreases |parts|
  {
    if |parts| == 0 then ""
    else if |parts| == 1 then parts[0]
    else parts[0] + sep + Join(parts[1..], sep)
  }

  /** `[underline && 'underline', linethrough && 'line-through'].filter(Boolean).join(' ') || 'none'`. */
  function TextDecoration(c: TextConfig): (d: string)
    ensures !c.underline && !c.linethrough ==> d == "none"
    ensures c.underline && !c.linethrough ==> d == "underline"
    ensures !c.underline && c.linethrough ==> d == "line-through"
    ensures c.underline && c.linethrough ==> d == "underline line-through"
  {
    var joined := Join(Keep(c.underline, "underline") + Keep(c.linethrough, "line-through"), " ");
    if joined == "" then "none" else joined
  }

  /** The four flag combinations give four different decorations, so no combination is lost. */
  lemma TextDecorationInjective(a: TextConfig, b: TextConfig)
    requires TextDecoration(a) == TextDecoration(b)
    ensures a.underline == b.underline && a.linethrough == b.linethrough
  {
    var da, db := TextDecoration(a), TextDecoration(b);
    assert "underline" != "none" && "line-through" != "none" && "underline line-through" != "none";
    assert "underline" != "line-through" && "underline" != "underline line-through";
    assert "line-through" != "underline line-through";
  }

  function TextTransform(c: TextConfig): (t: string)
    ensures t == "uppercase" <==> c.uppercase
    ensures t == "none" <==> !c.uppercase
  {
    if c.uppercase then "uppercase" else "none"
  }

  /** Only the exact string "italic" selects italic; every other value is "normal". */
  function FontStyleCss(c: TextConfig): (s: string)
    ensures s == "italic" <==> c.fontStyle == "italic"
    ensures s == "normal" <==> c.fontStyle != "italic"
  {
    if c.fontStyle == "italic" then "italic" else "normal"
  }

  /** Only the exact string "bold" selects bold; every other value is "normal". */
  function FontWeightCss(c: TextConfig): (w: string)
    ensures w == "bold" <==> c.fontWeight == "bold"
    ensures w == "normal" <==> c.fontWeight != "bold"
  {
    if c.fontWeight == "bold" then "bold" else "normal"
  }

  /** An inline style; lengths are kept as numbers with their unit implied by the field. */
  datatype Style = Style(
    color: string,
    textDecoration: string,
    textTransform: string,
    fontFamily: string,
    fontSize: Option<real>,
    textAlign: string,
    letterSpacingPx: real,
    strokeWidthPx: real,
    strokeColor: string,
    lineHeightEm: real,
    opacity: real,
    fontStyle: string,
    fontWeight: string,
    outlineWidthPx: real,
    outlineStyle: string,
    outlineColor: string,
    shadowXPx: real,
    shadowYPx: real,
    shadowBlurPx: real,
    shadowColor: string,
    backgroundColor: string)

  /** The style of the hidden copy that the fitter measures; it has no font size of its own. */
  function FitterStyle(c: TextConfig): (s: Style)
    ensures s.fontSize.None?
    ensures s.textDecoration == TextDecoration(c) && s.textTransform == TextTransform(c)
    ensures s.fontStyle == FontStyleCss(c) && s.fontWeight == FontWeightCss(c)
  {
    Style(c.fontColor, TextDecoration(c), TextTransform(c), c.fontFamily, None,
          HorizontalAlignCss(c.horizontalTextAlign), c.letterSpacing, c.strokeWidth, c.strokeColor,
          c.lineHeight, c.textOpacity, FontStyleCss(c), FontWeightCss(c),
          c.outlineWidth, c.outlineStyle, c.outlineColor,
          c.textShadowX, c.textShadowY, c.textShadowBlur, c.textShadowColor, c.backgroundColor)
  }

  /** The style of the visible editor: the fitter's style plus the fitted font size. */
  function EditorStyle(c: TextConfig, textFontSize: real): (s: Style)
    ensures s == FitterStyle(c).(fontSize := Some(textFontSize))
  {
    Style(c.fontColor, TextDecoration(c), TextTransform(c), c.fontFamily, Some(textFontSize),
          HorizontalAlignCss(c.horizontalTextAlign), c.letterSpacing, c.strokeWidth, c.strokeColor,
          c.lineHeight, c.textOpacity, FontStyleCss(c), FontWeightCss(c),
          c.outlineWidth, c.outlineStyle, c.outlineColor,
          c.textShadowX, c.textShadowY, c.textShadowBlur, c.textShadowColor, c.backgroundColor)
  }

  /** The default configuration renders plain, upright, normal-weight, undecorated text. */
  lemma DefaultStyle()
    ensures FitterStyle(DefaultTextConfig).textDecoration == "none"
    ensures FitterStyle(DefaultTextConfig).textTransform == "none"
    ensures FitterStyle(DefaultTextConfig).fontStyle == "normal"
    ensures FitterStyle(DefaultTextConfig).fontWeight == "normal"
  {
  }

  /**
   * The fitter's `onReady` rule: the state setter runs (with the fitted size) only when the
   * fitted size differs from the current one.
   */
  function FontSizeUpdate(current: real, fitted: real): (u: Option<real>)
    ensures u.Some? <==> fitted != current
    ensures u.Some? ==> u.value == fitted
  {
    if fitted != current then Some(fitted) else None
  }

  /** After applying an update the state equals the fitted size, and a second report of it changes nothing. */
  lemma FontSizeUpdateSettles(current: real, fitted: real)
    ensures FontSizeUpdate(current, fitted).GetOr(current) == fitted
    ensures FontSizeUpdate(FontSizeUpdate(current, fitted).GetOr(current), fitted).None?
  {
  }

  /** `e.currentTarget.textContent || ''`. */
  function InputText(textContent: Option<string>): (t: string)
    ensures textContent.Some? ==> t == textContent.value
    ensures textContent.None? ==> t == ""
  {
    match textContent
    case Some(s) => if s != "" then s else ""
    case None => ""
  }

  /** One text box: a DRR container plus the text, font-size and size state. */
  class TextBox {
    const drr: Controller
    var text: string
    var textFontSize: real
    var textAreaWidth: real
    var textAreaHeight: real

    /** The size state mirrors the container's committed size. */
    ghost predicate Valid()
      reads this, drr
    {
      drr.Valid() && textAreaWidth == drr.width && textAreaHeight == drr.height
    }

    constructor (initialPosition: Rect, config: TextConfig, validAreaId: string)
      ensures Valid() && fresh(drr)
      ensures drr.Position() == initialPosition && drr.validAreaId == validAreaId
      ensures drr.rotateGrip.None? && drr.resizeGrip.None?
      ensures text == config.initialText && textFontSize == 0.0
      ensures textAreaWidth == initialPosition.width && textAreaHeight == initialPosition.height
    {
      drr := new Controller(initialPosition, validAreaId);
      text := config.initialText;
      textFontSize := 0.0;
      textAreaWidth := initialPosition.width;
      textAreaHeight := initialPosition.height;
    }

    /** `sizeChangeCallback`: copies the committed size into the box's state. */
    method SizeChanged(newWidth: real, newHeight: real)
      modifies this`textAreaWidth, this`textAreaHeight
      ensures textAreaWidth == newWidth && textAreaHeight == newHeight
    {
      textAreaWidth := newWidth;
      textAreaHeight := newHeight;
    }

    /** A mouse-move during a gesture on the box; a committed resize is reported back to the box. */
    method MouseMove(clientX: real, clientY: real, pointerAngle: (real, real) -> real,
                     dom: map<string, (real, real)>) returns (toast: Option<Toast>)
      requires Valid()
      modifies drr`rotation, drr`x, drr`y, drr`width, drr`height, this`textAreaWidth, this`textAreaHeight
      ensures Valid()
      ensures drr.rotation == if drr.rotateGrip.Some? then RotationAt(drr.rotateGrip.value, clientX, clientY, pointerAngle)
                              else old(drr.rotation)
      ensures var o := if drr.resizeGrip.Some?
                       then ResizeDecision(drr.resizeGrip.value, clientX, clientY, ElementSize(dom, drr.validAreaId))
                       else Unchanged;
        && toast == ResizeToast(o)
        && (o.Resized? ==> drr.x == o.rect.x && drr.y == o.rect.y)
        && (!o.Resized? ==> drr.x == old(drr.x) && drr.y == old(drr.y))
        && (o.Resized? ==> textAreaWidth == o.rect.width && textAreaHeight == o.rect.height)
        && (!o.Resized? ==> textAreaWidth == old(textAreaWidth) && textAreaHeight == old(textAreaHeight))
    {
      var outcome := drr.MouseMove(clientX, clientY, pointerAngle, dom);
      toast := ResizeToast(outcome);
      var size := SizeChange(outcome);
      if size.Some? {
        SizeChanged(size.value.0, size.value.1);
      }
    }

    /** A drag of the box ends; the size state is untouched. */
    method DragEnd(deltaX: real, deltaY: real, dom: map<string, (real, real)>) returns (toast: Option<Toast>)
      requires Valid()
      modifies drr`x, drr`y
      ensures Valid()
      ensures var moved := old(drr.Position()).(x := old(drr.x) + deltaX, y := old(drr.y) + deltaY);
        var ok := CheckVisibleAreaValid(moved, ElementSize(dom, drr.validAreaId));
        && toast == MoveToast(ok)
        && (ok ==> drr.x == old(drr.x) + deltaX && drr.y == old(drr.y) + deltaY)
        && (!ok ==> drr.x == old(drr.x) && drr.y == old(drr.y))
    {
      var accepted := drr.DragEnd(deltaX, deltaY, dom);
      toast := MoveToast(accepted);
    }

    /** The fitter's `onReady`: `updated` says whether the font-size setter ran. */
    method OnReady(fitted: real) returns (updated: bool)
      modifies this`textFontSize
      ensures updated <==> FontSizeUpdate(old(textFontSize), fitted).Some?
      ensures textFontSize == FontSizeUpdate(old(textFontSize), fitted).GetOr(old(textFontSize))
      ensures textFontSize == fitted
    {
      updated := false;
      if fitted != textFontSize {
        textFontSize := fitted;
        updated := true;
      }
    }

    /** The editor's `onInput`. */
    method OnInput(textContent: Option<string>)
      modifies this`text
      ensures text == InputText(textContent)
    {
      text := InputText(textContent);
    }
  }
}
