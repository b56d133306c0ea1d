/** mywidget/label.go: a label with optional fixed width and height (a
    non-positive value means "follow the text"), a padding, a font size and
    optional colours (None is Go's nil). The text's measured min size is an
    input. */
module PaddedLabel {
  import opened Basics
  import opened Geometry
  import opened Base

  datatype Label = Label(
    title: string, foreground: Option<Color>, background: Option<Color>, fontSize: real,
    alignment: TextAlign, fixedWidth: real, fixedHeight: real, padding: EdgeInset)

  /** `NewLabel`: the theme's text size, leading alignment, nothing fixed,
      no colours and no padding. */
  function NewLabel(text: string): (l: Label)
    ensures l.title == text && l.fontSize == ThemeTextSize && l.alignment == AlignLeading
    ensures l.foreground.None? && l.background.None?
    ensures l.fixedWidth == 0.0 && l.fixedHeight == 0.0 && l.padding == NoInset
  {
    Label(text, None, None, ThemeTextSize, AlignLeading, 0.0, 0.0, NoInset)
  }

  /** `FontSize`: the size set when positive, the theme's size otherwise. */
  function FontSize(l: Label): (s: real)
    ensures s > 0.0
    ensures l.fontSize > 0.0 ==> s == l.fontSize
    ensures l.fontSize <= 0.0 ==> s == ThemeTextSize
  {
    if l.fontSize <= 0.0 then ThemeTextSize else l.fontSize
  }

  function SetFontSize(l: Label, size: real): (r: Label)
    ensures r.fontSize == size && r.(fontSize := l.fontSize) == l
  {
    if size != l.fontSize then l.(fontSize := size) else l
  }

  /** `Color` and `BackgroundColor`: the colour set, or the theme's
      foreground and background. */
  function Color(l: Label): (c: Geometry.Color)
    ensures l.foreground.Some? ==> c == l.foreground.value
    ensures l.foreground.None? ==> c == Themed(ColorForeground)
  {
    ColorOr(l.foreground, ColorForeground)
  }

  function BackgroundColor(l: Label): (c: Geometry.Color)
    ensures l.background.Some? ==> c == l.background.value
    ensures l.background.None? ==> c == Themed(ColorBackground)
  {
    ColorOr(l.background, ColorBackground)
  }

  /** With no colours set, the text and the background differ. */
  lemma DefaultColorsDiffer(text: string)
    ensures Color(NewLabel(text)) != BackgroundColor(NewLabel(text))
  {
  }

  /** One axis of `labelRenderer.MinSize`: a positive fixed length as is,
      otherwise the text's min length plus the padding on that axis. */
  function MinLength(fixed: real, textMin: real, pad: real): (r: real)
    ensures fixed > 0.0 ==> r == fixed
    ensures fixed <= 0.0 ==> r - pad == textMin
  {
    if fixed > 0.0 then fixed else textMin + pad
  }

  /** `labelRenderer.MinSize`. */
  function MinSize(l: Label, textMin: Size): (m: Size)
    ensures m.width == MinLength(l.fixedWidth, textMin.width, l.padding.Horizontal())
    ensures m.height == MinLength(l.fixedHeight, textMin.height, l.padding.Vertical())
  {
    Size(MinLength(l.fixedWidth, textMin.width, l.padding.left + l.padding.right),
         MinLength(l.fixedHeight, textMin.height, l.padding.top + l.padding.bottom))
  }

  /** The anchor the alignment picks: centre for centred text, centre-right
      for trailing text, centre-left for anything else. */
  function AnchorOf(a: TextAlign): (p: Position)
    ensures a == AlignCenter ==> p == Center
    ensures a == AlignTrailing ==> p == CenterRight
    ensures a != AlignCenter && a != AlignTrailing ==> p == CenterLeft
  {
    match a
    case AlignCenter => Center
    case AlignTrailing => CenterRight
    case _ => CenterLeft
  }

  datatype Placement = Placement(background: Rect, text: Rect)

  /** `labelRenderer.Layout` as written: the background fills the label;
      the text is anchored in the whole label, padding ignored. */
  function Layout(l: Label, textMin: Size, size: Size): (p: Placement)
    ensures p.background == Rect(Pos(0.0, 0.0), size)
    ensures p.text.size == FixedTextSize(l.fixedWidth, l.fixedHeight, textMin)
    ensures p.text.pos == ChildPosition(AnchorOf(l.alignment), size, FixedTextSize(l.fixedWidth, l.fixedHeight, textMin))
  {
    var ts := FixedTextSize(l.fixedWidth, l.fixedHeight, textMin);
    Placement(Rect(Pos(0.0, 0.0), size), Rect(ChildPosition(AnchorOf(l.alignment), size, ts), ts))
  }

  /** As written, `Layout` ignores the padding that `MinSize` reserves:
      leading text with 10 units of left padding still starts at x = 0. */
  lemma LayoutIgnoresPadding()
    ensures var l := NewLabel("Name").(padding := EdgeInset(0.0, 0.0, 0.0, 10.0));
      var textMin := Size(40.0, 20.0);
      && MinSize(l, textMin) == Size(50.0, 20.0)
      && Layout(l, textMin, MinSize(l, textMin)).text.pos.x == 0.0
  {
  }

  /** The area inside the padding. */
  function Inner(l: Label, size: Size): (r: Rect)
    ensures r.pos == Pos(l.padding.left, l.padding.top)
    ensures r.pos.x + r.size.width + l.padding.right == size.width
    ensures r.pos.y + r.size.height + l.padding.bottom == size.height
  {
    Rect(Pos(l.padding.left, l.padding.top),
         Size(size.width - l.padding.left - l.padding.right, size.height - l.padding.top - l.padding.bottom))
  }

  /** `Layout` with the text anchored inside the padding. */
  function LayoutCorrected(l: Label, textMin: Size, size: Size): (p: Placement)
    ensures p.background == Rect(Pos(0.0, 0.0), size)
    ensures p.text.size == FixedTextSize(l.fixedWidth, l.fixedHeight, textMin)
    ensures p.text.pos == AddPos(ChildPosition(AnchorOf(l.alignment), Inner(l, size).size, FixedTextSize(l.fixedWidth, l.fixedHeight, textMin)),
                                 l.padding.left, l.padding.top)
  {
    var ts := FixedTextSize(l.fixedWidth, l.fixedHeight, textMin);
    var inner := Inner(l, size);
    Placement(Rect(Pos(0.0, 0.0), size),
              Rect(AddPos(ChildPosition(AnchorOf(l.alignment), inner.size, ts), l.padding.left, l.padding.top), ts))
  }

  /** Corrected, a label that follows its text, laid out at its min size or
      larger, keeps the text inside the padding on every side. */
  lemma CorrectedTextInsidePadding(l: Label, textMin: Size, size: Size)
    requires l.fixedWidth <= 0.0 && l.fixedHeight <= 0.0
    requires size.width >= MinSize(l, textMin).width && size.height >= MinSize(l, textMin).height
    ensures var t := LayoutCorrected(l, textMin, size).text;
      && t.pos.x >= l.padding.left && t.pos.y >= l.padding.top
      && t.pos.x + t.size.width + l.padding.right <= size.width
      && t.pos.y + t.size.height + l.padding.bottom <= size.height
  {
  }
}
