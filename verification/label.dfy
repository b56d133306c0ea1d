/** label.go: the package-level label, with optional fixed width and
    height (a non-positive value means "follow the text"), a fixed margin of
    10 units in its min size, and optional colours (None is Go's nil). The
    text's measured min size is an input. */
module RootLabel {
  import opened Basics
  import opened Geometry
  import opened Base

  datatype Label = Label(
    title: string, foreground: Option<Color>, background: Option<Color>, fontSize: real,
    alignment: TextAlign, fixedWidth: real, fixedHeight: real)

  /** The margin `MinSize` adds on each axis. */
  const Margin: real := 10.0

  /** `NewLabel`: the theme's text size, leading alignment, nothing fixed
      and no colours. */
  function NewLabel(text: string): (l: Label)
    ensures l.title == text && l.fontSize == ThemeTextSize && l.alignment == AlignLeading
    ensures l.foreground.None? && l.background.None? && l.fixedWidth == 0.0 && l.fixedHeight == 0.0
  {
    Label(text, None, None, ThemeTextSize, AlignLeading, 0.0, 0.0)
  }

  /** The state of the drawn text and background. */
  datatype Rendered = Rendered(text: string, textColor: Color, textSize: real, alignment: TextAlign, fill: Color)

  /** The text size the renderer uses: the font size when positive, the
      theme's size otherwise. */
  function RenderedSize(l: Label): (s: real)
    ensures s > 0.0 && (l.fontSize > 0.0 ==> s == l.fontSize)
  {
    if l.fontSize > 0.0 then l.fontSize else ThemeTextSize
  }

  /** `CreateRenderer`: the text in the colour set or the theme's
      foreground, on the colour set or the theme's background. */
  function CreateRenderer(l: Label): (r: Rendered)
    ensures r.text == l.title && r.textSize == RenderedSize(l) && r.alignment == l.alignment
    ensures r.textColor == if l.foreground.Some? then l.foreground.value else Themed(ColorForeground)
    ensures r.fill == if l.background.Some? then l.background.value else Themed(ColorBackground)
  {
    Rendered(l.title,
             if l.foreground.Some? then l.foreground.value else Themed(ColorForeground),
             RenderedSize(l), l.alignment,
             if l.background.Some? then l.background.value else Themed(ColorBackground))
  }

  /** `labelRenderer.Refresh` as written: with no colour set, the text
      falls back to the theme's background colour. */
  function Refresh(l: Label): (r: Rendered)
    ensures r.text == l.title && r.textSize == RenderedSize(l) && r.alignment == l.alignment
    ensures r.fill == CreateRenderer(l).fill
    ensures l.foreground.Some? ==> r.textColor == l.foreground.value
    ensures l.foreground.None? ==> r.textColor == Themed(ColorBackground)
  {
    Rendered(l.title,
             if l.foreground.Some? then l.foreground.value else Themed(ColorBackground),
             RenderedSize(l), l.alignment,
             if l.background.Some? then l.background.value else Themed(ColorBackground))
  }

  /** As written, refreshing a label with no colours draws its text in the
      colour of its background, unlike the renderer just created. */
  lemma RefreshHidesDefaultText(text: string)
    ensures Refresh(NewLabel(text)).textColor == Refresh(NewLabel(text)).fill
    ensures CreateRenderer(NewLabel(text)).textColor != CreateRenderer(NewLabel(text)).fill
    ensures Refresh(NewLabel(text)) != CreateRenderer(NewLabel(text))
  {
  }

  /** `Refresh` with the theme's foreground as the text fallback. */
  function RefreshCorrected(l: Label): (r: Rendered)
    ensures r.text == l.title && r.textSize == RenderedSize(l) && r.alignment == l.alignment
    ensures r.textColor == if l.foreground.Some? then l.foreground.value else Themed(ColorForeground)
    ensures r.fill == if l.background.Some? then l.background.value else Themed(ColorBackground)
  {
    Refresh(l).(textColor := if l.foreground.Some? then l.foreground.value else Themed(ColorForeground))
  }

  /** Corrected, a refresh redraws exactly what the renderer drew when it
      was created, and a label with its default colours keeps its text
      distinct from its background. */
  lemma RefreshAgreesWithCreate(l: Label)
    ensures RefreshCorrected(l) == CreateRenderer(l)
    ensures l.foreground.None? && l.background.None? ==> RefreshCorrected(l).textColor != RefreshCorrected(l).fill
  {
  }

  /** `labelRenderer.MinSize`: the text size plus the margin. */
  function MinSize(l: Label, textMin: Size): (m: Size)
    ensures m.width - Margin == FixedTextSize(l.fixedWidth, l.fixedHeight, textMin).width
    ensures m.height - Margin == FixedTextSize(l.fixedWidth, l.fixedHeight, textMin).height
  {
    var ts := FixedTextSize(l.fixedWidth, l.fixedHeight, textMin);
    Size(ts.width + Margin, ts.height + Margin)
  }

  datatype Placement = Placement(background: Rect, text: Rect)

  /** `labelRenderer.Layout`: the background fills the label; the text
      keeps its size and is centred vertically, and horizontally centred,
      right-aligned or left-aligned by its alignment. */
  function Layout(l: Label, textMin: Size, size: Size): (p: Placement)
    ensures p.background == Rect(Pos(0.0, 0.0), size) && p.text.size == FixedTextSize(l.fixedWidth, l.fixedHeight, textMin)
  {
    var ts := FixedTextSize(l.fixedWidth, l.fixedHeight, textMin);
    var y := (size.height - ts.height) / 2.0;
    var x := match l.alignment
      case AlignCenter => (size.width - ts.width) / 2.0
      case AlignTrailing => size.width - ts.width
      case _ => 0.0;
    Placement(Rect(Pos(0.0, 0.0), size), Rect(Pos(x, y), ts))
  }

  /** The text position is the nine-way anchor of the base package: centre
      for centred text, centre-right for trailing text, centre-left
      otherwise. */
  lemma LayoutAnchors(l: Label, textMin: Size, size: Size)
    ensures var anchor := match l.alignment
        case AlignCenter => Center
        case AlignTrailing => CenterRight
        case _ => CenterLeft;
      Layout(l, textMin, size).text.pos == ChildPosition(anchor, size, FixedTextSize(l.fixedWidth, l.fixedHeight, textMin))
  {
  }

  /** Laid out at its min size, centred text has 5 units of margin on
      every side. */
  lemma CenteredMargins(l: Label, textMin: Size)
    requires l.alignment == AlignCenter
    ensures var p := Layout(l, textMin, MinSize(l, textMin));
      && p.text.pos == Pos(Margin / 2.0, Margin / 2.0)
      && p.text.pos.x + p.text.size.width + Margin / 2.0 == p.background.size.width
      && p.text.pos.y + p.text.size.height + Margin / 2.0 == p.background.size.height
  {
  }
}
