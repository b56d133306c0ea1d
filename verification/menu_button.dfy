/** mywidget/menu.button.go: a text button for menus with separate text
    and background colours for its normal, hovered and selected states, a
    text size, an alignment and a padding. An unset colour or size is None
    (Go's nil); the click handler matters only by being set. The label's
    min size is an input. */
module MenuButton {
  import opened Basics
  import opened Geometry

  /** The six colour settings. */
  datatype Slot = NormalText | HoverText | SelectedText | NormalBg | HoverBg | SelectedBg

  datatype MenuButton = MenuButton(
    text: string, hasOnClick: bool, isSelected: bool, isHovered: bool,
    colors: map<Slot, Color>, textSize: Option<real>, textAlign: TextAlign, padding: EdgeInset)

  /** `NewMenuButton`: centred text, neither selected nor hovered, no
      colours, no text size and no padding. */
  function NewMenuButton(text: string, hasOnClick: bool): (b: MenuButton)
    ensures b.text == text && b.hasOnClick == hasOnClick
    ensures b.textAlign == AlignCenter && !b.isSelected && !b.isHovered
    ensures b.colors == map[] && b.textSize.None? && b.padding == NoInset
  {
    MenuButton(text, hasOnClick, false, false, map[], None, AlignCenter, NoInset)
  }

  predicate IsText(s: Slot) { s == NormalText || s == HoverText || s == SelectedText }

  /** The `Set*Color` setters. Go's `color.Color` is an interface, so a
      setter also takes nil (None), which clears the slot and brings back
      the theme's colour in its getter. */
  function SetColor(b: MenuButton, slot: Slot, c: Option<Color>): (r: MenuButton)
    ensures c.Some? ==> r.colors == b.colors[slot := c.value]
    ensures c.None? ==> slot !in r.colors && r.colors == b.colors - {slot}
    ensures r.(colors := b.colors) == b
  {
    match c
    case Some(v) => b.(colors := b.colors[slot := v])
    case None => b.(colors := b.colors - {slot})
  }

  /** The `Get*Color` getters: the colour set for the slot, or the theme's
      foreground for a text slot and background for a background slot. */
  function GetColor(b: MenuButton, slot: Slot): (c: Color)
    ensures slot in b.colors ==> c == b.colors[slot]
    ensures slot !in b.colors && IsText(slot) ==> c == Themed(ColorForeground)
    ensures slot !in b.colors && !IsText(slot) ==> c == Themed(ColorBackground)
  {
    if slot in b.colors then b.colors[slot]
    else if IsText(slot) then Themed(ColorForeground)
    else Themed(ColorBackground)
  }

  /** The theme colour a getter falls back on for an unset slot. */
  function ThemeFallback(slot: Slot): (c: Color)
    ensures c == Themed(ColorForeground) <==> IsText(slot)
  {
    if IsText(slot) then Themed(ColorForeground) else Themed(ColorBackground)
  }

  /** A getter returns what its setter set, a nil colour brings back the
      theme's, and a setter affects no other slot's getter. */
  lemma GetAfterSetColor(b: MenuButton, slot: Slot, other: Slot, c: Option<Color>)
    ensures c.Some? ==> GetColor(SetColor(b, slot, c), slot) == c.value
    ensures c.None? ==> GetColor(SetColor(b, slot, c), slot) == ThemeFallback(slot)
    ensures other != slot ==> GetColor(SetColor(b, slot, c), other) == GetColor(b, other)
  {
  }

  /** `GetTextSize`: the size set, or the theme's text size. */
  function GetTextSize(b: MenuButton): (s: real)
    ensures b.textSize.Some? ==> s == b.textSize.value
    ensures b.textSize.None? ==> s == ThemeTextSize
  {
    if b.textSize.Some? then b.textSize.value else ThemeTextSize
  }

  function SetTextSize(b: MenuButton, size: real): (r: MenuButton)
    ensures GetTextSize(r) == size && r.(textSize := b.textSize) == b
  {
    b.(textSize := Some(size))
  }

  /** The slot whose colour is shown: selected wins over hovered, which wins
      over normal. */
  function ShownSlot(b: MenuButton, text: bool): (s: Slot)
    ensures IsText(s) == text
    ensures b.isSelected ==> s == (if text then SelectedText else SelectedBg)
    ensures !b.isSelected && b.isHovered ==> s == (if text then HoverText else HoverBg)
    ensures !b.isSelected && !b.isHovered ==> s == (if text then NormalText else NormalBg)
  {
    if b.isSelected then (if text then SelectedText else SelectedBg)
    else if b.isHovered then (if text then HoverText else HoverBg)
    else (if text then NormalText else NormalBg)
  }

  /** `getTextColor`: the selected text colour when selected, else the
      hover text colour when hovered, else the normal text colour; an unset
      colour falls back to the theme's foreground. */
  function TextColor(b: MenuButton): (c: Color)
    ensures b.isSelected ==> c == GetColor(b, SelectedText)
    ensures !b.isSelected && b.isHovered ==> c == GetColor(b, HoverText)
    ensures !b.isSelected && !b.isHovered ==> c == GetColor(b, NormalText)
    ensures ShownSlot(b, true) !in b.colors ==> c == Themed(ColorForeground)
  {
    GetColor(b, ShownSlot(b, true))
  }

  /** `getBackgroundColor`: the same precedence over the background
      colours, falling back to the theme's background. */
  function BackgroundColor(b: MenuButton): (c: Color)
    ensures b.isSelected ==> c == GetColor(b, SelectedBg)
    ensures !b.isSelected && b.isHovered ==> c == GetColor(b, HoverBg)
    ensures !b.isSelected && !b.isHovered ==> c == GetColor(b, NormalBg)
    ensures ShownSlot(b, false) !in b.colors ==> c == Themed(ColorBackground)
  {
    GetColor(b, ShownSlot(b, false))
  }

  /** `SetIsSelected`, `MouseIn`, `MouseOut` and `MouseMoved`. */
  function SetIsSelected(b: MenuButton, selected: bool): (r: MenuButton)
    ensures r.isSelected == selected && r.(isSelected := b.isSelected) == b
  {
    b.(isSelected := selected)
  }

  function MouseIn(b: MenuButton): (r: MenuButton)
    ensures r.isHovered && r.(isHovered := b.isHovered) == b
  {
    b.(isHovered := true)
  }

  function MouseOut(b: MenuButton): (r: MenuButton)
    ensures !r.isHovered && r.(isHovered := b.isHovered) == b
  {
    b.(isHovered := false)
  }

  function MouseMoved(b: MenuButton): (r: MenuButton)
    ensures r == b
  {
    b
  }

  /** `Tapped`: reports whether `OnClick` runs, and changes no state. */
  function Tapped(b: MenuButton): (r: (MenuButton, bool))
    ensures r.0 == b && (r.1 <==> b.hasOnClick)
  {
    (b, b.hasOnClick)
  }

  /** A selected button shows its selected colours whatever the mouse does;
      moving the mouse in and out again restores the colours of a button
      that was not hovered. */
  lemma HoverDoesNotOverrideSelection(b: MenuButton)
    ensures b.isSelected ==>
      TextColor(MouseIn(b)) == TextColor(b) == TextColor(MouseOut(b))
      && BackgroundColor(MouseIn(b)) == BackgroundColor(b) == BackgroundColor(MouseOut(b))
    ensures !b.isHovered ==>
      TextColor(MouseOut(MouseIn(b))) == TextColor(b)
      && BackgroundColor(MouseOut(MouseIn(b))) == BackgroundColor(b)
    ensures !b.isSelected ==>
      TextColor(MouseIn(b)) == GetColor(b, HoverText) && BackgroundColor(MouseIn(b)) == GetColor(b, HoverBg)
  {
  }

  /** `menuButtonRenderer.MinSize`: the label's min size plus the padding. */
  function MinSize(b: MenuButton, labelMin: Size): (m: Size)
    ensures m.width - b.padding.Horizontal() == labelMin.width
    ensures m.height - b.padding.Vertical() == labelMin.height
  {
    Size(labelMin.width + b.padding.left + b.padding.right,
         labelMin.height + b.padding.top + b.padding.bottom)
  }

  /** Where `Layout` puts the background and the label. */
  datatype Placement = Placement(background: Rect, caption: Rect)

  /** `menuButtonRenderer.Layout` as written: the background fills the
      button; the label is sized to its min size plus the padding and moved
      to the padding's top-left corner, so the padding is counted twice. */
  function Layout(b: MenuButton, labelMin: Size, size: Size): (p: Placement)
    ensures p.background == Rect(Pos(0.0, 0.0), size)
    ensures p.caption.pos == Pos(b.padding.left, b.padding.top)
    ensures p.caption.size == MinSize(b, labelMin)
  {
    Placement(Rect(Pos(0.0, 0.0), size),
              Rect(Pos(b.padding.left, b.padding.top),
                   Size(labelMin.width + b.padding.left + b.padding.right,
                        labelMin.height + b.padding.top + b.padding.bottom)))
  }

  /** As written, at its min size the label box sticks out of the button by
      the left padding on the right and by the top padding at the bottom:
      with 10 units of padding on every side, a 50×20 label runs to 80×50
      in a 70×40 button. */
  lemma LabelOverflowsButton()
    ensures var b := NewMenuButton("File", true).(padding := EdgeInset(10.0, 10.0, 10.0, 10.0));
      var m := MinSize(b, Size(50.0, 20.0));
      var cap := Layout(b, Size(50.0, 20.0), m).caption;
      m == Size(70.0, 40.0)
      && cap.pos.x + cap.size.width == 80.0 && cap.pos.y + cap.size.height == 50.0
  {
  }

  /** `Layout` with the label given the area inside the padding, which the
      min size is computed for. */
  function LayoutCorrected(b: MenuButton, labelMin: Size, size: Size): (p: Placement)
    ensures p.background == Rect(Pos(0.0, 0.0), size)
    ensures p.caption.pos == Pos(b.padding.left, b.padding.top)
    ensures p.caption.pos.x + p.caption.size.width + b.padding.right == size.width
    ensures p.caption.pos.y + p.caption.size.height + b.padding.bottom == size.height
  {
    Placement(Rect(Pos(0.0, 0.0), size),
              Rect(Pos(b.padding.left, b.padding.top),
                   Size(size.width - b.padding.left - b.padding.right,
                        size.height - b.padding.top - b.padding.bottom)))
  }

  /** Corrected, the label gets exactly its min size at the button's min
      size, and at least that at any larger size. */
  lemma CorrectedLabelFits(b: MenuButton, labelMin: Size, size: Size)
    requires size.width >= MinSize(b, labelMin).width && size.height >= MinSize(b, labelMin).height
    ensures LayoutCorrected(b, labelMin, size).caption.size.width >= labelMin.width
    ensures LayoutCorrected(b, labelMin, size).caption.size.height >= labelMin.height
    ensures size == MinSize(b, labelMin) ==> LayoutCorrected(b, labelMin, size).caption.size == labelMin
  {
  }
}
