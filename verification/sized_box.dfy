/** mywidget/sized.box.go: a box of a fixed width and height (either may be
    left to the content) with a background and one optional child inset by a
    padding. `Infinity` as a width or height means "as wide or as high as
    the space given", and a negative value is read as `Infinity` by the
    getters. The child is represented by its min size; the background colour
    by an optional colour, None standing for Go's nil. */
module SizedBox {
  import opened Basics
  import opened Geometry
  import opened Base

  datatype SizedBox = SizedBox(
    width: real, height: real, padding: EdgeInset, background: Option<Color>, child: Option<Size>)

  /** What the renderer draws: the background rectangle, then the child. */
  datatype Object = Background | Child

  /** What `Layout` moves and resizes: the background always, the child
      when there is one. */
  datatype Placement = Placement(background: Rect, child: Option<Rect>)

  /** `NewSizedBox`: the given size, colour and child, and no padding. */
  function NewSizedBox(size: Size, background: Option<Color>, child: Option<Size>): (b: SizedBox)
    ensures b.width == size.width && b.height == size.height
    ensures b.padding == NoInset && b.background == background && b.child == child
  {
    SizedBox(size.width, size.height, NoInset, background, child)
  }

  /** `NewFixedWidthBox`: the height follows the space given. */
  function NewFixedWidthBox(width: real, background: Option<Color>, child: Option<Size>): (b: SizedBox)
    ensures b == NewSizedBox(Size(width, Infinity), background, child)
  {
    NewSizedBox(Size(width, Infinity), background, child)
  }

  /** `NewFixedHeightBox`: the width follows the space given. */
  function NewFixedHeightBox(height: real, background: Option<Color>, child: Option<Size>): (b: SizedBox)
    ensures b == NewSizedBox(Size(Infinity, height), background, child)
  {
    NewSizedBox(Size(Infinity, height), background, child)
  }

  /** The getters' reading of a stored length: a non-negative value as it
      is, a negative one as `Infinity`. */
  function Sentinel(v: real): (r: real)
    ensures r >= 0.0
    ensures r == v || r == Infinity
    ensures r == v <==> v >= 0.0
  {
    if v >= 0.0 then v else Infinity
  }

  /** `GetWidth` and `GetHeight`. */
  function GetWidth(b: SizedBox): (r: real)
    ensures r == Sentinel(b.width)
  {
    Sentinel(b.width)
  }

  function GetHeight(b: SizedBox): (r: real)
    ensures r == Sentinel(b.height)
  {
    Sentinel(b.height)
  }

  /** `GetBackgroundColor`: the theme's background colour when none is set. */
  function GetBackgroundColor(b: SizedBox): (c: Color)
    ensures b.background.Some? ==> c == b.background.value
    ensures b.background.None? ==> c == Themed(ColorBackground)
  {
    ColorOr(b.background, ColorBackground)
  }

  /** The setters. Each changes its own field and leaves the rest alone. */
  function SetWidth(b: SizedBox, width: real): (r: SizedBox)
    ensures r.width == width && r.(width := b.width) == b
  {
    b.(width := width)
  }

  function SetHeight(b: SizedBox, height: real): (r: SizedBox)
    ensures r.height == height && r.(height := b.height) == b
  {
    b.(height := height)
  }

  function SetPadding(b: SizedBox, padding: EdgeInset): (r: SizedBox)
    ensures r.padding == padding && r.(padding := b.padding) == b
  {
    b.(padding := padding)
  }

  function SetBackgroundColor(b: SizedBox, c: Option<Color>): (r: SizedBox)
    ensures r.background == c && r.(background := b.background) == b
  {
    b.(background := c)
  }

  function SetChild(b: SizedBox, child: Option<Size>): (r: SizedBox)
    ensures r.child == child && r.(child := b.child) == b
  {
    b.(child := child)
  }

  /** What the getters return after the setters: the value set, read
      through the sentinel. */
  lemma GetAfterSet(b: SizedBox, v: real, c: Color)
    ensures GetWidth(SetWidth(b, v)) == (if v >= 0.0 then v else Infinity)
    ensures GetHeight(SetHeight(b, v)) == (if v >= 0.0 then v else Infinity)
    ensures GetBackgroundColor(SetBackgroundColor(b, Some(c))) == c
    ensures GetBackgroundColor(SetBackgroundColor(b, None)) == Themed(ColorBackground)
    ensures GetWidth(SetHeight(b, v)) == GetWidth(b) && GetHeight(SetWidth(b, v)) == GetHeight(b)
  {
  }

  /** The length along one axis that `MinSize` gives: the stored length
      when the getter returns something other than `Infinity`, else the
      padding on that axis plus the child's min length (if any). */
  function MinLength(stored: real, pad: real, childMin: Option<real>): (r: real)
    ensures Sentinel(stored) != Infinity ==> r == stored
    ensures Sentinel(stored) == Infinity && childMin.None? ==> r == pad
    ensures Sentinel(stored) == Infinity && childMin.Some? ==> r == pad + childMin.value
  {
    var g := Sentinel(stored);
    if g == Infinity then pad + (if childMin.Some? then childMin.value else 0.0) else g
  }

  /** `sizedBoxRenderer.MinSize`: per axis, the fixed length, or the content
      with its padding when the length is left open (`Infinity` or
      negative). */
  function MinSize(b: SizedBox): (m: Size)
    ensures m.width == MinLength(b.width, b.padding.Horizontal(), if b.child.Some? then Some(b.child.value.width) else None)
    ensures m.height == MinLength(b.height, b.padding.Vertical(), if b.child.Some? then Some(b.child.value.height) else None)
  {
    Size(MinLength(b.width, b.padding.Horizontal(), if b.child.Some? then Some(b.child.value.width) else None),
         MinLength(b.height, b.padding.Vertical(), if b.child.Some? then Some(b.child.value.height) else None))
  }

  /** The size of the background in `Layout`: the min size, stretched to
      the space given on an axis whose stored length is exactly `Infinity`
      (the raw field, not the getter). */
  function BoxSize(b: SizedBox, size: Size): (s: Size)
    ensures s.width == if b.width == Infinity then size.width else MinSize(b).width
    ensures s.height == if b.height == Infinity then size.height else MinSize(b).height
  {
    var m := MinSize(b);
    Size(if b.width == Infinity then size.width else m.width,
         if b.height == Infinity then size.height else m.height)
  }

  /** `sizedBoxRenderer.Layout`: the background is centred in the space
      given, and the child fills it less the padding. */
  function Layout(b: SizedBox, size: Size): (p: Placement)
    ensures p.background.size == BoxSize(b, size)
    ensures p.background.pos.x == size.width - (p.background.pos.x + p.background.size.width)
    ensures p.background.pos.y == size.height - (p.background.pos.y + p.background.size.height)
    ensures p.child.Some? <==> b.child.Some?
    ensures p.child.Some? ==>
      var c := p.child.value;
      var bg := p.background;
      && c.pos.x == bg.pos.x + b.padding.left && c.pos.y == bg.pos.y + b.padding.top
      && c.pos.x + c.size.width + b.padding.right == bg.pos.x + bg.size.width
      && c.pos.y + c.size.height + b.padding.bottom == bg.pos.y + bg.size.height
  {
    var boxSize := BoxSize(b, size);
    var boxPosition := ChildPosition(Center, size, boxSize);
    var child :=
      if b.child.Some? then
        Some(Rect(AddPos(boxPosition, b.padding.left, b.padding.top),
                  Size(boxSize.width - (b.padding.left + b.padding.right),
                       boxSize.height - (b.padding.top + b.padding.bottom))))
      else None;
    Placement(Rect(boxPosition, boxSize), child)
  }

  /** A box whose length is stored as `Infinity` stretches across the space
      given on that axis; a fixed non-negative length is kept whatever the
      space. */
  lemma StretchOrFixed(b: SizedBox, size: Size)
    ensures b.width == Infinity ==>
      Layout(b, size).background.pos.x == 0.0 && Layout(b, size).background.size.width == size.width
    ensures 0.0 <= b.width != Infinity ==> Layout(b, size).background.size.width == b.width
    ensures b.height == Infinity ==>
      Layout(b, size).background.pos.y == 0.0 && Layout(b, size).background.size.height == size.height
    ensures 0.0 <= b.height != Infinity ==> Layout(b, size).background.size.height == b.height
  {
  }

  /** A negative stored length reads as `Infinity` through the getter and
      is an open length for `MinSize`, which sizes the box to its content,
      but not for `Layout`, which does not stretch it: the box hugs its
      child whatever the space given. */
  lemma NegativeLengthHugsContent(b: SizedBox, size: Size)
    requires b.width < 0.0 && b.child.Some?
    ensures GetWidth(b) == Infinity
    ensures MinSize(b).width == b.padding.Horizontal() + b.child.value.width
    ensures Layout(b, size).background.size.width == MinSize(b).width
  {
  }

  /** With both lengths open, a box laid out at its own min size gives the
      child exactly its min size. */
  lemma ContentFitsAtMinSize(b: SizedBox)
    requires b.child.Some?
    requires b.width == Infinity && b.height == Infinity
    ensures Layout(b, MinSize(b)).child == Some(Rect(Pos(b.padding.left, b.padding.top), b.child.value))
  {
  }

  /** `Objects`: the background, then the child when there is one. */
  function Objects(b: SizedBox): (objs: seq<Object>)
    ensures |objs| >= 1 && objs[0] == Background
    ensures Child in objs <==> b.child.Some?
    ensures |objs| == if b.child.Some? then 2 else 1
  {
    if b.child.None? then [Background] else [Background, Child]
  }

  /** `Layout` places exactly what `Objects` lists. */
  lemma LayoutMatchesObjects(b: SizedBox, size: Size)
    ensures Child in Objects(b) <==> Layout(b, size).child.Some?
  {
  }
}
