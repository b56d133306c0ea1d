/** mywidget/spacer.go: a transparent spacer of a fixed width and height,
    where `Infinity` on an axis means "no minimum, take what the parent
    gives". */
module Spacer {
  import opened Geometry

  datatype FixedSpacer = FixedSpacer(width: real, height: real)

  /** `NewFixedSpacer`, `NewWidthSpacer` and `NewHeightSpacer`. */
  function NewFixedSpacer(width: real, height: real): (s: FixedSpacer)
    ensures s.width == width && s.height == height
  {
    FixedSpacer(width, height)
  }

  function NewWidthSpacer(width: real): (s: FixedSpacer)
    ensures s.width == width && s.height == Infinity
  {
    NewFixedSpacer(width, Infinity)
  }

  function NewHeightSpacer(height: real): (s: FixedSpacer)
    ensures s.width == Infinity && s.height == height
  {
    NewFixedSpacer(Infinity, height)
  }

  /** The minimum of one axis: nothing for `Infinity`, the stored length
      otherwise. */
  function MinLength(v: real): (m: real)
    ensures v == Infinity ==> m == 0.0
    ensures v != Infinity ==> m == v
  {
    if v == Infinity then 0.0 else v
  }

  /** `FixedSpacer.MinSize`. */
  function MinSize(s: FixedSpacer): (m: Size)
    ensures m.width == MinLength(s.width) && m.height == MinLength(s.height)
  {
    Size(MinLength(s.width), MinLength(s.height))
  }

  /** `fixedSpacerRenderer.MinSize` delegates to the widget. */
  function RendererMinSize(s: FixedSpacer): (m: Size)
    ensures m == MinSize(s)
  {
    MinSize(s)
  }

  /** `fixedSpacerRenderer.Layout`: the rectangle takes exactly the size
      given, whatever the spacer's lengths (the `Infinity` branches assign
      each length to itself). */
  function Layout(s: FixedSpacer, size: Size): (rect: Size)
    ensures rect == size
  {
    var w := if s.width == Infinity then size.width else size.width;
    var h := if s.height == Infinity then size.height else size.height;
    Size(w, h)
  }

  /** A width spacer asks for its width and no height, a height spacer for
      its height and no width; a finite length is asked for as given. */
  lemma SpacerMinSizes(w: real, h: real)
    requires w != Infinity && h != Infinity
    ensures MinSize(NewWidthSpacer(w)) == Size(w, 0.0)
    ensures MinSize(NewHeightSpacer(h)) == Size(0.0, h)
    ensures MinSize(NewFixedSpacer(w, h)) == Size(w, h)
    ensures RendererMinSize(NewWidthSpacer(w)) == MinSize(NewWidthSpacer(w))
  {
  }
}
