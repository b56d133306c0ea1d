/** The host toolkit's value types as the widgets use them: sizes, positions,
    rectangles, edge insets, colours and the theme defaults. Lengths are
    `real` (the toolkit's float32 without rounding). */
module Geometry {

  datatype Size = Size(width: real, height: real)

  datatype Pos = Pos(x: real, y: real)

  /** Where a canvas object was moved and what it was resized to. */
  datatype Rect = Rect(pos: Pos, size: Size)

  /** `EdgeInset{Top, Right, Bottom, Left}`. */
  datatype EdgeInset = EdgeInset(top: real, right: real, bottom: real, left: real)
  {
    function Horizontal(): real { left + right }
    function Vertical(): real { top + bottom }
  }

  const NoInset: EdgeInset := EdgeInset(0.0, 0.0, 0.0, 0.0)

  /** `Infinity = math.MaxFloat32` (base.go): a sentinel length meaning
      "take as much of the parent as possible". */
  const Infinity: real := 340282346638528859811704183484516925440.0

  /** The widths and the heights of a list of sizes. */
  function Widths(ss: seq<Size>): (ws: seq<real>)
    ensures |ws| == |ss| && forall i :: 0 <= i < |ss| ==> ws[i] == ss[i].width
  {
    seq(|ss|, i requires 0 <= i < |ss| => ss[i].width)
  }

  function Heights(ss: seq<Size>): (hs: seq<real>)
    ensures |hs| == |ss| && forall i :: 0 <= i < |ss| ==> hs[i] == ss[i].height
  {
    seq(|ss|, i requires 0 <= i < |ss| => ss[i].height)
  }

  function AddPos(p: Pos, dx: real, dy: real): Pos { Pos(p.x + dx, p.y + dy) }

  /** The colours of the theme, as named lookups. */
  datatype ThemeColorName = ColorForeground | ColorBackground

  /** A colour: either an explicit RGBA value or the theme's colour of a name. */
  datatype Color = Rgba(r: int, g: int, b: int, a: int) | Themed(name: ThemeColorName)

  /** `theme.TextSize()` of the default theme. */
  const ThemeTextSize: real := 14.0

  /** `fyne.TextAlign`. Go allows any integer, so other values are kept. */
  datatype TextAlign = AlignLeading | AlignCenter | AlignTrailing | AlignOther(code: int)
}
