/** mycanvas/canvas.go: a fixed-size drawing surface holding a list of
    shapes in drawing order. Each `Draw*` call either rejects its arguments
    and adds nothing, or appends exactly one shape anchored by one of nine
    alignments (the `Align` enum of mycanvas/base.go, which has the order
    and meaning of `Position` in base.go). Text measurement is an input. */
module Canvas {
  import opened Geometry
  import opened Base

  datatype Shape =
    | Text(text: string, textSize: real, color: Color, pos: Pos)
    | Circle(p1: Pos, p2: Pos, color: Color)
    | Rectangle(pos: Pos, size: Size, cornerRadius: real, color: Color)
    | Image(path: string, pos: Pos, size: Size)
    | Line(p1: Pos, p2: Pos, strokeWidth: real, color: Color)

  datatype Canvas = Canvas(width: real, height: real, shapes: seq<Shape>)

  /** `NewCanvas`: an empty surface of the given integer size. */
  function NewCanvas(w: int, h: int): (c: Canvas)
    ensures c.width == w as real && c.height == h as real && c.shapes == []
  {
    Canvas(w as real, h as real, [])
  }

  /** `MinSize`: the size given at construction. */
  function MinSize(c: Canvas): (s: Size)
    ensures s.width == c.width && s.height == c.height
  {
    Size(c.width, c.height)
  }

  /** The anchor of a `w`×`h` object as the text, rectangle and image
      cases spell it out: left/top at 0, centre at half the free space,
      right/bottom at all of it. An unknown alignment leaves (0, 0). */
  function Anchor(align: Position, c: Canvas, w: real, h: real): (p: Pos)
  {
    match align
    case TopLeft => Pos(0.0, 0.0)
    case TopCenter => Pos((c.width - w) / 2.0, 0.0)
    case TopRight => Pos(c.width - w, 0.0)
    case CenterLeft => Pos(0.0, (c.height - h) / 2.0)
    case Center => Pos((c.width - w) / 2.0, (c.height - h) / 2.0)
    case CenterRight => Pos(c.width - w, (c.height - h) / 2.0)
    case BottomLeft => Pos(0.0, c.height - h)
    case BottomCenter => Pos((c.width - w) / 2.0, c.height - h)
    case BottomRight => Pos(c.width - w, c.height - h)
    case PositionOther(_) => Pos(0.0, 0.0)
  }

  /** The canvas anchors agree with the nine-way `ChildPosition` of the
      base package for every alignment. */
  lemma AnchorIsChildPosition(align: Position, c: Canvas, w: real, h: real)
    ensures Anchor(align, c, w, h) == ChildPosition(align, MinSize(c), Size(w, h))
  {
  }

  /** `DrawText`: empty text or a non-positive text size adds nothing;
      otherwise the text is anchored by its measured size and shifted by
      the offsets. */
  function DrawText(c: Canvas, align: Position, xOffset: real, yOffset: real,
                    textSize: real, text: string, measured: Size, color: Color): (r: Canvas)
    ensures r.width == c.width && r.height == c.height
    ensures text == [] || textSize <= 0.0 ==> r == c
    ensures text != [] && textSize > 0.0 ==>
      r.shapes == c.shapes + [Text(text, textSize, color,
        AddPos(ChildPosition(align, MinSize(c), measured), xOffset, yOffset))]
  {
    if text == [] || textSize <= 0.0 then c
    else
      AnchorIsChildPosition(align, c, measured.width, measured.height);
      c.(shapes := c.shapes + [Text(text, textSize, color,
        AddPos(Anchor(align, c, measured.width, measured.height), xOffset, yOffset))])
  }

  /** The two corners of a circle's bounding box as `DrawCircle` spells
      them out for each alignment. */
  function CircleCorners(align: Position, c: Canvas, radius: real): (ps: (Pos, Pos))
  {
    var d := radius * 2.0;
    match align
    case TopLeft => (Pos(0.0, 0.0), Pos(d, d))
    case TopCenter => (Pos((c.width - d) / 2.0, 0.0), Pos((c.width - d) / 2.0 + d, d))
    case TopRight => (Pos(c.width - 2.0 * radius, 0.0), Pos(c.width, d))
    case CenterLeft => (Pos(0.0, (c.height - d) / 2.0), Pos(d, (c.height - d) / 2.0 + d))
    case Center => (Pos((c.width - d) / 2.0, (c.height - d) / 2.0), Pos((c.width - d) / 2.0 + d, (c.height - d) / 2.0 + d))
    case CenterRight => (Pos(c.width - 2.0 * radius, (c.height - d) / 2.0), Pos(c.width - 2.0 * radius + d, (c.height - d) / 2.0 + d))
    case BottomLeft => (Pos(0.0, c.height - d), Pos(d, c.height))
    case BottomCenter => (Pos((c.width - d) / 2.0, c.height - d), Pos((c.width - d) / 2.0 + d, c.height))
    case BottomRight => (Pos(c.width - 2.0 * radius, c.height - d), Pos(c.width - 2.0 * radius + d, c.height))
    case PositionOther(_) => (Pos(0.0, 0.0), Pos(0.0, 0.0))
  }

  /** For every known alignment the circle's box is 2r by 2r and sits where
      `ChildPosition` puts a 2r-square; an unknown alignment collapses it to
      the origin. */
  lemma CircleBox(align: Position, c: Canvas, radius: real)
    ensures !align.PositionOther? ==>
      var (p1, p2) := CircleCorners(align, c, radius);
      && p2.x - p1.x == 2.0 * radius && p2.y - p1.y == 2.0 * radius
      && p1 == ChildPosition(align, MinSize(c), Size(2.0 * radius, 2.0 * radius))
    ensures align.PositionOther? ==> CircleCorners(align, c, radius) == (Pos(0.0, 0.0), Pos(0.0, 0.0))
  {
  }

  /** `DrawCircle`: a non-positive radius adds nothing; otherwise a circle
      whose box corners are shifted by the offsets. */
  function DrawCircle(c: Canvas, align: Position, xOffset: real, yOffset: real, radius: real, color: Color): (r: Canvas)
    ensures r.width == c.width && r.height == c.height
    ensures radius <= 0.0 ==> r == c
    ensures radius > 0.0 ==>
      |r.shapes| == |c.shapes| + 1 && r.shapes[..|c.shapes|] == c.shapes
      && r.shapes[|c.shapes|].Circle?
      && r.shapes[|c.shapes|].p1 == AddPos(CircleCorners(align, c, radius).0, xOffset, yOffset)
      && r.shapes[|c.shapes|].p2 == AddPos(CircleCorners(align, c, radius).1, xOffset, yOffset)
  {
    if radius <= 0.0 then c
    else
      var (p1, p2) := CircleCorners(align, c, radius);
      c.(shapes := c.shapes + [Circle(AddPos(p1, xOffset, yOffset), AddPos(p2, xOffset, yOffset), color)])
  }

  /** `DrawRect`: a non-positive width or height adds nothing; otherwise a
      rectangle of that size, anchored and shifted by the offsets. */
  function DrawRect(c: Canvas, align: Position, xOffset: real, yOffset: real,
                    radius: real, width: real, height: real, color: Color): (r: Canvas)
    ensures r.width == c.width && r.height == c.height
    ensures width <= 0.0 || height <= 0.0 ==> r == c
    ensures width > 0.0 && height > 0.0 ==>
      r.shapes == c.shapes + [Rectangle(AddPos(ChildPosition(align, MinSize(c), Size(width, height)), xOffset, yOffset),
                                        Size(width, height), radius, color)]
  {
    if width <= 0.0 || height <= 0.0 then c
    else
      AnchorIsChildPosition(align, c, width, height);
      c.(shapes := c.shapes + [Rectangle(AddPos(Anchor(align, c, width, height), xOffset, yOffset),
                                         Size(width, height), radius, color)])
  }

  /** `DrawImage`: an empty path or a non-positive width or height adds
      nothing; otherwise an image of that size, anchored and shifted. */
  function DrawImage(c: Canvas, align: Position, xOffset: real, yOffset: real,
                     path: string, imageW: real, imageH: real): (r: Canvas)
    ensures r.width == c.width && r.height == c.height
    ensures |path| == 0 || imageW <= 0.0 || imageH <= 0.0 ==> r == c
    ensures |path| > 0 && imageW > 0.0 && imageH > 0.0 ==>
      r.shapes == c.shapes + [Image(path, AddPos(ChildPosition(align, MinSize(c), Size(imageW, imageH)), xOffset, yOffset),
                                    Size(imageW, imageH))]
  {
    if |path| == 0 || imageW <= 0.0 || imageH <= 0.0 then c
    else
      AnchorIsChildPosition(align, c, imageW, imageH);
      c.(shapes := c.shapes + [Image(path, AddPos(Anchor(align, c, imageW, imageH), xOffset, yOffset),
                                     Size(imageW, imageH))])
  }

  /** `DrawLine`: always appends a line with exactly the given ends. */
  function DrawLine(c: Canvas, x1: real, y1: real, x2: real, y2: real, lineSize: real, color: Color): (r: Canvas)
    ensures r.width == c.width && r.height == c.height
    ensures |r.shapes| == |c.shapes| + 1 && r.shapes[..|c.shapes|] == c.shapes
    ensures r.shapes[|c.shapes|] == Line(Pos(x1, y1), Pos(x2, y2), lineSize, color)
  {
    c.(shapes := c.shapes + [Line(Pos(x1, y1), Pos(x2, y2), lineSize, color)])
  }

  // ---------------------------------------------------------------------
  // Sequences of drawing calls

  datatype DrawCall =
    | DrawTextCall(align: Position, xOffset: real, yOffset: real, textSize: real, text: string, measured: Size, color: Color)
    | DrawCircleCall(align: Position, xOffset: real, yOffset: real, radius: real, color: Color)
    | DrawRectCall(align: Position, xOffset: real, yOffset: real, radius: real, width: real, height: real, color: Color)
    | DrawImageCall(align: Position, xOffset: real, yOffset: real, path: string, imageW: real, imageH: real)
    | DrawLineCall(x1: real, y1: real, x2: real, y2: real, lineSize: real, color: Color)

  /** Whether a call passes its guard. */
  predicate Accepted(d: DrawCall)
  {
    match d
    case DrawTextCall(_, _, _, textSize, text, _, _) => text != [] && textSize > 0.0
    case DrawCircleCall(_, _, _, radius, _) => radius > 0.0
    case DrawRectCall(_, _, _, _, width, height, _) => width > 0.0 && height > 0.0
    case DrawImageCall(_, _, _, path, imageW, imageH) => |path| > 0 && imageW > 0.0 && imageH > 0.0
    case DrawLineCall(_, _, _, _, _, _) => true
  }

  function Apply(c: Canvas, d: DrawCall): Canvas
  {
    match d
    case DrawTextCall(align, xo, yo, ts, text, measured, color) => DrawText(c, align, xo, yo, ts, text, measured, color)
    case DrawCircleCall(align, xo, yo, radius, color) => DrawCircle(c, align, xo, yo, radius, color)
    case DrawRectCall(align, xo, yo, radius, w, h, color) => DrawRect(c, align, xo, yo, radius, w, h, color)
    case DrawImageCall(align, xo, yo, path, w, h) => DrawImage(c, align, xo, yo, path, w, h)
    case DrawLineCall(x1, y1, x2, y2, size, color) => DrawLine(c, x1, y1, x2, y2, size, color)
  }

  function ApplyAll(c: Canvas, ds: seq<DrawCall>): Canvas
    decreases |ds|
  {
    if |ds| == 0 then c else ApplyAll(Apply(c, ds[0]), ds[1..])
  }

  function CountAccepted(ds: seq<DrawCall>): nat
  {
    if |ds| == 0 then 0 else (if Accepted(ds[0]) then 1 else 0) + CountAccepted(ds[1..])
  }

  /** Over any sequence of calls the canvas keeps its size and its earlier
      shapes, and gains exactly one shape per accepted call. */
  lemma {:induction false} ApplyAllAppends(c: Canvas, ds: seq<DrawCall>)
    ensures var r := ApplyAll(c, ds);
      && MinSize(r) == MinSize(c)
      && |r.shapes| == |c.shapes| + CountAccepted(ds)
      && r.shapes[..|c.shapes|] == c.shapes
    decreases |ds|
  {
    if |ds| > 0 {
      var c1 := Apply(c, ds[0]);
      assert |c1.shapes| == |c.shapes| + (if Accepted(ds[0]) then 1 else 0) && c1.shapes[..|c.shapes|] == c.shapes;
      ApplyAllAppends(c1, ds[1..]);
      var r := ApplyAll(c1, ds[1..]);
      assert r.shapes[..|c.shapes|] == r.shapes[..|c1.shapes|][..|c.shapes|];
    }
  }
}
