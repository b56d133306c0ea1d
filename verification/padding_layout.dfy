/** padding.layout.go and mylayout/padding.layout.go: a layout that stacks
    every child on the same rectangle, the container inset by a fixed
    padding on each edge. The two files hold the same layout; the second
    adds the horizontal-only and vertical-only constructors. A child is
    represented by its min size. */
module PaddingLayout {
  import opened Basics
  import opened Geometry

  datatype LayoutPadding = LayoutPadding(padding: EdgeInset)

  /** `NewHPaddingLayout`: the same padding on the left and right edges. */
  function NewHPaddingLayout(padding: real): (l: LayoutPadding)
    ensures l.padding.left == padding && l.padding.right == padding
    ensures l.padding.Vertical() == 0.0 && l.padding.Horizontal() == 2.0 * padding
  {
    LayoutPadding(EdgeInset(0.0, padding, 0.0, padding))
  }

  /** `NewVPaddingLayout`: the same padding on the top and bottom edges. */
  function NewVPaddingLayout(padding: real): (l: LayoutPadding)
    ensures l.padding.top == padding && l.padding.bottom == padding
    ensures l.padding.Horizontal() == 0.0 && l.padding.Vertical() == 2.0 * padding
  {
    LayoutPadding(EdgeInset(padding, 0.0, padding, 0.0))
  }

  /** `NewPaddingLayout(top, bottom, left, right)`: note the argument order,
      which differs from the field order of `EdgeInset`. */
  function NewPaddingLayout(top: real, bottom: real, left: real, right: real): (l: LayoutPadding)
    ensures l.padding.top == top && l.padding.bottom == bottom
    ensures l.padding.left == left && l.padding.right == right
  {
    LayoutPadding(EdgeInset(top, right, bottom, left))
  }

  /** The area inside the padding. */
  function Inner(l: LayoutPadding, size: Size): (r: Rect)
    ensures r.pos.x + r.size.width + l.padding.right == size.width
    ensures r.pos.y + r.size.height + l.padding.bottom == size.height
    ensures r.pos == Pos(l.padding.left, l.padding.top)
  {
    Rect(Pos(l.padding.left, l.padding.top),
         Size(size.width - l.padding.left - l.padding.right, size.height - l.padding.top - l.padding.bottom))
  }

  /** `Layout`: every one of the `n` children gets the area inside the
      padding. */
  function Layout(l: LayoutPadding, n: nat, size: Size): (rs: seq<Rect>)
    ensures |rs| == n
    ensures forall i :: 0 <= i < n ==> rs[i] == Inner(l, size)
  {
    seq(n, i => Inner(l, size))
  }

  /** `MinSize`: the padding plus the sum of the children's min widths, and
      the padding plus the sum of their min heights. */
  method MinSize(l: LayoutPadding, mins: seq<Size>) returns (m: Size)
    ensures m.width == l.padding.Horizontal() + Sum(Widths(mins))
    ensures m.height == l.padding.Vertical() + Sum(Heights(mins))
  {
    var minWidth := l.padding.left + l.padding.right;
    var minHeight := l.padding.top + l.padding.bottom;
    var i := 0;
    while i < |mins|
      invariant 0 <= i <= |mins|
      invariant minWidth == l.padding.Horizontal() + Sum(Widths(mins)[..i])
      invariant minHeight == l.padding.Vertical() + Sum(Heights(mins)[..i])
    {
      SumSnoc(Widths(mins)[..i], mins[i].width);
      SumSnoc(Heights(mins)[..i], mins[i].height);
      assert Widths(mins)[..i + 1] == Widths(mins)[..i] + [mins[i].width];
      assert Heights(mins)[..i + 1] == Heights(mins)[..i] + [mins[i].height];
      minWidth := minWidth + mins[i].width;
      minHeight := minHeight + mins[i].height;
      i := i + 1;
    }
    assert Widths(mins)[..i] == Widths(mins);
    assert Heights(mins)[..i] == Heights(mins);
    m := Size(minWidth, minHeight);
  }

  /** With no padding every child fills the container. */
  lemma NoPaddingFills(n: nat, size: Size)
    ensures forall r :: r in Layout(NewPaddingLayout(0.0, 0.0, 0.0, 0.0), n, size) ==> r == Rect(Pos(0.0, 0.0), size)
  {
  }

  /** A child's min size never exceeds the sum of the min sizes when none is
      negative. */
  lemma {:induction false} OneBelowSum(mins: seq<Size>, i: nat)
    requires i < |mins|
    requires forall k :: 0 <= k < |mins| ==> mins[k].width >= 0.0 && mins[k].height >= 0.0
    ensures mins[i].width <= Sum(Widths(mins)) && mins[i].height <= Sum(Heights(mins))
    decreases i
  {
    assert Widths(mins)[1..] == Widths(mins[1..]);
    assert Heights(mins)[1..] == Heights(mins[1..]);
    SumNonNegative(Widths(mins[1..]));
    SumNonNegative(Heights(mins[1..]));
    if i > 0 {
      OneBelowSum(mins[1..], i - 1);
    }
  }

  /** Laid out at its min size or larger, every child gets at least its own
      min size, provided no min size is negative. */
  lemma MinSizeFits(l: LayoutPadding, mins: seq<Size>, size: Size, i: nat)
    requires i < |mins|
    requires forall k :: 0 <= k < |mins| ==> mins[k].width >= 0.0 && mins[k].height >= 0.0
    requires size.width >= l.padding.Horizontal() + Sum(Widths(mins))
    requires size.height >= l.padding.Vertical() + Sum(Heights(mins))
    ensures Layout(l, |mins|, size)[i].size.width >= mins[i].width
    ensures Layout(l, |mins|, size)[i].size.height >= mins[i].height
  {
    OneBelowSum(mins, i);
  }

  /** A single child laid out at exactly the min size gets exactly its own
      min size, at the top-left padding corner. */
  lemma SingleChildAtMinSize(l: LayoutPadding, m: Size)
    ensures var size := Size(l.padding.Horizontal() + m.width, l.padding.Vertical() + m.height);
      Layout(l, 1, size) == [Rect(Pos(l.padding.left, l.padding.top), m)]
  {
  }
}
