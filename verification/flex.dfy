/** mywidget/flex.container.go: rows and columns that place their children
    along a main axis (with the free space distributed by a
    `MainAxisAlignment`) and align them on the cross axis. `layoutHorizontal`
    and `layoutVertical` are the same computation with the axes swapped, so
    the model computes it once over a `horizontal` flag. */
module Flex {
  import opened Basics
  import opened Geometry
  import opened Base

  /** A child as the layout sees it: its min size, and the size and position
      it had before the layout (kept by an unrecognised cross alignment). */
  datatype Child = Child(min: Size, size: Size, pos: Pos)

  function MainOf(s: Size, horizontal: bool): real { if horizontal then s.width else s.height }
  function CrossOf(s: Size, horizontal: bool): real { if horizontal then s.height else s.width }
  function MainPos(p: Pos, horizontal: bool): real { if horizontal then p.x else p.y }
  function CrossPos(p: Pos, horizontal: bool): real { if horizontal then p.y else p.x }

  function SizeOf(main: real, cross: real, horizontal: bool): (s: Size)
    ensures MainOf(s, horizontal) == main && CrossOf(s, horizontal) == cross
  {
    if horizontal then Size(main, cross) else Size(cross, main)
  }

  function PosOf(main: real, cross: real, horizontal: bool): (p: Pos)
    ensures MainPos(p, horizontal) == main && CrossPos(p, horizontal) == cross
  {
    if horizontal then Pos(main, cross) else Pos(cross, main)
  }

  /** The children's min sizes along an axis. */
  function MainMins(children: seq<Child>, horizontal: bool): (ms: seq<real>)
    ensures |ms| == |children| && forall i :: 0 <= i < |children| ==> ms[i] == MainOf(children[i].min, horizontal)
  {
    seq(|children|, i requires 0 <= i < |children| => MainOf(children[i].min, horizontal))
  }

  function CrossMins(children: seq<Child>, horizontal: bool): (ms: seq<real>)
    ensures |ms| == |children| && forall i :: 0 <= i < |children| ==> ms[i] == CrossOf(children[i].min, horizontal)
  {
    seq(|children|, i requires 0 <= i < |children| => CrossOf(children[i].min, horizontal))
  }

  /** The free main-axis space: what the children's min sizes leave of the
      container, and never negative. */
  function Remaining(available: real, mins: seq<real>): (rem: real)
    ensures rem >= 0.0
    ensures Sum(mins) <= available ==> rem + Sum(mins) == available
    ensures Sum(mins) >= available ==> rem == 0.0
  {
    if available - Sum(mins) < 0.0 then 0.0 else available - Sum(mins)
  }

  /** Where the first child starts and the gap between neighbours. */
  datatype Spread = Spread(start: real, spacing: real)

  /** The main-axis alignment's share-out of the free space `rem` among `n`
      children. */
  function Distribute(align: MainAxisAlignment, rem: real, n: nat): (d: Spread)
    requires rem >= 0.0
    ensures d.start >= 0.0 && d.spacing >= 0.0
    ensures align == SpaceBetween ==>
      d.start == 0.0 && (if n > 1 then d.spacing * (n - 1) as real == rem else d.spacing == 0.0)
    ensures align == SpaceAround ==>
      if n > 0 then d.spacing * n as real == rem && 2.0 * d.start == d.spacing else d == Spread(0.0, 0.0)
    ensures align == SpaceEvenly ==>
      if n > 0 then d.spacing * (n + 1) as real == rem && d.start == d.spacing else d == Spread(0.0, 0.0)
    ensures align == MainCenter ==> 2.0 * d.start == rem && d.spacing == 0.0
    ensures align == MainEnd ==> d == Spread(rem, 0.0)
    ensures align == MainStart || align.MainOther? ==> d == Spread(0.0, 0.0)
    ensures rem == 0.0 ==> d == Spread(0.0, 0.0)
  {
    match align
    case SpaceBetween => Spread(0.0, if n > 1 then rem / (n - 1) as real else 0.0)
    case SpaceAround =>
      if n > 0 then var s := rem / n as real; Spread(s / 2.0, s) else Spread(0.0, 0.0)
    case SpaceEvenly =>
      if n > 0 then var s := rem / (n + 1) as real; Spread(s, s) else Spread(0.0, 0.0)
    case MainCenter => Spread(rem / 2.0, 0.0)
    case MainEnd => Spread(rem, 0.0)
    case MainStart => Spread(0.0, 0.0)
    case MainOther(_) => Spread(0.0, 0.0)
  }

  /** The spread a layout of the children in `size` uses. */
  function SpreadFor(children: seq<Child>, horizontal: bool, align: MainAxisAlignment, size: Size): Spread
  {
    Distribute(align, Remaining(MainOf(size, horizontal), MainMins(children, horizontal)), |children|)
  }

  /** How far a child moves the next one along: its size after the cross
      alignment, which is its min size unless the alignment is unrecognised
      and the child was left as it was. */
  function Advance(c: Child, cross: CrossAxisAlignment, horizontal: bool): real
  {
    if cross.CrossOther? then MainOf(c.size, horizontal) else MainOf(c.min, horizontal)
  }

  function Advances(children: seq<Child>, cross: CrossAxisAlignment, horizontal: bool): (adv: seq<real>)
    ensures |adv| == |children|
    ensures forall i :: 0 <= i < |children| ==> adv[i] == Advance(children[i], cross, horizontal)
  {
    seq(|children|, i requires 0 <= i < |children| => Advance(children[i], cross, horizontal))
  }

  /** The closed form of the running main-axis offset: child i starts after
      the start, the i children before it and i gaps. */
  function Offset(d: Spread, adv: seq<real>, i: nat): real
    requires i <= |adv|
  {
    d.start + Sum(adv[..i]) + Repeated(i, d.spacing)
  }

  /** One child's rectangle at main-axis offset `at`. Stretch takes the
      container's cross size; Start, End and Center keep the min size and sit
      at the near edge, the far edge or the middle; an unrecognised
      alignment leaves the child where and as it was. */
  function Place(c: Child, cross: CrossAxisAlignment, at: real, size: Size, horizontal: bool): (r: Rect)
    ensures !cross.CrossOther? ==> MainPos(r.pos, horizontal) == at
    ensures cross == Stretch ==>
      r.size == SizeOf(MainOf(c.min, horizontal), CrossOf(size, horizontal), horizontal)
      && CrossPos(r.pos, horizontal) == 0.0
    ensures cross == CrossStart || cross == CrossEnd || cross == CrossCenter ==> r.size == c.min
    ensures cross == CrossStart ==> CrossPos(r.pos, horizontal) == 0.0
    ensures cross == CrossEnd ==>
      CrossPos(r.pos, horizontal) + CrossOf(r.size, horizontal) == CrossOf(size, horizontal)
    ensures cross == CrossCenter ==>
      CrossPos(r.pos, horizontal)
        == CrossOf(size, horizontal) - (CrossPos(r.pos, horizontal) + CrossOf(r.size, horizontal))
    ensures cross.CrossOther? ==> r == Rect(c.pos, c.size)
  {
    var free := CrossOf(size, horizontal) - CrossOf(c.min, horizontal);
    match cross
    case Stretch => Rect(PosOf(at, 0.0, horizontal), SizeOf(MainOf(c.min, horizontal), CrossOf(size, horizontal), horizontal))
    case CrossStart => Rect(PosOf(at, 0.0, horizontal), c.min)
    case CrossEnd => Rect(PosOf(at, free, horizontal), c.min)
    case CrossCenter => Rect(PosOf(at, free / 2.0, horizontal), c.min)
    case CrossOther(_) => Rect(c.pos, c.size)
  }

  /** The first loop of the layout: the children's total min size. */
  method TotalMin(mins: seq<real>) returns (total: real)
    ensures total == Sum(mins)
  {
    total := 0.0;
    var i := 0;
    while i < |mins|
      invariant 0 <= i <= |mins|
      invariant total == Sum(mins[..i])
    {
      SumSnoc(mins[..i], mins[i]);
      assert mins[..i + 1] == mins[..i] + [mins[i]];
      total := total + mins[i];
      i := i + 1;
    }
    assert mins[..i] == mins;
  }

  /** `layoutHorizontal` / `layoutVertical`: sum the min sizes, share out the
      free space, then walk the children placing each at the running offset
      and advancing it by the child's size and the gap. */
  method Layout(children: seq<Child>, horizontal: bool, main: MainAxisAlignment,
                cross: CrossAxisAlignment, size: Size) returns (rects: seq<Rect>)
    ensures |rects| == |children|
    ensures var d := SpreadFor(children, horizontal, main, size);
      forall i :: 0 <= i < |children| ==>
        rects[i] == Place(children[i], cross, Offset(d, Advances(children, cross, horizontal), i), size, horizontal)
  {
    var total := TotalMin(MainMins(children, horizontal));
    var rem := MainOf(size, horizontal) - total;
    if rem < 0.0 {
      rem := 0.0;
    }
    var d := Distribute(main, rem, |children|);
    assert d == SpreadFor(children, horizontal, main, size);
    var adv := Advances(children, cross, horizontal);
    var at := d.start;
    rects := [];
    var i := 0;
    while i < |children|
      invariant 0 <= i <= |children| && |rects| == i
      invariant at == Offset(d, adv, i)
      invariant forall k :: 0 <= k < i ==> rects[k] == Place(children[k], cross, Offset(d, adv, k), size, horizontal)
    {
      var r := Place(children[i], cross, at, size, horizontal);
      assert MainOf(r.size, horizontal) == adv[i];
      rects := rects + [r];
      NextOffset(d, adv, i);
      at := at + MainOf(r.size, horizontal) + d.spacing;
      i := i + 1;
    }
  }

  /** The renderer's `MinSize`: along the main axis the sum of the children's
      min sizes, across it the largest; (0, 0) without children. */
  function MinSize(children: seq<Child>, horizontal: bool): (s: Size)
    ensures MainOf(s, horizontal) == Sum(MainMins(children, horizontal))
    ensures CrossOf(s, horizontal) == MaxFromZero(CrossMins(children, horizontal))
  {
    SizeOf(Sum(MainMins(children, horizontal)), MaxFromZero(CrossMins(children, horizontal)), horizontal)
  }

  // ---------------------------------------------------------------------
  // Properties of the placement

  /** The far edge of the last child: the start, every child and the gaps
      between them. */
  lemma LastEdge(d: Spread, adv: seq<real>)
    requires |adv| > 0
    ensures Offset(d, adv, |adv| - 1) + adv[|adv| - 1] == d.start + Sum(adv) + Repeated(|adv| - 1, d.spacing)
  {
    var n := |adv|;
    NextOffset(d, adv, n - 1);
    assert adv[..n] == adv;
  }

  /** Children follow each other in order and never overlap: each ends
      before the next begins, by exactly the gap. */
  lemma NextOffset(d: Spread, adv: seq<real>, i: nat)
    requires i + 1 <= |adv|
    ensures Offset(d, adv, i + 1) == Offset(d, adv, i) + adv[i] + d.spacing
  {
    SumSnoc(adv[..i], adv[i]);
    assert adv[..i + 1] == adv[..i] + [adv[i]];
  }

  lemma {:induction false} NoOverlap(d: Spread, adv: seq<real>, i: nat, j: nat)
    requires d.spacing >= 0.0 && forall k :: 0 <= k < |adv| ==> adv[k] >= 0.0
    requires i < j <= |adv|
    ensures Offset(d, adv, i) + adv[i] <= Offset(d, adv, j)
    decreases j - i
  {
    NextOffset(d, adv, i);
    if j > i + 1 {
      NoOverlap(d, adv, i + 1, j);
      NextOffset(d, adv, i + 1);
    }
  }

  /** When the children fit, the alignments end where they promise: the
      last child's far edge is on the container's edge for End and for
      SpaceBetween with two or more children; Center and SpaceEvenly leave
      equal gaps at both ends; SpaceAround's end gaps are half the inner
      gap. */
  lemma FittingEnds(children: seq<Child>, horizontal: bool, main: MainAxisAlignment,
                    cross: CrossAxisAlignment, size: Size)
    requires |children| > 0 && !cross.CrossOther?
    requires Sum(MainMins(children, horizontal)) <= MainOf(size, horizontal)
    ensures var d := SpreadFor(children, horizontal, main, size);
      var adv := Advances(children, cross, horizontal);
      var n := |children|;
      var far := Offset(d, adv, n - 1) + adv[n - 1];
      && (main == MainEnd || (main == SpaceBetween && n > 1) ==> far == MainOf(size, horizontal))
      && (main == MainCenter || main == SpaceEvenly || main == SpaceAround ==>
            d.start == MainOf(size, horizontal) - far)
      && (main == SpaceAround ==> 2.0 * d.start == d.spacing)
      && (main == MainStart ==> d.start == 0.0)
  {
    var adv := Advances(children, cross, horizontal);
    assert adv == MainMins(children, horizontal);
    var d := SpreadFor(children, horizontal, main, size);
    LastEdge(d, adv);
    RepeatedIsProduct(|children| - 1, d.spacing);
  }

  /** When the children do not fit, every alignment packs them from the
      start with no gaps. */
  lemma OverflowPacks(children: seq<Child>, horizontal: bool, main: MainAxisAlignment,
                      cross: CrossAxisAlignment, size: Size, i: nat)
    requires Sum(MainMins(children, horizontal)) >= MainOf(size, horizontal)
    requires i <= |children|
    ensures SpreadFor(children, horizontal, main, size) == Spread(0.0, 0.0)
    ensures Offset(SpreadFor(children, horizontal, main, size), Advances(children, cross, horizontal), i)
         == Sum(Advances(children, cross, horizontal)[..i])
  {
    RepeatedIsProduct(i, 0.0);
  }

  /** The min size leaves room for every child: laid out at its min size,
      the children end exactly on the main-axis edge whatever the
      alignment, and no child's cross min exceeds the cross size. */
  lemma MinSizeFits(children: seq<Child>, horizontal: bool, main: MainAxisAlignment, cross: CrossAxisAlignment)
    requires |children| > 0 && !cross.CrossOther?
    ensures var s := MinSize(children, horizontal);
      var d := SpreadFor(children, horizontal, main, s);
      var adv := Advances(children, cross, horizontal);
      && d == Spread(0.0, 0.0)
      && Offset(d, adv, |children| - 1) + adv[|children| - 1] == MainOf(s, horizontal)
      && forall i :: 0 <= i < |children| ==> CrossOf(children[i].min, horizontal) <= CrossOf(s, horizontal)
  {
    var s := MinSize(children, horizontal);
    var adv := Advances(children, cross, horizontal);
    assert adv == MainMins(children, horizontal);
    LastEdge(SpreadFor(children, horizontal, main, s), adv);
    RepeatedIsProduct(|children| - 1, 0.0);
    var cm := CrossMins(children, horizontal);
    assert forall i :: 0 <= i < |children| ==> CrossOf(children[i].min, horizontal) == cm[i];
  }
}
