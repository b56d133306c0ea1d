/** mylayout/v.box.go: a vertical box with a fixed gap between children,
    where spacers share out the height the children leave. A child is its
    min size, its visibility, and whether it is a spacer that expands
    horizontally or vertically (a `layout.SpacerObject` can do either or
    both). */
module VBox {
  import opened Basics
  import opened Geometry

  datatype VChild = VChild(min: Size, visible: bool, hSpacer: bool, vSpacer: bool)

  predicate HSpacer(c: VChild) { c.hSpacer }
  predicate VSpacer(c: VChild) { c.vSpacer }

  /** The min sizes of the visible children that are not spacers by the
      given test, in order. */
  function Shown(cs: seq<VChild>, isSpacer: VChild -> bool): (ms: seq<Size>)
    ensures |ms| <= |cs|
    decreases |cs|
  {
    if |cs| == 0 then []
    else (if cs[0].visible && !isSpacer(cs[0]) then [cs[0].min] else []) + Shown(cs[1..], isSpacer)
  }

  /** The number of visible children that are spacers by the given test. */
  function Spacers(cs: seq<VChild>, isSpacer: VChild -> bool): nat
    decreases |cs|
  {
    if |cs| == 0 then 0
    else (if cs[0].visible && isSpacer(cs[0]) then 1 else 0) + Spacers(cs[1..], isSpacer)
  }

  /** The first pass of `Layout`: the height left for the spacers once the
      counted children and the gaps between them are placed, split equally
      among the spacers (0 without spacers). `isSpacer` is the test the pass
      uses to set spacers apart. */
  function SpacerSize(cs: seq<VChild>, height: real, padding: real, isSpacer: VChild -> bool): (s: real)
    ensures Spacers(cs, isSpacer) > 0 ==>
      s * Spacers(cs, isSpacer) as real
        == height - Sum(Heights(Shown(cs, isSpacer))) - padding * (|Shown(cs, isSpacer)| - 1) as real
    ensures Spacers(cs, isSpacer) == 0 ==> s == 0.0
  {
    var shown := Shown(cs, isSpacer);
    var extra := height - Sum(Heights(shown)) - padding * (|shown| - 1) as real;
    var n := Spacers(cs, isSpacer);
    if n > 0 then extra / n as real else 0.0
  }

  /** How far the second pass moves the cursor past a child: nothing for a
      hidden child, the spacer size for a vertical spacer, and the min
      height plus the gap for any other child. */
  function Step(c: VChild, padding: real, spacerSize: real): real
  {
    if !c.visible then 0.0 else if c.vSpacer then spacerSize else c.min.height + padding
  }

  function Steps(cs: seq<VChild>, padding: real, spacerSize: real): (st: seq<real>)
    ensures |st| == |cs| && forall i :: 0 <= i < |cs| ==> st[i] == Step(cs[i], padding, spacerSize)
  {
    seq(|cs|, i requires 0 <= i < |cs| => Step(cs[i], padding, spacerSize))
  }

  /** The second pass of `Layout`, from cursor `y`: a hidden child is left
      alone (None); every visible child goes at x = 0 with the full width; a
      vertical spacer takes the spacer size as its height, any other child
      its min height. The second component is the cursor at the end. */
  function Place(cs: seq<VChild>, width: real, padding: real, spacerSize: real, y: real): (r: (seq<Option<Rect>>, real))
    ensures |r.0| == |cs|
    ensures forall i :: 0 <= i < |cs| ==> (r.0[i].None? <==> !cs[i].visible)
    ensures forall i :: 0 <= i < |cs| && cs[i].visible ==>
      r.0[i].value.pos.x == 0.0
      && r.0[i].value.size == Size(width, if cs[i].vSpacer then spacerSize else cs[i].min.height)
    decreases |cs|
  {
    if |cs| == 0 then ([], y)
    else
      var c := cs[0];
      var here := if c.visible then Some(Rect(Pos(0.0, y), Size(width, if c.vSpacer then spacerSize else c.min.height))) else None;
      var rest := Place(cs[1..], width, padding, spacerSize, y + Step(c, padding, spacerSize));
      ([here] + rest.0, rest.1)
  }

  /** Each visible child sits below everything before it: at the start
      cursor plus the steps of the children before it. */
  lemma {:induction false} PlaceStacks(cs: seq<VChild>, width: real, padding: real, spacerSize: real, y: real, i: nat)
    requires i < |cs| && cs[i].visible
    ensures Place(cs, width, padding, spacerSize, y).0[i].value.pos.y == y + Sum(Steps(cs, padding, spacerSize)[..i])
    decreases i
  {
    var steps := Steps(cs, padding, spacerSize);
    if i == 0 {
      assert steps[..0] == [];
    } else {
      var y' := y + Step(cs[0], padding, spacerSize);
      var tail := Steps(cs[1..], padding, spacerSize);
      PlaceStacks(cs[1..], width, padding, spacerSize, y', i - 1);
      assert Place(cs, width, padding, spacerSize, y).0[i] == Place(cs[1..], width, padding, spacerSize, y').0[i - 1];
      assert steps[..i][1..] == tail[..i - 1];
      assert Sum(steps[..i]) == steps[0] + Sum(tail[..i - 1]);
    }
  }

  /** The cursor ends past every child's step. */
  lemma {:induction false} PlaceEnd(cs: seq<VChild>, width: real, padding: real, spacerSize: real, y: real)
    ensures Place(cs, width, padding, spacerSize, y).1 == y + Sum(Steps(cs, padding, spacerSize))
    decreases |cs|
  {
    if |cs| > 0 {
      PlaceEnd(cs[1..], width, padding, spacerSize, y + Step(cs[0], padding, spacerSize));
      assert Steps(cs, padding, spacerSize)[1..] == Steps(cs[1..], padding, spacerSize);
    }
  }

  /** Every child placed as the second pass places it with spacer size `s`:
      a hidden child not at all, a visible one at x = 0 with the full width,
      below the steps of every child before it, as tall as the spacer size
      for a vertical spacer and as its min height otherwise. */
  predicate Stacked(cs: seq<VChild>, width: real, padding: real, s: real, r: seq<Option<Rect>>)
  {
    && |r| == |cs|
    && (forall i :: 0 <= i < |cs| ==> (r[i].None? <==> !cs[i].visible))
    && (forall i :: 0 <= i < |cs| && cs[i].visible ==>
          r[i].value == Rect(Pos(0.0, Sum(Steps(cs, padding, s)[..i])),
                             Size(width, if cs[i].vSpacer then s else cs[i].min.height)))
  }

  /** `Place` from the top stacks the children. */
  lemma PlaceIsStacked(cs: seq<VChild>, width: real, padding: real, s: real)
    ensures Stacked(cs, width, padding, s, Place(cs, width, padding, s, 0.0).0)
  {
    var r := Place(cs, width, padding, s, 0.0).0;
    forall i | 0 <= i < |cs| && cs[i].visible
      ensures r[i].value == Rect(Pos(0.0, Sum(Steps(cs, padding, s)[..i])),
                                 Size(width, if cs[i].vSpacer then s else cs[i].min.height))
    {
      PlaceStacks(cs, width, padding, s, 0.0, i);
    }
  }

  /** `Layout` as written: the first pass sets apart the children that
      expand horizontally, so the vertical spacers share the height left
      by every visible child that does not expand horizontally. */
  function Layout(cs: seq<VChild>, padding: real, size: Size): (r: seq<Option<Rect>>)
    ensures Stacked(cs, size.width, padding, SpacerSize(cs, size.height, padding, HSpacer), r)
  {
    PlaceIsStacked(cs, size.width, padding, SpacerSize(cs, size.height, padding, HSpacer));
    Place(cs, size.width, padding, SpacerSize(cs, size.height, padding, HSpacer), 0.0).0
  }

  /** `Layout` with the first pass counting the vertical spacers, which the
      second pass is written for: the vertical spacers share the height
      left by the other visible children. */
  function LayoutCounted(cs: seq<VChild>, padding: real, size: Size): (r: seq<Option<Rect>>)
    ensures Stacked(cs, size.width, padding, SpacerSize(cs, size.height, padding, VSpacer), r)
  {
    PlaceIsStacked(cs, size.width, padding, SpacerSize(cs, size.height, padding, VSpacer));
    Place(cs, size.width, padding, SpacerSize(cs, size.height, padding, VSpacer), 0.0).0
  }

  /** The cursor's travel is the counted heights, one gap per counted child
      and the spacer size per vertical spacer. */
  lemma {:induction false} StepsTotal(cs: seq<VChild>, padding: real, spacerSize: real)
    ensures Sum(Steps(cs, padding, spacerSize))
         == Sum(Heights(Shown(cs, VSpacer))) + Repeated(|Shown(cs, VSpacer)|, padding)
            + Repeated(Spacers(cs, VSpacer), spacerSize)
    decreases |cs|
  {
    if |cs| > 0 {
      StepsTotal(cs[1..], padding, spacerSize);
      var steps := Steps(cs, padding, spacerSize);
      assert steps[1..] == Steps(cs[1..], padding, spacerSize);
      var rest := Shown(cs[1..], VSpacer);
      var c := cs[0];
      if c.visible && !c.vSpacer {
        assert Shown(cs, VSpacer) == [c.min] + rest;
        assert Heights([c.min] + rest) == [c.min.height] + Heights(rest);
        assert Heights([c.min] + rest)[1..] == Heights(rest);
      } else {
        assert Shown(cs, VSpacer) == rest;
      }
    }
  }

  /** The arithmetic behind the fill: k counted children of total height
      `h` with their gaps, and n spacers of size `s` sharing what is left of
      `height`, add up to `height` plus one gap. */
  lemma FillArithmetic(height: real, h: real, padding: real, s: real, k: nat, n: nat)
    requires s * n as real == height - h - padding * (k - 1) as real
    ensures h + k as real * padding + n as real * s == height + padding
  {
    assert k as real * padding == padding * (k - 1) as real + padding;
  }

  /** With the vertical spacers counted, spacers take up exactly the height
      the children leave: the cursor ends one gap past the bottom edge (the
      gap the last child adds). */
  lemma CountedLayoutFillsHeight(cs: seq<VChild>, padding: real, size: Size)
    requires Spacers(cs, VSpacer) > 0
    ensures Place(cs, size.width, padding, SpacerSize(cs, size.height, padding, VSpacer), 0.0).1
         == size.height + padding
  {
    var s := SpacerSize(cs, size.height, padding, VSpacer);
    PlaceEnd(cs, size.width, padding, s, 0.0);
    StepsTotal(cs, padding, s);
    var k := |Shown(cs, VSpacer)|;
    var n := Spacers(cs, VSpacer);
    RepeatedIsProduct(k, padding);
    RepeatedIsProduct(n, s);
    FillArithmetic(size.height, Sum(Heights(Shown(cs, VSpacer))), padding, s, k, n);
  }

  /** As written, a spacer that expands only vertically is counted as a
      child in the first pass, so it gets no height and the children do not
      reach the bottom: a vertical spacer above a 10-high child in a
      100-high box leaves the cursor at 10. */
  lemma LayoutMissesVerticalSpacer()
    ensures var cs := [VChild(Size(0.0, 0.0), true, false, true), VChild(Size(20.0, 10.0), true, false, false)];
      && SpacerSize(cs, 100.0, 0.0, HSpacer) == 0.0
      && Place(cs, 50.0, 0.0, SpacerSize(cs, 100.0, 0.0, HSpacer), 0.0).1 == 10.0
      && Place(cs, 50.0, 0.0, SpacerSize(cs, 100.0, 0.0, VSpacer), 0.0).1 == 100.0
      && Layout(cs, 0.0, Size(50.0, 100.0))[1].value.pos.y == 0.0
      && LayoutCounted(cs, 0.0, Size(50.0, 100.0))[1].value.pos.y == 90.0
  {
    var cs := [VChild(Size(0.0, 0.0), true, false, true), VChild(Size(20.0, 10.0), true, false, false)];
    assert cs[1..] == [cs[1]];
    assert cs[1..][1..] == [];
    assert Shown(cs, HSpacer) == [Size(0.0, 0.0), Size(20.0, 10.0)];
    assert Shown(cs, VSpacer) == [Size(20.0, 10.0)];
    assert Heights([Size(20.0, 10.0)]) == [10.0];
    CountedLayoutFillsHeight(cs, 0.0, Size(50.0, 100.0));
    var st := Steps(cs, 0.0, 0.0);
    assert st == [0.0, 10.0] && st[..1] == [0.0] && st[1..] == [10.0];
    PlaceEnd(cs, 50.0, 0.0, 0.0, 0.0);
    PlaceStacks(cs, 50.0, 0.0, 0.0, 0.0, 1);
    var st2 := Steps(cs, 0.0, 90.0);
    assert st2[..1] == [90.0];
    PlaceStacks(cs, 50.0, 0.0, 90.0, 0.0, 1);
  }

  /** `MinSize`: the visible children other than vertical spacers; the
      widest of them (at least 0) by their heights stacked with one gap
      between neighbours; (0, 0) when there are none. */
  function MinSize(cs: seq<VChild>, padding: real): (m: Size)
    ensures var shown := Shown(cs, VSpacer);
      && m.width == MaxFromZero(Widths(shown))
      && m.height == if |shown| == 0 then 0.0 else Sum(Heights(shown)) + Repeated(|shown| - 1, padding)
  {
    var shown := Shown(cs, VSpacer);
    Size(MaxFromZero(Widths(shown)), if |shown| == 0 then 0.0 else Sum(Heights(shown)) + Repeated(|shown| - 1, padding))
  }

  /** Laid out at its min height without spacers, the counted layout puts
      the last child's bottom edge on the box's bottom edge. */
  lemma MinHeightFitsExactly(cs: seq<VChild>, padding: real, width: real)
    requires Spacers(cs, VSpacer) == 0 && |Shown(cs, VSpacer)| > 0
    ensures var m := MinSize(cs, padding);
      Place(cs, width, padding, SpacerSize(cs, m.height, padding, VSpacer), 0.0).1 == m.height + padding
  {
    StepsTotal(cs, padding, 0.0);
    PlaceEnd(cs, width, padding, 0.0, 0.0);
  }
}
