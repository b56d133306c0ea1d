/** scaffold.go: a page frame of five optional parts (top bar, bottom bar,
    side bar, content, floating button). A missing part is `None`; a present
    part is represented by its min size. */
module Scaffold {
  import opened Basics
  import opened Geometry

  datatype Scaffold = Scaffold(
    topBar: Option<Size>, bottomBar: Option<Size>, sideBar: Option<Size>,
    content: Option<Size>, floatingButton: Option<Size>)

  /** The five parts, as `Objects` lists them. */
  datatype Part = TopBar | SideBar | Content | BottomBar | FloatingButton

  /** The gap between the floating button and the right and bottom edges. */
  const FloatingMargin: real := 16.0

  /** Where each present part goes; None for a missing part. */
  datatype Placement = Placement(
    top: Option<Rect>, bottom: Option<Rect>, side: Option<Rect>,
    content: Option<Rect>, floating: Option<Rect>)

  /** A missing part's min height or width counts as zero. */
  function HeightOr0(p: Option<Size>): real { if p.Some? then p.value.height else 0.0 }
  function WidthOr0(p: Option<Size>): real { if p.Some? then p.value.width else 0.0 }

  /** `scaffoldRenderer.Layout`: the bars take the full width at their min
      height on the top and bottom edges; the side bar takes its min width
      on the left, between the bars; the content takes what is left; the
      floating button keeps its min size 16 units in from the bottom-right
      corner. */
  function Layout(s: Scaffold, size: Size): (r: Placement)
    ensures r.top.Some? <==> s.topBar.Some?
    ensures r.bottom.Some? <==> s.bottomBar.Some?
    ensures r.side.Some? <==> s.sideBar.Some?
    ensures r.content.Some? <==> s.content.Some?
    ensures r.floating.Some? <==> s.floatingButton.Some?
    ensures r.top.Some? ==> r.top.value == Rect(Pos(0.0, 0.0), Size(size.width, s.topBar.value.height))
    ensures r.bottom.Some? ==>
      r.bottom.value.size == Size(size.width, s.bottomBar.value.height)
      && r.bottom.value.pos.x == 0.0
      && r.bottom.value.pos.y + r.bottom.value.size.height == size.height
    ensures r.side.Some? ==>
      r.side.value.pos == Pos(0.0, HeightOr0(s.topBar))
      && r.side.value.size.width == s.sideBar.value.width
    ensures r.floating.Some? ==>
      r.floating.value.size == s.floatingButton.value
      && r.floating.value.pos.x + r.floating.value.size.width + FloatingMargin == size.width
      && r.floating.value.pos.y + r.floating.value.size.height + FloatingMargin == size.height
  {
    var topH := HeightOr0(s.topBar);
    var bottomH := HeightOr0(s.bottomBar);
    var sideW := WidthOr0(s.sideBar);
    var middleH := size.height - topH - bottomH;
    Placement(
      if s.topBar.Some? then Some(Rect(Pos(0.0, 0.0), Size(size.width, topH))) else None,
      if s.bottomBar.Some? then Some(Rect(Pos(0.0, size.height - bottomH), Size(size.width, bottomH))) else None,
      if s.sideBar.Some? then Some(Rect(Pos(0.0, topH), Size(sideW, middleH))) else None,
      if s.content.Some? then Some(Rect(Pos(sideW, topH), Size(size.width - sideW, middleH))) else None,
      if s.floatingButton.Some? then
        var fb := s.floatingButton.value;
        Some(Rect(Pos(size.width - fb.width - FloatingMargin, size.height - fb.height - FloatingMargin), fb))
      else None)
  }

  /** The bars, the side bar and the content tile the area: each region
      starts where its neighbour ends, and the content reaches the right
      edge and the bottom bar (or the bottom edge without one). */
  lemma LayoutTiles(s: Scaffold, size: Size)
    requires s.content.Some?
    ensures var r := Layout(s, size);
      var c := r.content.value;
      && c.pos.x + c.size.width == size.width
      && (r.top.Some? ==> r.top.value.pos.y + r.top.value.size.height == c.pos.y)
      && (r.top.None? ==> c.pos.y == 0.0)
      && (r.bottom.Some? ==> c.pos.y + c.size.height == r.bottom.value.pos.y)
      && (r.bottom.None? ==> c.pos.y + c.size.height == size.height)
      && (r.side.Some? ==>
            r.side.value.pos.x + r.side.value.size.width == c.pos.x
            && r.side.value.pos.y == c.pos.y && r.side.value.size.height == c.size.height)
      && (r.side.None? ==> c.pos.x == 0.0)
  {
  }

  /** With only content, the content fills the whole area. */
  lemma ContentAloneFills(c: Size, size: Size)
    ensures Layout(Scaffold(None, None, None, Some(c), None), size).content
         == Some(Rect(Pos(0.0, 0.0), size))
  {
  }

  /** `scaffoldRenderer.MinSize`, as written: the width is the wider bar
      (at least 0) plus the side bar, or the content if that is wider; the
      height is the two bars stacked, or the side bar or the content if
      taller. The floating button does not count. */
  function MinSize(s: Scaffold): (m: Size)
    ensures var beside := Max(Max(0.0, WidthOr0(s.topBar)), WidthOr0(s.bottomBar)) + WidthOr0(s.sideBar);
      m.width == if s.content.Some? then Max(beside, s.content.value.width) else beside
    ensures var bars := HeightOr0(s.topBar) + HeightOr0(s.bottomBar);
      var withSide := if s.sideBar.Some? then Max(bars, s.sideBar.value.height) else bars;
      m.height == if s.content.Some? then Max(withSide, s.content.value.height) else withSide
  {
    var w0 := if s.topBar.Some? then Max(0.0, s.topBar.value.width) else 0.0;
    var h0 := if s.topBar.Some? then s.topBar.value.height else 0.0;
    var w1 := if s.bottomBar.Some? then Max(w0, s.bottomBar.value.width) else w0;
    var h1 := if s.bottomBar.Some? then h0 + s.bottomBar.value.height else h0;
    var w2 := if s.sideBar.Some? then w1 + s.sideBar.value.width else w1;
    var h2 := if s.sideBar.Some? then Max(h1, s.sideBar.value.height) else h1;
    var w3 := if s.content.Some? then Max(w2, s.content.value.width) else w2;
    var h3 := if s.content.Some? then Max(h2, s.content.value.height) else h2;
    Size(w3, h3)
  }

  /** Each part's min size fits the layout at a size: the side bar and the
      content get at least their min sizes, and the bars at least their min
      widths. */
  predicate EveryPartFits(s: Scaffold, size: Size)
  {
    var r := Layout(s, size);
    && (s.topBar.Some? ==> r.top.value.size.width >= s.topBar.value.width)
    && (s.bottomBar.Some? ==> r.bottom.value.size.width >= s.bottomBar.value.width)
    && (s.sideBar.Some? ==> r.side.value.size.height >= s.sideBar.value.height)
    && (s.content.Some? ==>
          r.content.value.size.width >= s.content.value.width
          && r.content.value.size.height >= s.content.value.height)
  }

  /** As written, the min size does not leave the content room for the side
      bar beside it or for the bars above and below it: a 100×100 content
      next to a 50-wide side bar is laid out 50 wide. */
  lemma MinSizeStarvesContent()
    ensures var s := Scaffold(None, None, Some(Size(50.0, 10.0)), Some(Size(100.0, 100.0)), None);
      MinSize(s) == Size(100.0, 100.0)
      && Layout(s, MinSize(s)).content.value.size.width == 50.0
      && !EveryPartFits(s, MinSize(s))
  {
  }

  /** The min size the layout needs: the wider of the bars and of the side
      bar plus the content, and the bars stacked around the taller of the
      side bar and the content (parts with negative min sizes count as 0). */
  function FittingMinSize(s: Scaffold): (m: Size)
  {
    var top := if s.topBar.Some? then s.topBar.value else Size(0.0, 0.0);
    var bottom := if s.bottomBar.Some? then s.bottomBar.value else Size(0.0, 0.0);
    var side := if s.sideBar.Some? then s.sideBar.value else Size(0.0, 0.0);
    var content := if s.content.Some? then s.content.value else Size(0.0, 0.0);
    Size(Max(Max(Max(0.0, top.width), bottom.width), Max(0.0, side.width) + Max(0.0, content.width)),
         Max(0.0, top.height) + Max(0.0, bottom.height) + Max(Max(0.0, side.height), content.height))
  }

  /** Laid out at the fitting min size, or anything larger, every part gets
      at least its min size. */
  lemma FittingMinSizeFits(s: Scaffold, size: Size)
    requires size.width >= FittingMinSize(s).width && size.height >= FittingMinSize(s).height
    requires s.topBar.Some? ==> s.topBar.value.height >= 0.0
    requires s.bottomBar.Some? ==> s.bottomBar.value.height >= 0.0
    requires s.sideBar.Some? ==> s.sideBar.value.width >= 0.0
    ensures EveryPartFits(s, size)
  {
  }

  /** `Objects`: the present parts, in the order top bar, side bar, content,
      bottom bar, floating button. */
  function Objects(s: Scaffold): (objs: seq<Part>)
    ensures TopBar in objs <==> s.topBar.Some?
    ensures SideBar in objs <==> s.sideBar.Some?
    ensures Content in objs <==> s.content.Some?
    ensures BottomBar in objs <==> s.bottomBar.Some?
    ensures FloatingButton in objs <==> s.floatingButton.Some?
    ensures Ranked(objs)
  {
    var last := AppendIf(s.floatingButton.Some?, FloatingButton, []);
    var fromBottom := AppendIf(s.bottomBar.Some?, BottomBar, last);
    var fromContent := AppendIf(s.content.Some?, Content, fromBottom);
    var fromSide := AppendIf(s.sideBar.Some?, SideBar, fromContent);
    AppendIf(s.topBar.Some?, TopBar, fromSide)
  }

  /** Parts listed in strictly increasing drawing order. */
  predicate Ranked(objs: seq<Part>)
  {
    forall i, j :: 0 <= i < j < |objs| ==> Rank(objs[i]) < Rank(objs[j])
  }

  /** One `if x != nil { objs = append(objs, x) }` step of `Objects`, seen
      from the end: `p` goes in front of the later parts when present. */
  function AppendIf(present: bool, p: Part, rest: seq<Part>): (r: seq<Part>)
    requires Ranked(rest) && forall q :: q in rest ==> Rank(p) < Rank(q)
    ensures Ranked(r)
    ensures forall q :: q in r <==> (present && q == p) || q in rest
    ensures forall q :: q in r ==> Rank(p) <= Rank(q)
  {
    if present then [p] + rest else rest
  }

  /** The place of a part in the drawing order. */
  function Rank(p: Part): nat
  {
    match p
    case TopBar => 0
    case SideBar => 1
    case Content => 2
    case BottomBar => 3
    case FloatingButton => 4
  }
}
