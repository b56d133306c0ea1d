/** mywidget/pagination.go: the page-number strip. The widget's state is the
    pair (total pages, current page); every cell's label, its highlight and
    the effect of selecting it are functions of that pair and the cell id. */
module Pagination {
  import opened Basics
  import opened Decimal
  import opened Text

  /** `pagesPerBatch`, fixed at 5 by the constructor; the full view's cell
      ids (8 and 9) are written for this value. */
  const PagesPerBatch: int := 5

  /** The strip's state: the total pages and the current page. */
  datatype Pagination = Pagination(totalPages: int, currentPage: int)

  /** The widget: the strip's state and whether an `onPageChange` callback
      was given (false is Go's nil func). */
  datatype Widget = Widget(strip: Pagination, hasOnPageChange: bool)

  /** The panic of calling a nil func. */
  const NilFuncCall: string := "invalid memory address or nil pointer dereference"

  /** The label of one cell of the strip. */
  datatype Label = Prev | Next | JumpBack | JumpForward | Page(n: int)

  /** Which cell layout `handlePagination` dispatches to for the inner cells. */
  datatype View =
    | AllPages       // every page shown
    | NearStart      // current <= 3: pages 1..5, ">>", last
    | NearEnd        // current > total-3: 1, "<<", last five pages
    | FourthPage     // current == 4: pages 1..6, ">>", last
    | FourthFromEnd  // current == total-3: 1, "<<", last six pages
    | Middle         // 1, "<<", current-2..current+2, ">>", last

  /** States the widget can reach: `UpdatePaginationData` gives
      0 <= current <= total, and a selection with no pages leaves current at 1. */
  predicate Valid(p: Pagination)
  {
    && p.totalPages >= 0
    && p.currentPage >= 0
    && (p.currentPage <= p.totalPages || (p.totalPages == 0 && p.currentPage == 1))
  }

  /** `NewPagination`: no pages, current page 0, the callback as given. */
  function NewPagination(hasOnPageChange: bool): (w: Widget)
    ensures Valid(w.strip) && w.strip.totalPages == 0 && w.strip.currentPage == 0
    ensures w.hasOnPageChange == hasOnPageChange
  {
    Widget(Pagination(0, 0), hasOnPageChange)
  }

  /** `UpdatePaginationData`: a negative total becomes 0, a negative current
      becomes 1, and then current is clamped down to the total; the callback
      stays. */
  function UpdatePaginationData(w: Widget, newTotalPages: int, newCurrentPage: int): (r: Widget)
    ensures r.hasOnPageChange == w.hasOnPageChange
    ensures Valid(r.strip) && r.strip.currentPage <= r.strip.totalPages
    ensures r.strip.totalPages == (if newTotalPages < 0 then 0 else newTotalPages)
    ensures 0 <= newCurrentPage <= r.strip.totalPages ==> r.strip.currentPage == newCurrentPage
    ensures newCurrentPage > r.strip.totalPages ==> r.strip.currentPage == r.strip.totalPages
    ensures newCurrentPage < 0 ==> r.strip.currentPage == (if r.strip.totalPages >= 1 then 1 else 0)
  {
    var total := if newTotalPages < 0 then 0 else newTotalPages;
    var current := if newCurrentPage < 0 then 1 else newCurrentPage;
    var current' := if current > total then total else current;
    w.(strip := Pagination(total, current'))
  }

  /** `matchMaxCells`: the widest strip, including the two arrows. */
  function MatchMaxCells(): int { PagesPerBatch + 4 + 2 }

  /** `getTotalItems`: the number of cells of the strip. */
  function CellCount(p: Pagination): int
  {
    if p.totalPages <= PagesPerBatch + 4 then p.totalPages + 2
    else if p.currentPage <= 3 || p.currentPage > p.totalPages - 3 then MatchMaxCells() - 2
    else if p.currentPage == 4 || p.currentPage == p.totalPages - 3 then MatchMaxCells() - 1
    else MatchMaxCells()
  }

  /** The inner-cell dispatch of `handlePagination`. */
  function ViewOf(p: Pagination): View
  {
    if p.totalPages <= PagesPerBatch + 4 then AllPages
    else if p.currentPage <= 3 || p.currentPage > p.totalPages - 3 then
      (if p.currentPage <= 3 then NearStart else NearEnd)
    else if p.currentPage == 4 || p.currentPage == p.totalPages - 3 then
      (if p.currentPage <= 4 then FourthPage else FourthFromEnd)
    else Middle
  }

  /** The label `updatePageItem` writes into cell `id`. */
  function CellLabel(p: Pagination, id: int): Label
  {
    var total := p.totalPages;
    var current := p.currentPage;
    var b := PagesPerBatch;
    if id == 0 then Prev
    else if id == CellCount(p) - 1 then Next
    else match ViewOf(p)
      case AllPages => Page(id)
      case NearStart =>
        if id <= b then Page(id) else if id == b + 1 then JumpForward else Page(total)
      case NearEnd =>
        if id == 1 then Page(id) else if id == 2 then JumpBack else Page(total - b + id - 2)
      case FourthPage =>
        if id < b + 2 then Page(id) else if id == b + 2 then JumpForward else Page(total)
      case FourthFromEnd =>
        if id == 1 then Page(id) else if id == 2 then JumpBack else Page(total - b + id - 3)
      case Middle =>
        if id == 1 then Page(id)
        else if id == 2 then JumpBack
        else if id == 8 then JumpForward
        else if id == 9 then Page(total)
        else if id == 3 then Page(current - 2)
        else if id == 4 then Page(current - 1)
        else if id == 6 then Page(current + 1)
        else if id == 7 then Page(current + 2)
        else Page(current)
  }

  /** The label text: arrows and jump marks, or `fmt.Sprintf(" %d ", n)`. */
  function LabelText(l: Label): string
  {
    match l
    case Prev => "←"
    case Next => "→"
    case JumpBack => "<<"
    case JumpForward => ">>"
    case Page(n) => " " + IntToString(n) + " "
  }

  /** The importance rule: a cell is highlighted when its trimmed text parses
      as an integer equal to the current page. */
  function Highlighted(p: Pagination, id: int): bool
  {
    match Atoi(TrimSpace(LabelText(CellLabel(p, id))))
    case Some(v) => v == p.currentPage
    case None => false
  }

  /** The whole strip, cell 0 first. */
  function Labels(p: Pagination): (ls: seq<Label>)
    requires p.totalPages >= 0
  {
    seq(CellCount(p), id => CellLabel(p, id))
  }

  /** The current page after the selection closure of `selectPage` for cell
      `id`, before the final clamps. */
  function Chosen(p: Pagination, id: int): int
  {
    var total := p.totalPages;
    var current := p.currentPage;
    var b := PagesPerBatch;
    if id == 0 then (if current > 1 then current - 1 else current)
    else if id == CellCount(p) - 1 then (if current < total then current + 1 else current)
    else match ViewOf(p)
      case AllPages => id
      case NearStart =>
        if id == 6 then current + b else if id == 7 then total else id
      case NearEnd =>
        if id == 2 then current - b else if id == 1 then id else total - b + id - 2
      case FourthPage =>
        if id == 7 then current + b else if id == 8 then total else id
      case FourthFromEnd =>
        if id == 2 then current - b else if id == 1 then id else total - b + id - 3
      case Middle =>
        if id == 1 then id
        else if id == 2 then current - b
        else if id == 8 then current + b
        else if id == 9 then total
        else if id == 3 then current - 2
        else if id == 4 then current - 1
        else if id == 6 then current + 1
        else if id == 7 then current + 2
        else current
  }

  /** The state after the selection closure of `selectPage` for cell `id`:
      apply the cell's closure, then clamp down to the total and up to 1, in
      that order. */
  function NextPage(p: Pagination, id: int): (q: Pagination)
    ensures q.totalPages == p.totalPages
    ensures q.currentPage >= 1
    ensures p.totalPages >= 1 ==> q.currentPage <= p.totalPages
    ensures p.totalPages == 0 ==> q.currentPage == 1
    ensures p.totalPages >= 0 ==> Valid(q)
  {
    var c := Chosen(p, id);
    var c1 := if c > p.totalPages then p.totalPages else c;
    var c2 := if c1 < 1 then 1 else c1;
    Pagination(p.totalPages, c2)
  }

  /** The outcome of a selection: the new widget and the single value passed
      to `onPageChange`. */
  datatype Selection = Selection(state: Widget, notified: int)

  /** `selectPage`: move to the next page and notify it once; with no
      callback the call of the nil func panics. */
  function SelectPage(w: Widget, id: int): (r: Outcome<Selection>)
    ensures r.Panic? <==> !w.hasOnPageChange
    ensures r.Panic? ==> r.reason == NilFuncCall
    ensures r.Ok? ==> r.value.state.hasOnPageChange && r.value.state.strip == NextPage(w.strip, id)
    ensures r.Ok? ==> r.value.notified == r.value.state.strip.currentPage >= 1
  {
    var q := NextPage(w.strip, id);
    if !w.hasOnPageChange then Panic(NilFuncCall) else Ok(Selection(w.(strip := q), q.currentPage))
  }

  // ---------------------------------------------------------------------
  // Properties of the strip

  /** The strip always has both arrows and never more cells than the widest
      strip or than the pages plus the two arrows. */
  lemma CellCountBounds(p: Pagination)
    requires Valid(p)
    ensures 2 <= CellCount(p) <= MatchMaxCells()
    ensures CellCount(p) <= p.totalPages + 2
    ensures p.totalPages <= PagesPerBatch + 4 ==> CellCount(p) == p.totalPages + 2
  {
  }

  /** Cell 0 is "←" and the last cell is "→". */
  lemma ArrowsAtEnds(p: Pagination)
    requires Valid(p)
    ensures CellLabel(p, 0) == Prev
    ensures CellLabel(p, CellCount(p) - 1) == Next
    ensures forall id :: 0 < id < CellCount(p) - 1 ==> CellLabel(p, id) != Prev && CellLabel(p, id) != Next
  {
    CellCountBounds(p);
  }

  /** Every numbered cell shows a page in [1, total]. */
  lemma PageLabelsInRange(p: Pagination, id: int)
    requires Valid(p) && 0 <= id < CellCount(p)
    requires CellLabel(p, id).Page?
    ensures 1 <= CellLabel(p, id).n <= p.totalPages
  {
  }

  /** Numbered cells increase strictly from left to right. */
  lemma PageLabelsIncrease(p: Pagination, i: int, j: int)
    requires Valid(p) && 0 <= i < j < CellCount(p)
    requires CellLabel(p, i).Page? && CellLabel(p, j).Page?
    ensures CellLabel(p, i).n < CellLabel(p, j).n
  {
  }

  /** A cell that shows the current page, when the current page is a page. */
  function CurrentCell(p: Pagination): (id: int)
    requires Valid(p) && 1 <= p.currentPage <= p.totalPages
    ensures 0 < id < CellCount(p) - 1
    ensures CellLabel(p, id) == Page(p.currentPage)
  {
    match ViewOf(p)
    case AllPages => p.currentPage
    case NearStart => p.currentPage
    case NearEnd => p.currentPage - p.totalPages + 7
    case FourthPage => 4
    case FourthFromEnd => 5
    case Middle => 5
  }

  /** The trimmed text of a page label parses back to its number. */
  lemma PageTextParses(n: int)
    ensures Atoi(TrimSpace(LabelText(Page(n)))) == Some(n)
  {
    var s := IntToString(n);
    assert IsDigit(s[|s|-1]) by {
      if n < 0 { assert s[1..][|s|-2] == s[|s|-1]; }
    }
    TrimSpacePadded(s);
    AtoiIntToString(n);
  }

  /** The text of an arrow or jump mark does not parse as a number. */
  lemma MarkTextRefused(l: Label)
    requires !l.Page?
    ensures Atoi(TrimSpace(LabelText(l))) == None
  {
    var t := LabelText(l);
    assert |t| >= 1 && !IsSpace(t[0]) && !IsSpace(t[|t|-1]);
    TrimSpaceKeepsTrimmed(t);
    AtoiRefusesForeign(t, 0);
  }

  /** The highlight test recognises exactly the numbered cell of the current
      page. */
  lemma HighlightedIffCurrentPage(p: Pagination, id: int)
    ensures Highlighted(p, id) <==> CellLabel(p, id) == Page(p.currentPage)
  {
    var l := CellLabel(p, id);
    if l.Page? {
      PageTextParses(l.n);
    } else {
      MarkTextRefused(l);
    }
  }

  /** Exactly one cell is highlighted when the current page is a page, and
      none when it is 0 (or when there are no pages). */
  lemma ExactlyOneHighlighted(p: Pagination)
    requires Valid(p)
    ensures 1 <= p.currentPage <= p.totalPages ==>
      Highlighted(p, CurrentCell(p))
    ensures forall i, j ::
      (0 <= i < CellCount(p) && 0 <= j < CellCount(p) && Highlighted(p, i) && Highlighted(p, j)) ==> i == j
    ensures !(1 <= p.currentPage <= p.totalPages) ==>
      forall id :: 0 <= id < CellCount(p) ==> !Highlighted(p, id)
  {
    if 1 <= p.currentPage <= p.totalPages {
      HighlightedIffCurrentPage(p, CurrentCell(p));
    }
    forall i, j | 0 <= i < CellCount(p) && 0 <= j < CellCount(p) && Highlighted(p, i) && Highlighted(p, j)
      ensures i == j
    {
      HighlightedIffCurrentPage(p, i);
      HighlightedIffCurrentPage(p, j);
      if i < j {
        PageLabelsIncrease(p, i, j);
      } else if j < i {
        PageLabelsIncrease(p, j, i);
      }
    }
    forall id | 0 <= id < CellCount(p) && !(1 <= p.currentPage <= p.totalPages)
      ensures !Highlighted(p, id)
    {
      HighlightedIffCurrentPage(p, id);
      if CellLabel(p, id).Page? {
        PageLabelsInRange(p, id);
      }
    }
  }

  // ---------------------------------------------------------------------
  // Selection agrees with labelling

  /** What selecting a cell does, by the cell's label: a number goes to that
      page, the arrows step by one and saturate, the jump marks move by a
      batch and saturate. */
  lemma SelectionFollowsLabel(p: Pagination, id: int)
    requires Valid(p) && 0 <= id < CellCount(p)
    ensures var c := p.currentPage;
            var total := p.totalPages;
            var r := NextPage(p, id).currentPage;
            match CellLabel(p, id)
            case Page(n) => r == n
            case Prev => r == (if c > 1 then c - 1 else 1)
            case Next => r == (if c < total then c + 1 else if total >= 1 then total else 1)
            case JumpForward => r == (if c + PagesPerBatch <= total then c + PagesPerBatch else total)
            case JumpBack => r == (if c - PagesPerBatch >= 1 then c - PagesPerBatch else 1)
  {
    CellCountBounds(p);
  }

  /** In the full view the centre cell (id 5) shows the current page, and
      selecting it keeps the current page. */
  lemma CentreCellKeepsPage(p: Pagination)
    requires Valid(p) && ViewOf(p) == Middle
    ensures CellLabel(p, 5) == Page(p.currentPage)
    ensures NextPage(p, 5) == p
  {
  }

  // ---------------------------------------------------------------------
  // Scenarios

  lemma ScenarioTwentyPagesAtFirst()
    ensures Labels(Pagination(20, 1)) ==
      [Prev, Page(1), Page(2), Page(3), Page(4), Page(5), JumpForward, Page(20), Next]
  {
  }

  lemma ScenarioTwentyPagesAtTenth()
    ensures Labels(Pagination(20, 10)) ==
      [Prev, Page(1), JumpBack, Page(8), Page(9), Page(10), Page(11), Page(12), JumpForward, Page(20), Next]
    ensures NextPage(Pagination(20, 10), 8).currentPage == 15
    ensures NextPage(Pagination(20, 10), 2).currentPage == 5
  {
  }

  lemma ScenarioThreePages()
    ensures Labels(UpdatePaginationData(NewPagination(true), 3, 1).strip) == [Prev, Page(1), Page(2), Page(3), Next]
  {
  }

  /** Selecting ">>" at page 10 of 20 notifies page 15 when a callback was
      given, and panics when `NewPagination` was given nil. */
  lemma ScenarioCallback()
    ensures SelectPage(UpdatePaginationData(NewPagination(true), 20, 10), 8)
         == Ok(Selection(Widget(Pagination(20, 15), true), 15))
    ensures SelectPage(UpdatePaginationData(NewPagination(false), 20, 10), 8) == Panic(NilFuncCall)
  {
  }
}
