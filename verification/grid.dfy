/** mywidget/grid.go: a fixed-column grid of equal cells with border lines
    between them. A child is its min size, or None for a nil child. */
module Grid {
  import opened Basics
  import opened Geometry

  datatype Grid = Grid(children: seq<Option<Size>>, columns: int, borderWidth: real)

  /** `NewGrid`. */
  function NewGrid(children: seq<Option<Size>>, columns: int, borderWidth: real): (g: Grid)
    ensures g.children == children && g.columns == columns && g.borderWidth == borderWidth
  {
    Grid(children, columns, borderWidth)
  }

  /** The number of rows. As written, `len(children) / columns` truncated,
      which ignores a partial last row; corrected, the rows needed to hold
      every child (the ceiling of the quotient for a positive column count). */
  function Rows(n: nat, columns: int, corrected: bool): (rows: int)
    requires columns != 0
    ensures !corrected ==> rows == GoQuot(n, columns)
    ensures corrected && columns > 0 ==> rows >= 0 && (n > 0 ==> rows - 1 == (n - 1) / columns)
  {
    if corrected && columns > 0 then
      (if n == 0 then 0 else (n - 1) / columns + 1)
    else GoQuot(n, columns)
  }

  /** Child `i` sits in column `i % columns` and row `i / columns` (Go's
      truncating operators). */
  function Column(i: nat, columns: int): int requires columns != 0 { GoRem(i, columns) }
  function Row(i: nat, columns: int): int requires columns != 0 { GoQuot(i, columns) }

  /** The width of `count` equal cells with `count - 1` borders between
      them filling `total`. */
  function CellLength(total: real, count: int, borderWidth: real): (cell: real)
    requires count != 0
    ensures count as real * cell + (count - 1) as real * borderWidth == total
  {
    (total - (count - 1) as real * borderWidth) / count as real
  }

  /** The cells of a total built from `count` cells and the borders between
      them have exactly that cell length again. */
  lemma CellLengthInverts(count: int, cell: real, borderWidth: real)
    requires count != 0
    ensures CellLength(count as real * cell + (count - 1) as real * borderWidth, count, borderWidth) == cell
  {
    var total := count as real * cell + (count - 1) as real * borderWidth;
    assert total - (count - 1) as real * borderWidth == count as real * cell;
  }

  /** The cell of child `i`: column and row times the cell pitch. */
  function CellRect(g: Grid, size: Size, rows: int, i: nat): (r: Rect)
    requires g.columns != 0 && rows != 0
    ensures r.size == Size(CellLength(size.width, g.columns, g.borderWidth), CellLength(size.height, rows, g.borderWidth))
  {
    var cw := CellLength(size.width, g.columns, g.borderWidth);
    var ch := CellLength(size.height, rows, g.borderWidth);
    Rect(Pos(Column(i, g.columns) as real * (cw + g.borderWidth), Row(i, g.columns) as real * (ch + g.borderWidth)),
         Size(cw, ch))
  }

  /** Child `i` positions a horizontal line when it starts a row after the
      first, and a vertical line when it is not in the first column. */
  predicate StartsRow(i: nat, columns: int) requires columns != 0
  {
    Row(i, columns) > 0 && Column(i, columns) == 0
  }

  predicate ConsumesLine(i: nat, columns: int) requires columns != 0
  {
    StartsRow(i, columns) || Column(i, columns) > 0
  }

  /** The line child `i` positions: a full-width horizontal line centred on
      the border above its row, or a vertical line centred on the border
      left of its cell. */
  function LineRect(g: Grid, size: Size, rows: int, i: nat): (r: Rect)
    requires g.columns != 0 && rows != 0
    ensures StartsRow(i, g.columns) ==> r.size == Size(size.width, g.borderWidth) && r.pos.x == 0.0
    ensures !StartsRow(i, g.columns) ==> r.size.width == g.borderWidth && r.pos.y == CellRect(g, size, rows, i).pos.y
  {
    var cell := CellRect(g, size, rows, i);
    if StartsRow(i, g.columns) then
      Rect(Pos(0.0, cell.pos.y - g.borderWidth / 2.0), Size(size.width, g.borderWidth))
    else
      Rect(Pos(cell.pos.x - g.borderWidth / 2.0, cell.pos.y), Size(g.borderWidth, cell.size.height - g.borderWidth))
  }

  /** The line slot child `i` takes: how many children before it took one. */
  function SlotsBefore(i: nat, columns: int): (k: nat)
    requires columns != 0
    ensures k <= i
  {
    if i == 0 then 0 else SlotsBefore(i - 1, columns) + (if ConsumesLine(i - 1, columns) then 1 else 0)
  }

  lemma {:induction false} SlotsMonotone(j: nat, i: nat, columns: int)
    requires columns != 0 && j <= i
    ensures SlotsBefore(j, columns) <= SlotsBefore(i, columns)
    decreases i
  {
    if j < i {
      SlotsMonotone(j, i - 1, columns);
    }
  }

  /** The result of `Layout`: every child's cell (None for a nil child, which
      is skipped), the `len(children)` line slots (None for a slot no child
      positions), and the outer border. When the row count is 0 and there
      are children, the cell height divides by zero in floating point and
      every cell is non-finite (infinite or NaN), which the model does not
      represent numerically. */
  datatype GridLayout = Placed(cells: seq<Option<Rect>>, lines: seq<Option<Rect>>, border: Rect) | NonFiniteCells

  /** `gridRenderer.Layout`, with the row count as written or corrected.
      Zero columns is an integer division by zero. Each child takes at most
      one line slot, so the slot index stays within the `len(children)`
      lines and never panics. */
  method LayoutWith(g: Grid, size: Size, corrected: bool) returns (r: Outcome<GridLayout>)
    ensures r.Panic? <==> g.columns == 0
    ensures r == Ok(NonFiniteCells) <==> g.columns != 0 && |g.children| > 0 && Rows(|g.children|, g.columns, corrected) == 0
    ensures r.Ok? && r.value.Placed? ==>
      var n := |g.children|;
      var rows := Rows(n, g.columns, corrected);
      var p := r.value;
      && |p.cells| == n && |p.lines| == n
      && p.border == Rect(Pos(0.0, 0.0), size)
      && (forall i :: 0 <= i < n ==>
            p.cells[i] == if g.children[i].None? then None else Some(CellRect(g, size, rows, i)))
      && (forall k :: 0 <= k < SlotsBefore(n, g.columns) ==> p.lines[k] == Some(Positioned(g, size, rows, n)[k]))
      && (forall k :: SlotsBefore(n, g.columns) <= k < n ==> p.lines[k].None?)
  {
    if g.columns == 0 {
      return Panic("integer divide by zero");
    }
    var n := |g.children|;
    var rows := Rows(n, g.columns, corrected);
    if n > 0 && rows == 0 {
      return Ok(NonFiniteCells);
    }
    var cells := PlaceCells(g, size, rows);
    var lines: seq<Option<Rect>> := [];
    if n > 0 {
      lines := PlaceLines(g, size, rows);
    }
    return Ok(Placed(cells, lines, Rect(Pos(0.0, 0.0), size)));
  }

  /** The first half of the loop of `Layout`: each child's cell. */
  method PlaceCells(g: Grid, size: Size, rows: int) returns (cells: seq<Option<Rect>>)
    requires g.columns != 0 && (rows != 0 || |g.children| == 0)
    ensures |cells| == |g.children|
    ensures forall i :: 0 <= i < |g.children| ==>
      cells[i] == if g.children[i].None? then None else Some(CellRect(g, size, rows, i))
  {
    cells := [];
    var i := 0;
    while i < |g.children|
      invariant 0 <= i <= |g.children| && |cells| == i
      invariant forall k :: 0 <= k < i ==>
        cells[k] == if g.children[k].None? then None else Some(CellRect(g, size, rows, k))
    {
      cells := cells + [if g.children[i].None? then None else Some(CellRect(g, size, rows, i))];
      i := i + 1;
    }
  }

  /** The lines the first `i` children position, in slot order. */
  function Positioned(g: Grid, size: Size, rows: int, i: nat): (ls: seq<Rect>)
    requires g.columns != 0 && rows != 0
    ensures |ls| == SlotsBefore(i, g.columns)
  {
    if i == 0 then []
    else Positioned(g, size, rows, i - 1) + (if ConsumesLine(i - 1, g.columns) then [LineRect(g, size, rows, i - 1)] else [])
  }

  /** Slot `SlotsBefore(j)` holds the line of child `j`, for every child
      that positions one. */
  lemma {:induction false} PositionedSlot(g: Grid, size: Size, rows: int, i: nat, j: nat)
    requires g.columns != 0 && rows != 0
    requires j < i && ConsumesLine(j, g.columns)
    ensures SlotsBefore(j, g.columns) < SlotsBefore(i, g.columns)
    ensures Positioned(g, size, rows, i)[SlotsBefore(j, g.columns)] == LineRect(g, size, rows, j)
    decreases i
  {
    if j < i - 1 {
      PositionedSlot(g, size, rows, i - 1, j);
    }
  }

  /** The second half of the loop of `Layout`: the line slots, taken in
      child order. */
  method PlaceLines(g: Grid, size: Size, rows: int) returns (lines: seq<Option<Rect>>)
    requires g.columns != 0 && rows != 0
    ensures |lines| == |g.children|
    ensures forall k :: 0 <= k < SlotsBefore(|g.children|, g.columns) ==>
      lines[k] == Some(Positioned(g, size, rows, |g.children|)[k])
    ensures forall k :: SlotsBefore(|g.children|, g.columns) <= k < |g.children| ==> lines[k].None?
  {
    var n := |g.children|;
    lines := seq(n, _ => None);
    var lineIndex := 0;
    var i := 0;
    while i < n
      invariant 0 <= i <= n && |lines| == n
      invariant lineIndex == SlotsBefore(i, g.columns)
      invariant forall k :: 0 <= k < lineIndex ==> lines[k] == Some(Positioned(g, size, rows, i)[k])
      invariant forall k :: lineIndex <= k < n ==> lines[k].None?
    {
      if ConsumesLine(i, g.columns) {
        lines := lines[lineIndex := Some(LineRect(g, size, rows, i))];
        lineIndex := lineIndex + 1;
      }
      i := i + 1;
    }
  }

  /** `Layout` as written and with the rows corrected. */
  method Layout(g: Grid, size: Size) returns (r: Outcome<GridLayout>)
    ensures r.Panic? <==> g.columns == 0
    ensures r.Ok? && g.columns > 0 && |g.children| > 0 ==> (r.value.NonFiniteCells? <==> |g.children| < g.columns)
  {
    r := LayoutWith(g, size, false);
  }

  method LayoutCorrected(g: Grid, size: Size) returns (r: Outcome<GridLayout>)
    ensures r.Panic? <==> g.columns == 0
    ensures g.columns > 0 ==> r.Ok? && r.value.Placed?
  {
    r := LayoutWith(g, size, true);
  }

  /** With a positive column count every child but the first takes a line
      slot, so exactly `len(children) - 1` slots are positioned. */
  lemma {:induction false} SlotsUsed(n: nat, columns: int)
    requires columns > 0 && n >= 1
    ensures SlotsBefore(n, columns) == n - 1
    decreases n
  {
    if n > 1 {
      SlotsUsed(n - 1, columns);
      var i := n - 1;
      assert i == columns * Row(i, columns) + Column(i, columns);
      if Column(i, columns) == 0 {
        assert Row(i, columns) > 0;
      }
    }
  }

  /** Cell `k` of `count` equal cells with borders between them ends inside
      `total`, and the last one ends exactly on it, provided the pitch is
      not negative. */
  lemma WithinSpan(k: nat, count: int, total: real, borderWidth: real)
    requires 0 <= k < count
    requires CellLength(total, count, borderWidth) + borderWidth >= 0.0
    ensures k as real * (CellLength(total, count, borderWidth) + borderWidth) + CellLength(total, count, borderWidth) <= total
    ensures k == count - 1 ==>
      k as real * (CellLength(total, count, borderWidth) + borderWidth) + CellLength(total, count, borderWidth) == total
  {
    var cell := CellLength(total, count, borderWidth);
    var pitch := cell + borderWidth;
    MulMonotone(k, count - 1, pitch);
    assert (count - 1) as real * pitch + cell == count as real * cell + (count - 1) as real * borderWidth;
  }

  lemma DivMonotone(a: nat, b: nat, c: int)
    requires a <= b && c > 0
    ensures a / c <= b / c
  {
    if a / c > b / c {
      MulMonotone(b / c + 1, a / c, c as real);
    }
  }

  lemma MulMonotone(a: nat, b: nat, x: real)
    requires a <= b && x >= 0.0
    ensures a as real * x <= b as real * x
  {
    assert b as real * x - a as real * x == (b - a) as real * x;
  }

  /** With the rows corrected, every cell lies inside the grid when the
      cells are no narrower than minus the border. */
  lemma CorrectedCellsWithin(g: Grid, size: Size, i: nat)
    requires g.columns > 0 && i < |g.children|
    requires CellLength(size.width, g.columns, g.borderWidth) + g.borderWidth >= 0.0
    requires CellLength(size.height, Rows(|g.children|, g.columns, true), g.borderWidth) + g.borderWidth >= 0.0
    ensures var cell := CellRect(g, size, Rows(|g.children|, g.columns, true), i);
      && cell.pos.x + cell.size.width <= size.width
      && cell.pos.y + cell.size.height <= size.height
  {
    var n := |g.children|;
    var rows := Rows(n, g.columns, true);
    DivMonotone(i, n - 1, g.columns);
    WithinSpan(Column(i, g.columns), g.columns, size.width, g.borderWidth);
    WithinSpan(Row(i, g.columns), rows, size.height, g.borderWidth);
  }

  /** As written, three children in two columns make one row: the third
      child, alone in the second row, gets the full height and lies
      entirely below the grid; and one child in two columns makes zero
      rows. With the rows corrected it gets the lower half. */
  lemma PartialRowOverflows()
    ensures var g := Grid([Some(Size(1.0, 1.0)), Some(Size(1.0, 1.0)), Some(Size(1.0, 1.0))], 2, 0.0);
      var size := Size(100.0, 100.0);
      && Rows(3, 2, false) == 1
      && CellRect(g, size, Rows(3, 2, false), 2) == Rect(Pos(0.0, 100.0), Size(50.0, 100.0))
      && CellRect(g, size, Rows(3, 2, true), 2) == Rect(Pos(0.0, 50.0), Size(50.0, 50.0))
    ensures Rows(1, 2, false) == 0 && Rows(1, 2, true) == 1
  {
    assert GoQuot(2, 2) == 1 && GoRem(2, 2) == 0;
  }

  /** `gridRenderer.MinSize`, with the row count as written or corrected:
      `columns` cells of the first child's min size (0 without children)
      with borders between them and one border on each side. Zero columns
      is an integer division by zero, and a nil first child a nil
      dereference. */
  function MinSizeWith(g: Grid, corrected: bool): (r: Outcome<Size>)
    ensures r.Panic? <==> g.columns == 0 || (|g.children| > 0 && g.children[0].None?)
    ensures r.Ok? ==>
      var first := if |g.children| > 0 then g.children[0].value else Size(0.0, 0.0);
      var rows := Rows(|g.children|, g.columns, corrected);
      && CellLength(r.value.width - 2.0 * g.borderWidth, g.columns, g.borderWidth) == first.width
      && (rows != 0 ==> CellLength(r.value.height - 2.0 * g.borderWidth, rows, g.borderWidth) == first.height)
  {
    if g.columns == 0 then Panic("integer divide by zero")
    else if |g.children| > 0 && g.children[0].None? then Panic("nil pointer dereference")
    else
      var first := if |g.children| > 0 then g.children[0].value else Size(0.0, 0.0);
      var rows := Rows(|g.children|, g.columns, corrected);
      Ok(CellsSize(first, g.columns, rows, g.borderWidth))
  }

  /** `columns` by `rows` cells of one size, with a border between
      neighbours and one on each side. */
  function CellsSize(cell: Size, columns: int, rows: int, borderWidth: real): (s: Size)
    requires columns != 0
    ensures CellLength(s.width - 2.0 * borderWidth, columns, borderWidth) == cell.width
    ensures rows != 0 ==> CellLength(s.height - 2.0 * borderWidth, rows, borderWidth) == cell.height
  {
    var totalWidth := columns as real * cell.width + (columns - 1) as real * borderWidth;
    var totalHeight := rows as real * cell.height + (rows - 1) as real * borderWidth;
    CellLengthInverts(columns, cell.width, borderWidth);
    var s := Size(totalWidth + 2.0 * borderWidth, totalHeight + 2.0 * borderWidth);
    if rows == 0 then s
    else CellLengthInverts(rows, cell.height, borderWidth); s
  }

  /** `gridRenderer.MinSize` as written: `columns` cells across and the
      truncated quotient of children by columns down, each of the first
      child's min size, with a border between neighbours and on each side. */
  function MinSize(g: Grid): (r: Outcome<Size>)
    ensures r.Panic? <==> g.columns == 0 || (|g.children| > 0 && g.children[0].None?)
    ensures r.Ok? ==>
      var first := if |g.children| > 0 then g.children[0].value else Size(0.0, 0.0);
      var rows := GoQuot(|g.children|, g.columns);
      && r.value.width == g.columns as real * first.width + (g.columns + 1) as real * g.borderWidth
      && r.value.height == rows as real * first.height + (rows + 1) as real * g.borderWidth
  {
    MinSizeWith(g, false)
  }

  /** With the rows corrected and a non-negative border, a grid laid out at
      its min size gives every cell at least the first child's min size. */
  lemma MinSizeCellsFit(g: Grid)
    requires g.columns > 0 && |g.children| > 0 && g.children[0].Some? && g.borderWidth >= 0.0
    ensures var m := MinSizeWith(g, true).value;
      var rows := Rows(|g.children|, g.columns, true);
      && CellLength(m.width, g.columns, g.borderWidth) >= g.children[0].value.width
      && CellLength(m.height, rows, g.borderWidth) >= g.children[0].value.height
  {
    var m := MinSizeWith(g, true).value;
    var rows := Rows(|g.children|, g.columns, true);
    var first := g.children[0].value;
    CellGrows(m.width, g.columns, g.borderWidth, first.width);
    CellGrows(m.height, rows, g.borderWidth, first.height);
  }

  /** Adding `2·border` to the total adds `2·border / count` to each cell. */
  lemma CellGrows(total: real, count: int, borderWidth: real, cell: real)
    requires count > 0 && borderWidth >= 0.0
    requires CellLength(total - 2.0 * borderWidth, count, borderWidth) == cell
    ensures CellLength(total, count, borderWidth) >= cell
  {
    var c := CellLength(total, count, borderWidth);
    assert count as real * c == count as real * cell + 2.0 * borderWidth;
    assert count as real * (c - cell) >= 0.0;
  }
}
