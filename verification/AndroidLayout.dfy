/** Which layouts the Android viewer accepts, and what accepting one guarantees about its geometry. */
module AndroidLayout {
  import opened Common

  type U32 = x: int | 0 <= x < 0x1_0000_0000

  const MAX_GRID: int := 16
  const MAX_CELLS: int := 64

  datatype Rect = Rect(row: U32, col: U32, rowSpan: U32, colSpan: U32)

  /** A configured click: the action and, if its layout_id is a string or a number, that id. */
  datatype Click = Click(action: string, layoutId: Option<string>)

  /** The content type: camera, web, html, one of none, empty and placeholder, or a name this viewer does not know. */
  datatype Content = CameraContent | WebContent | HtmlContent | NoContent | UnknownContent(name: string)

  datatype Cell = Cell(
    viewId: Option<string>, rect: Rect, content: Content, cameraId: Option<string>, streamSelector: Option<string>,
    scriptedLogin: bool, webUrl: Option<string>, html: Option<string>, click: Option<Click>)

  datatype Layout = Layout(id: string, rows: U32, cols: U32, isDefault: bool, cells: seq<Cell>)

  function CellId(layout: Layout, i: nat): string
    requires i < |layout.cells|
  {
    if layout.cells[i].viewId.Some? then layout.cells[i].viewId.value else "cell-" + Decimal(i)
  }

  // ---------------------------------------------------------------- geometry

  predicate Covers(r: Rect, y: int, x: int) {
    r.row <= y < r.row + r.rowSpan && r.col <= x < r.col + r.colSpan
  }

  ghost predicate Overlap(a: Rect, b: Rect) {
    exists y, x :: Covers(a, y, x) && Covers(b, y, x)
  }

  predicate Inside(r: Rect, rows: int, cols: int) {
    r.rowSpan > 0 && r.colSpan > 0 && r.row + r.rowSpan <= rows && r.col + r.colSpan <= cols
  }

  function Rects(cells: seq<Cell>): (r: seq<Rect>)
    ensures |r| == |cells| && forall i | 0 <= i < |r| :: r[i] == cells[i].rect
  {
    seq(|cells|, i requires 0 <= i < |cells| => cells[i].rect)
  }

  /** Non-empty rectangles inside the grid, no two of which share a square. */
  ghost predicate Packing(rects: seq<Rect>, rows: int, cols: int) {
    && (forall i | 0 <= i < |rects| :: Inside(rects[i], rows, cols))
    && (forall i, j | 0 <= i < j < |rects| :: !Overlap(rects[i], rects[j]))
  }

  predicate GridOk(layout: Layout) {
    1 <= layout.rows <= MAX_GRID && 1 <= layout.cols <= MAX_GRID && |layout.cells| <= MAX_CELLS
  }

  /** Cell k against the cells before it. */
  ghost predicate IdRepeats(layout: Layout, k: nat)
    requires k < |layout.cells|
  {
    exists j | 0 <= j < k :: CellId(layout, j) == CellId(layout, k)
  }

  ghost predicate OverlapsEarlier(layout: Layout, k: nat)
    requires k < |layout.cells|
  {
    exists j | 0 <= j < k :: Overlap(layout.cells[j].rect, layout.cells[k].rect)
  }

  ghost predicate CellOk(layout: Layout, k: nat)
    requires k < |layout.cells|
  {
    && !IdRepeats(layout, k) && Inside(layout.cells[k].rect, layout.rows, layout.cols) && !OverlapsEarlier(layout, k)
  }

  ghost predicate Valid(layout: Layout) {
    && GridOk(layout)
    && (forall i, j | 0 <= i < j < |layout.cells| :: CellId(layout, i) != CellId(layout, j))
    && Packing(Rects(layout.cells), layout.rows, layout.cols)
  }

  lemma ValidCellByCell(layout: Layout)
    ensures Valid(layout) <==> GridOk(layout) && forall k | 0 <= k < |layout.cells| :: CellOk(layout, k)
  {
    var rects := Rects(layout.cells);
    if Valid(layout) {
      forall k | 0 <= k < |layout.cells|
        ensures CellOk(layout, k)
      {
        assert Inside(rects[k], layout.rows, layout.cols);
        assert forall j | 0 <= j < k :: !Overlap(rects[j], rects[k]);
      }
    }
    if GridOk(layout) && forall k | 0 <= k < |layout.cells| :: CellOk(layout, k) {
      forall i, j | 0 <= i < j < |layout.cells|
        ensures CellId(layout, i) != CellId(layout, j) && !Overlap(rects[i], rects[j])
      {
        assert CellOk(layout, j) && !IdRepeats(layout, j) && !OverlapsEarlier(layout, j);
      }
      forall i | 0 <= i < |rects|
        ensures Inside(rects[i], layout.rows, layout.cols)
      {
        assert CellOk(layout, i);
      }
    }
  }

  // ---------------------------------------------------------------- validation

  function CheckedAdd(a: U32, b: U32): Option<U32> {
    if a + b < 0x1_0000_0000 then Some(a + b) else None
  }

  datatype LayoutFault = ExceedsGridBounds | DuplicateId | OutsideGrid | OverlappingCells

  function Text(fault: LayoutFault): string {
    match fault
    case ExceedsGridBounds => "Layout exceeds supported grid bounds"
    case DuplicateId => "Layout contains duplicate cell IDs"
    case OutsideGrid => "Cell is outside the assigned grid"
    case OverlappingCells => "Layout contains overlapping cells"
  }

  /** The fault is that of the first cell that is not in order, and the first thing wrong with it. */
  ghost predicate Blames(layout: Layout, fault: LayoutFault, k: nat) {
    && k < |layout.cells| && (forall j | 0 <= j < k :: CellOk(layout, j)) && !CellOk(layout, k)
    && fault == (if IdRepeats(layout, k) then DuplicateId
                 else if !Inside(layout.cells[k].rect, layout.rows, layout.cols) then OutsideGrid
                 else OverlappingCells)
  }

  ghost predicate Held(layout: Layout, k: nat, y: int, x: int)
    requires k <= |layout.cells|
  {
    exists j | 0 <= j < k :: Covers(layout.cells[j].rect, y, x)
  }

  /** Squares of the cells before k, and those of rectangle r that come before (row, col) in reading order. */
  ghost predicate Marked(layout: Layout, k: nat, r: Rect, row: int, col: int, occupied: set<(int, int)>)
    requires k <= |layout.cells|
  {
    forall y, x :: (y, x) in occupied <==>
      Held(layout, k, y, x) || (Covers(r, y, x) && (y < row || (y == row && x < col)))
  }

  /** Marks the squares of cell k, in reading order, until one is already taken. */
  method Occupy(layout: Layout, k: nat, before: set<(int, int)>) returns (clash: bool, occupied: set<(int, int)>)
    requires k < |layout.cells| && GridOk(layout) && Inside(layout.cells[k].rect, layout.rows, layout.cols)
    requires forall y, x :: (y, x) in before <==> Held(layout, k, y, x)
    ensures clash <==> OverlapsEarlier(layout, k)
    ensures !clash ==> forall y, x :: (y, x) in occupied <==> Held(layout, k + 1, y, x)
  {
    var r := layout.cells[k].rect;
    occupied := before;
    var bottom: U32, right: U32 := r.row + r.rowSpan, r.col + r.colSpan;
    var row := r.row;
    while row < bottom
      invariant r.row <= row <= bottom
      invariant Marked(layout, k, r, row, r.col, occupied)
      invariant forall y, x | Covers(r, y, x) && y < row :: !Held(layout, k, y, x)
    {
      var col := r.col;
      while col < right
        invariant r.col <= col <= right
        invariant Marked(layout, k, r, row, col, occupied)
        invariant forall y, x | Covers(r, y, x) && (y < row || (y == row && x < col)) :: !Held(layout, k, y, x)
      {
        assert Covers(r, row, col);
        if (row, col) in occupied {
          var j :| 0 <= j < k && Covers(layout.cells[j].rect, row, col);
          assert Overlap(layout.cells[j].rect, r);
          return true, occupied;
        }
        occupied := occupied + {(row, col)};
        col := col + 1;
      }
      row := row + 1;
    }
    clash := false;
    forall y, x
      ensures (y, x) in occupied <==> Held(layout, k + 1, y, x)
    {
      assert Held(layout, k + 1, y, x) <==> Held(layout, k, y, x) || Covers(r, y, x);
    }
  }

  /** No fault is found exactly when the layout is valid; a fault blames the first cell that has one. */
  method ValidateLayout(layout: Layout) returns (fault: Option<LayoutFault>)
    ensures fault.None? <==> Valid(layout)
    ensures fault == Some(ExceedsGridBounds) <==> !GridOk(layout)
    ensures fault.Some? && GridOk(layout) ==> exists k: nat :: Blames(layout, fault.value, k)
  {
    ValidCellByCell(layout);
    if layout.cols == 0 || layout.rows == 0 || layout.cols > 16 || layout.rows > 16 || |layout.cells| > 64 {
      return Some(ExceedsGridBounds);
    }
    var ids: set<string> := {};
    var occupied: set<(int, int)> := {};
    var i := 0;
    while i < |layout.cells|
      invariant 0 <= i <= |layout.cells|
      invariant forall k | 0 <= k < i :: CellOk(layout, k)
      invariant forall id :: id in ids <==> exists j | 0 <= j < i :: CellId(layout, j) == id
      invariant forall y, x :: (y, x) in occupied <==> Held(layout, i, y, x)
    {
      var c := layout.cells[i].rect;
      if CellId(layout, i) in ids {
        assert Blames(layout, DuplicateId, i);
        return Some(DuplicateId);
      }
      ids := ids + {CellId(layout, i)};
      var bottom, right := CheckedAdd(c.row, c.rowSpan), CheckedAdd(c.col, c.colSpan);
      if c.rowSpan == 0 || c.colSpan == 0 || bottom.None? || bottom.value > layout.rows || right.None?
          || right.value > layout.cols {
        assert Blames(layout, OutsideGrid, i);
        return Some(OutsideGrid);
      }
      var clash, marked := Occupy(layout, i, occupied);
      if clash {
        assert Blames(layout, OverlappingCells, i);
        return Some(OverlappingCells);
      }
      occupied := marked;
      i := i + 1;
    }
    return None;
  }

  // ---------------------------------------------------------------- area

  function Area(r: Rect): nat {
    r.rowSpan * r.colSpan
  }

  function TotalArea(rects: seq<Rect>): nat {
    if rects == [] then 0 else TotalArea(rects[..|rects|-1]) + Area(rects[|rects|-1])
  }

  ghost function Line(y: int, x: int, w: nat): set<(int, int)> {
    set i | x <= i < x + w :: (y, i)
  }

  ghost function Block(y: int, x: int, h: nat, w: nat): set<(int, int)> {
    set j, i | y <= j < y + h && x <= i < x + w :: (j, i)
  }

  lemma {:induction false} LineSize(y: int, x: int, w: nat)
    ensures |Line(y, x, w)| == w
  {
    if w == 0 {
      assert Line(y, x, w) == {};
    } else {
      LineSize(y, x, w - 1);
      assert Line(y, x, w) == Line(y, x, w - 1) + {(y, x + w - 1)};
    }
  }

  lemma BlockByRows(y: int, x: int, h: nat, w: nat)
    requires h > 0
    ensures Block(y, x, h, w) == Block(y, x, h - 1, w) + Line(y + h - 1, x, w)
    ensures Block(y, x, h - 1, w) !! Line(y + h - 1, x, w)
  {
  }

  lemma {:induction false} BlockSize(y: int, x: int, h: nat, w: nat)
    ensures |Block(y, x, h, w)| == h * w
  {
    if h == 0 {
      assert Block(y, x, h, w) == {};
    } else {
      calc {
        |Block(y, x, h, w)|;
        { BlockByRows(y, x, h, w); }
        |Block(y, x, h - 1, w)| + |Line(y + h - 1, x, w)|;
        { BlockSize(y, x, h - 1, w); LineSize(y + h - 1, x, w); }
        (h - 1) * w + w;
        h * w;
      }
    }
  }

  ghost function Squares(r: Rect): set<(int, int)> {
    Block(r.row, r.col, r.rowSpan, r.colSpan)
  }

  ghost function Union(rects: seq<Rect>): set<(int, int)> {
    if rects == [] then {} else Union(rects[..|rects|-1]) + Squares(rects[|rects|-1])
  }

  lemma {:induction false} InUnion(rects: seq<Rect>, y: int, x: int)
    requires (y, x) in Union(rects)
    ensures exists j | 0 <= j < |rects| :: Covers(rects[j], y, x)
  {
    var last := |rects| - 1;
    if (y, x) in Union(rects[..last]) {
      InUnion(rects[..last], y, x);
      var j :| 0 <= j < last && Covers(rects[..last][j], y, x);
      assert Covers(rects[j], y, x);
    } else {
      assert Covers(rects[last], y, x);
    }
  }

  lemma NotCoveredAgain(rects: seq<Rect>, rows: nat, cols: nat, y: int, x: int)
    requires Packing(rects, rows, cols) && rects != [] && (y, x) in Union(rects[..|rects|-1])
    ensures !Covers(rects[|rects|-1], y, x)
  {
    InUnion(rects[..|rects|-1], y, x);
    var j :| 0 <= j < |rects| - 1 && Covers(rects[..|rects|-1][j], y, x);
    assert !Overlap(rects[j], rects[|rects|-1]);
  }

  /** Cells of a packing cover as many squares as their areas add up to. */
  lemma {:induction false} UnionSize(rects: seq<Rect>, rows: nat, cols: nat)
    requires Packing(rects, rows, cols)
    ensures |Union(rects)| == TotalArea(rects) && Union(rects) <= Block(0, 0, rows, cols)
  {
    if rects != [] {
      var last := |rects| - 1;
      var r := rects[last];
      UnionSize(rects[..last], rows, cols);
      BlockSize(r.row, r.col, r.rowSpan, r.colSpan);
      forall y, x | (y, x) in Union(rects[..last])
        ensures (y, x) !in Squares(r)
      {
        NotCoveredAgain(rects, rows, cols, y, x);
      }
      assert Inside(r, rows, cols);
    }
  }

  /** The areas of the cells of a packing add up to at most the grid. */
  lemma AreasFit(rects: seq<Rect>, rows: nat, cols: nat)
    requires Packing(rects, rows, cols)
    ensures TotalArea(rects) <= rows * cols
  {
    UnionSize(rects, rows, cols);
    SubsetSize(Union(rects), Block(0, 0, rows, cols));
    BlockSize(0, 0, rows, cols);
  }

  /** A cell is inside the grid exactly when it covers a square and only squares of the grid. */
  lemma InsideIsCovering(r: Rect, rows: int, cols: int)
    ensures Inside(r, rows, cols) <==>
              && (exists y, x :: Covers(r, y, x))
              && (forall y, x :: Covers(r, y, x) ==> 0 <= y < rows && 0 <= x < cols)
  {
    if Inside(r, rows, cols) { assert Covers(r, r.row, r.col); }
    if (exists y, x :: Covers(r, y, x)) && (forall y, x :: Covers(r, y, x) ==> 0 <= y < rows && 0 <= x < cols) {
      assert Covers(r, r.row, r.col) && Covers(r, r.row + r.rowSpan - 1, r.col + r.colSpan - 1);
    }
  }

  lemma GridLimits(layout: Layout)
    ensures GridOk(layout) <==> 0 < layout.rows < 17 && 0 < layout.cols < 17 && |layout.cells| < 65
  {
  }

  /** Cells keep the ids of their views, and those without one never share one. */
  lemma UnnamedCellsDiffer(layout: Layout, i: nat, j: nat)
    requires i < |layout.cells| && j < |layout.cells|
    ensures layout.cells[i].viewId.Some? ==> Some(CellId(layout, i)) == layout.cells[i].viewId
    ensures layout.cells[i].viewId.None? ==> "cell-" <= CellId(layout, i)
    ensures layout.cells[i].viewId.None? && layout.cells[j].viewId.None? && i != j ==>
              CellId(layout, i) != CellId(layout, j)
  {
    if i != j { DecimalsDiffer(i, j); }
    assert ("cell-" + Decimal(i))[5..] == Decimal(i) && ("cell-" + Decimal(j))[5..] == Decimal(j);
  }

  lemma {:induction false} DecimalsDiffer(m: nat, n: nat)
    requires m != n
    ensures Decimal(m) != Decimal(n) && Decimal(m) != "" && Decimal(n) != ""
  {
    if m >= 10 && n >= 10 {
      assert m / 10 != n / 10 || m % 10 != n % 10;
      assert Decimal(m)[..|Decimal(m)|-1] == Decimal(m / 10) && Decimal(n)[..|Decimal(n)|-1] == Decimal(n / 10);
      if m / 10 != n / 10 { DecimalsDiffer(m / 10, n / 10); }
    } else {
      DecimalNotEmpty(m);
      DecimalNotEmpty(n);
    }
  }

  lemma {:induction false} DecimalNotEmpty(n: nat)
    ensures Decimal(n) != "" && (n >= 10 ==> |Decimal(n)| >= 2)
  {
    if n >= 10 { DecimalNotEmpty(n / 10); }
  }

  /** So an accepted layout never claims more squares than it has, and no edge of a cell overflows a u32. */
  lemma AcceptedLayoutFits(layout: Layout)
    requires Valid(layout)
    ensures TotalArea(Rects(layout.cells)) <= layout.rows * layout.cols
    ensures forall i | 0 <= i < |layout.cells| ::
              && layout.cells[i].rect.row + layout.cells[i].rect.rowSpan < 0x1_0000_0000
              && layout.cells[i].rect.col + layout.cells[i].rect.colSpan < 0x1_0000_0000
  {
    AreasFit(Rects(layout.cells), layout.rows, layout.cols);
    assert forall i | 0 <= i < |layout.cells| :: Inside(Rects(layout.cells)[i], layout.rows, layout.cols);
  }

  /** Sharing a square is the same as intersecting in both directions. */
  lemma OverlapIsIntersection(a: Rect, b: Rect)
    requires a.rowSpan > 0 && a.colSpan > 0 && b.rowSpan > 0 && b.colSpan > 0
    ensures Overlap(a, b) <==>
              && a.row < b.row + b.rowSpan && b.row < a.row + a.rowSpan
              && a.col < b.col + b.colSpan && b.col < a.col + a.colSpan
  {
    var y := if a.row < b.row then b.row else a.row;
    var x := if a.col < b.col then b.col else a.col;
    if a.row < b.row + b.rowSpan && b.row < a.row + a.rowSpan && a.col < b.col + b.colSpan
        && b.col < a.col + a.colSpan {
      assert Covers(a, y, x) && Covers(b, y, x);
    }
  }
}
