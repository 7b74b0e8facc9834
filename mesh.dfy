/**
  The wire-frame renderer. Each frame walks the grid row by row and, for each
  cell, draws a line to its right neighbour, a line to the neighbour below,
  and a dot when the cell's pixel lies inside the window. The drawing calls
  are modelled as the list of primitives they would draw, in order.
*/
module Mesh {
  import opened Numbers
  import opened HeightGrid
  import opened HeightColour
  import opened CameraState
  import opened Projection

  /** One drawing call: a 2-pixel line or a radius-4 dot. */
  datatype Primitive =
    | Line(from: ScreenPoint, to: ScreenPoint, colour: Rgb)
    | Dot(at: ScreenPoint, colour: Rgb)

  /** The column count is read from the first row only. */
  function Cols(h: Grid): nat {
    if |h| == 0 then 0 else |h[0]|
  }

  /**
    Every row is at least as long as the first, so every cell the walk visits
    (and its right and lower neighbours) exists. Longer rows are allowed:
    their extra cells are never drawn, though they still count toward the
    height range.
  */
  predicate Drawable(h: Grid) {
    forall r :: 0 <= r < |h| ==> |h[r]| >= Cols(h)
  }

  /** Drawable grids with at least one column have no empty row. */
  lemma DrawableRowsNonEmpty(h: Grid)
    requires Drawable(h) && Cols(h) > 0
    ensures NoEmptyRow(h)
  {
    forall r | 0 <= r < |h|
      ensures h[r] != []
    {
      assert |h[r]| >= Cols(h);
    }
  }

  function RowMax(row: seq<int>): (m: int)
    requires |row| > 0
    ensures forall i :: 0 <= i < |row| ==> row[i] <= m
    ensures exists i :: 0 <= i < |row| && row[i] == m
  {
    if |row| == 1 then row[0]
    else
      var rest := RowMax(row[1..]);
      assert forall i :: 1 <= i < |row| ==> row[i] == row[1..][i - 1];
      Max(row[0], rest)
  }

  function RowMin(row: seq<int>): (m: int)
    requires |row| > 0
    ensures forall i :: 0 <= i < |row| ==> m <= row[i]
    ensures exists i :: 0 <= i < |row| && row[i] == m
  {
    if |row| == 1 then row[0]
    else
      var rest := RowMin(row[1..]);
      assert forall i :: 1 <= i < |row| ==> row[i] == row[1..][i - 1];
      Min(row[0], rest)
  }

  /** The largest height anywhere in the grid, longer rows' extra cells included. */
  function GridMax(h: Grid): (m: int)
    requires |h| > 0 && NoEmptyRow(h)
    ensures forall r, i :: 0 <= r < |h| && 0 <= i < |h[r]| ==> h[r][i] <= m
    ensures exists r :: 0 <= r < |h| && RowMax(h[r]) == m
  {
    if |h| == 1 then RowMax(h[0])
    else
      var rest := GridMax(h[1..]);
      assert forall r :: 1 <= r < |h| ==> h[r] == h[1..][r - 1];
      Max(RowMax(h[0]), rest)
  }

  /** The smallest height anywhere in the grid. */
  function GridMin(h: Grid): (m: int)
    requires |h| > 0 && NoEmptyRow(h)
    ensures forall r, i :: 0 <= r < |h| && 0 <= i < |h[r]| ==> m <= h[r][i]
    ensures exists r :: 0 <= r < |h| && RowMin(h[r]) == m
  {
    if |h| == 1 then RowMin(h[0])
    else
      var rest := GridMin(h[1..]);
      assert forall r :: 1 <= r < |h| ==> h[r] == h[1..][r - 1];
      Min(RowMin(h[0]), rest)
  }

  /** A cell of the walk: a row below |h| and a column below the first row's length. */
  predicate InWalk(h: Grid, r: int, c: int) {
    0 <= r < |h| && 0 <= c < Cols(h)
  }

  /** The pixel of cell (r, c): the grid is centred on cell (rows // 2, cols // 2). */
  function CellPoint(h: Grid, r: int, c: int, cam: Camera, trig: Trig): (p: ScreenPoint)
    requires Drawable(h) && InWalk(h, r, c)
    ensures r == |h| / 2 && c == Cols(h) / 2 && h[r][c] == 0 ==>
      p == ScreenPoint(WindowWidth / 2 + cam.offsetX, WindowHeight / 2 + cam.offsetY)
  {
    ProjectOrigin(cam, trig);
    Project(c - Cols(h) / 2, r - |h| / 2, h[r][c], cam, trig)
  }

  /** The colour of cell (r, c), scaled against the whole grid's height range. */
  function CellRgb(h: Grid, r: int, c: int): (colour: Rgb)
    requires Drawable(h) && InWalk(h, r, c)
    ensures InGamut(colour)
  {
    DrawableRowsNonEmpty(h);
    CellColour(h[r][c], GridMin(h), GridMax(h))
  }

  /**
    Where each cell of a frame is drawn and in what colour. The walk consults
    nothing else, so its shape is stated once for any painter and then applied
    to the viewer's own (Paint below).
  */
  datatype Painter = Painter(at: (int, int) -> ScreenPoint, colour: (int, int) -> Rgb)

  /** The viewer's painter: the projected pixel and the height colour of each cell of the walk. */
  function Paint(h: Grid, cam: Camera, trig: Trig): Painter
    requires Drawable(h)
  {
    Painter(
      (r: int, c: int) => if InWalk(h, r, c) then CellPoint(h, r, c, cam, trig) else ScreenPoint(0, 0),
      (r: int, c: int) => if InWalk(h, r, c) then CellRgb(h, r, c) else Rgb(50, 50, 50))
  }

  /**
    What the walk draws for cell (r, c) of a rows x cols walk, in the source's
    order: the line to the right neighbour, the line to the neighbour below,
    then the dot, which is culled outside the window.
  */
  function CellPrims(rows: int, cols: int, r: int, c: int, pt: Painter): (prims: seq<Primitive>)
    ensures |prims| <= 3
    ensures forall q :: q in prims ==> q.colour == pt.colour(r, c)
    ensures 0 <= r < rows && 0 <= c < cols && (r < rows - 1 || c < cols - 1) ==> prims != [] && prims[0].Line?
  {
    var p, colour := pt.at(r, c), pt.colour(r, c);
    (if c < cols - 1 then [Line(p, pt.at(r, c + 1), colour)] else [])
    + (if r < rows - 1 then [Line(p, pt.at(r + 1, c), colour)] else [])
    + (if OnScreen(p) then [Dot(p, colour)] else [])
  }

  /** The viewer's drawing of each cell, as a function of the cell. */
  function Cells(rows: int, cols: int, pt: Painter): (int, int) -> seq<Primitive> {
    (r: int, c: int) => CellPrims(rows, cols, r, c, pt)
  }

  /** The drawings of cells (r, 0) .. (r, c - 1), in order. */
  function RowPrims(cells: (int, int) -> seq<Primitive>, r: int, c: nat): seq<Primitive> {
    if c == 0 then [] else RowPrims(cells, r, c - 1) + cells(r, c - 1)
  }

  /** The drawings of rows 0 .. r - 1 of a walk with cols columns, row-major. */
  function GridPrims(cells: (int, int) -> seq<Primitive>, cols: nat, r: nat): seq<Primitive> {
    if r == 0 then [] else GridPrims(cells, cols, r - 1) + RowPrims(cells, r - 1, cols)
  }

  /** The walk draws something as soon as its first cell does. */
  lemma {:induction false} GridPrimsStart(cells: (int, int) -> seq<Primitive>, cols: nat, r: nat)
    requires cols > 0 && r > 0 && cells(0, 0) != []
    ensures GridPrims(cells, cols, r) != []
  {
    if r == 1 {
      RowPrimsStart(cells, cols);
    } else {
      GridPrimsStart(cells, cols, r - 1);
    }
  }

  lemma {:induction false} RowPrimsStart(cells: (int, int) -> seq<Primitive>, c: nat)
    requires c > 0 && cells(0, 0) != []
    ensures RowPrims(cells, 0, c) != []
  {
    if c > 1 {
      RowPrimsStart(cells, c - 1);
    }
  }

  /**
    Everything one frame draws: nothing for an empty grid or an empty first
    row, and something for every grid of at least two cells, whose first
    cell always has a neighbour to join.
   */
  function Surface(h: Grid, cam: Camera, trig: Trig): (prims: seq<Primitive>)
    requires Drawable(h)
    ensures |h| == 0 || Cols(h) == 0 ==> prims == []
    ensures |h| > 0 && Cols(h) > 0 && (|h| > 1 || Cols(h) > 1) ==> prims != []
  {
    if |h| == 0 || Cols(h) == 0 then []
    else
      var cells := Cells(|h|, Cols(h), Paint(h, cam, trig));
      if |h| > 1 || Cols(h) > 1 then
        assert cells(0, 0) == CellPrims(|h|, Cols(h), 0, 0, Paint(h, cam, trig));
        GridPrimsStart(cells, Cols(h), |h|);
        GridPrims(cells, Cols(h), |h|)
      else GridPrims(cells, Cols(h), |h|)
  }

  /** The body of the walk for cell (row, col): up to two lines and a dot. */
  method DrawCell(rows: int, cols: int, row: int, col: int, pt: Painter) returns (cell: seq<Primitive>)
    ensures cell == CellPrims(rows, cols, row, col, pt)
  {
    var colour := pt.colour(row, col);
    var p := pt.at(row, col);
    cell := [];
    if col < cols - 1 {
      var q := pt.at(row, col + 1);
      cell := cell + [Line(p, q, colour)];
    }
    if row < rows - 1 {
      var q := pt.at(row + 1, col);
      cell := cell + [Line(p, q, colour)];
    }
    if 0 <= p.x < WindowWidth && 0 <= p.y < WindowHeight {
      cell := cell + [Dot(p, colour)];
    }
  }

  /** The frame's drawing pass, emitting primitives where the viewer calls the drawing library. */
  method DrawSurface(h: Grid, cam: Camera, trig: Trig) returns (prims: seq<Primitive>)
    requires Drawable(h)
    ensures prims == Surface(h, cam, trig)
  {
    prims := [];
    if |h| == 0 {
      return;
    }
    var rows := |h|;
    var cols := |h[0]|;
    if cols == 0 {
      return;
    }
    var pt := Paint(h, cam, trig);
    prims := DrawWalk(rows, cols, pt, Cells(rows, cols, pt));
  }

  /** The inner loop of the walk: the cells of one row, left to right. */
  method DrawRow(rows: nat, cols: nat, row: int, pt: Painter, ghost cells: (int, int) -> seq<Primitive>)
    returns (prims: seq<Primitive>)
    requires forall r, c :: cells(r, c) == CellPrims(rows, cols, r, c, pt)
    ensures prims == RowPrims(cells, row, cols)
  {
    prims := [];
    for col := 0 to cols
      invariant prims == RowPrims(cells, row, col)
    {
      var cell := DrawCell(rows, cols, row, col, pt);
      prims := prims + cell;
    }
  }

  /** The outer loop of the walk: the rows of a rows x cols grid, top to bottom. */
  method DrawWalk(rows: nat, cols: nat, pt: Painter, ghost cells: (int, int) -> seq<Primitive>)
    returns (prims: seq<Primitive>)
    requires forall r, c :: cells(r, c) == CellPrims(rows, cols, r, c, pt)
    ensures prims == GridPrims(cells, cols, rows)
  {
    prims := [];
    for row := 0 to rows
      invariant prims == GridPrims(cells, cols, row)
    {
      var line := DrawRow(rows, cols, row, pt, cells);
      prims := prims + line;
    }
  }

  /** The cell (r, c) as the viewer's painter sees it. */
  lemma PaintCell(h: Grid, cam: Camera, trig: Trig, r: int, c: int)
    requires Drawable(h) && InWalk(h, r, c)
    ensures Paint(h, cam, trig).at(r, c) == CellPoint(h, r, c, cam, trig)
    ensures Paint(h, cam, trig).colour(r, c) == CellRgb(h, r, c)
  {
  }

  /** The number of lines among the primitives. */
  function LineCount(ps: seq<Primitive>): nat {
    if ps == [] then 0 else LineCount(ps[..|ps| - 1]) + (if ps[|ps| - 1].Line? then 1 else 0)
  }

  lemma {:induction false} LineCountAppend(a: seq<Primitive>, b: seq<Primitive>)
    ensures LineCount(a + b) == LineCount(a) + LineCount(b)
    decreases |b|
  {
    if b == [] {
      assert a + b == a;
    } else {
      assert (a + b)[..|a + b| - 1] == a + b[..|b| - 1];
      LineCountAppend(a, b[..|b| - 1]);
    }
  }

  /** A cell draws its right line unless it ends its row, and its lower line unless it is in the last row. */
  lemma CellLineCount(rows: int, cols: int, r: int, c: int, pt: Painter)
    ensures LineCount(CellPrims(rows, cols, r, c, pt))
      == (if c < cols - 1 then 1 else 0) + (if r < rows - 1 then 1 else 0)
  {
    var p, colour := pt.at(r, c), pt.colour(r, c);
    var right: seq<Primitive> := if c < cols - 1 then [Line(p, pt.at(r, c + 1), colour)] else [];
    var down: seq<Primitive> := if r < rows - 1 then [Line(p, pt.at(r + 1, c), colour)] else [];
    var dot: seq<Primitive> := if OnScreen(p) then [Dot(p, colour)] else [];
    LineCountAppend(right, down);
    LineCountAppend(right + down, dot);
    assert LineCount(dot) == 0 by {
      if dot != [] {
        assert dot[..0] == [];
      }
    }
  }

  /** A count over primitive sequences that adds up over concatenation, as LineCount does. */
  ghost predicate Additive(count: seq<Primitive> -> nat) {
    && count([]) == 0
    && forall a, b :: count(a + b) == count(a) + count(b)
  }

  /** The lines cell (i, j) draws in an R x C walk: one right unless j ends the row, one down unless i is the last row. */
  ghost predicate CountsCellLines(rows: int, cols: int, cells: (int, int) -> seq<Primitive>, count: seq<Primitive> -> nat) {
    forall i, j :: count(cells(i, j)) == (if j < cols - 1 then 1 else 0) + (if i < rows - 1 then 1 else 0)
  }

  lemma {:induction false} RowLineCount(rows: int, cols: int, cells: (int, int) -> seq<Primitive>, count: seq<Primitive> -> nat, r: int, c: nat)
    requires Additive(count) && CountsCellLines(rows, cols, cells, count)
    requires 0 < cols && c <= cols
    ensures count(RowPrims(cells, r, c))
      == (if c == cols then c - 1 else c) + (if r < rows - 1 then c else 0)
  {
    if c > 0 {
      RowLineCount(rows, cols, cells, count, r, c - 1);
      assert count(RowPrims(cells, r, c - 1) + cells(r, c - 1))
        == count(RowPrims(cells, r, c - 1)) + count(cells(r, c - 1));
    }
  }

  /** k added up r times, kept free of multiplication for the counting proofs. */
  function Times(r: nat, k: int): int {
    if r == 0 then 0 else Times(r - 1, k) + k
  }

  lemma {:induction false} TimesIsProduct(r: nat, k: int)
    ensures Times(r, k) == r * k
  {
    if r > 0 {
      TimesIsProduct(r - 1, k);
      assert (r - 1) * k + k == r * k;
    }
  }

  lemma {:induction false} GridLineCount(rows: int, cols: nat, cells: (int, int) -> seq<Primitive>, count: seq<Primitive> -> nat, r: nat)
    requires Additive(count)
    requires forall i :: 0 <= i < rows ==>
      count(RowPrims(cells, i, cols)) == 2 * cols - 1 - (if i == rows - 1 then cols else 0)
    requires 0 < cols && 0 < rows && r <= rows
    ensures count(GridPrims(cells, cols, r)) == Times(r, 2 * cols - 1) - (if r == rows then cols else 0)
  {
    if r > 0 {
      var above, last := GridPrims(cells, cols, r - 1), RowPrims(cells, r - 1, cols);
      GridLineCount(rows, cols, cells, count, r - 1);
      assert count(above + last) == count(above) + count(last);
    }
  }

  /** The viewer's cell drawings are CellPrims, cell by cell. */
  lemma CellsAre(rows: int, cols: int, pt: Painter)
    ensures forall r, c :: Cells(rows, cols, pt)(r, c) == CellPrims(rows, cols, r, c, pt)
  {
  }

  /** LineCount adds up over concatenation. */
  lemma LineCountAdditive()
    ensures Additive(LineCount)
  {
    var count: seq<Primitive> -> nat := LineCount;
    forall a, b
      ensures count(a + b) == count(a) + count(b)
    {
      LineCountAppend(a, b);
    }
    assert count([]) == 0;
  }

  /** In the viewer's walk, LineCount counts each cell's lines as CountsCellLines says. */
  lemma ViewerCellLines(rows: int, cols: int, pt: Painter)
    ensures CountsCellLines(rows, cols, Cells(rows, cols, pt), LineCount)
  {
    CellsAre(rows, cols, pt);
    forall i, j
      ensures LineCount(Cells(rows, cols, pt)(i, j)) == (if j < cols - 1 then 1 else 0) + (if i < rows - 1 then 1 else 0)
    {
      CellLineCount(rows, cols, i, j, pt);
    }
  }

  /**
    A frame of an R x C grid draws exactly R(C - 1) horizontal and (R - 1)C
    vertical lines; an empty grid or an empty first row draws nothing at all.
  */
  lemma SurfaceLineCount(h: Grid, cam: Camera, trig: Trig)
    requires Drawable(h)
    ensures |h| == 0 || Cols(h) == 0 ==> Surface(h, cam, trig) == []
    ensures |h| > 0 && Cols(h) > 0 ==>
      LineCount(Surface(h, cam, trig)) == |h| * (Cols(h) - 1) + (|h| - 1) * Cols(h)
  {
    if |h| > 0 && Cols(h) > 0 {
      WalkLineCount(|h|, Cols(h), Paint(h, cam, trig));
    }
  }

  /** The walk over an R x C grid draws R(C - 1) + (R - 1)C lines, whatever the cells' pixels and colours. */
  lemma WalkLineCount(rows: nat, cols: nat, pt: Painter)
    requires 0 < rows && 0 < cols
    ensures LineCount(GridPrims(Cells(rows, cols, pt), cols, rows)) == rows * (cols - 1) + (rows - 1) * cols
  {
    var cells := Cells(rows, cols, pt);
    LineCountAdditive();
    ViewerCellLines(rows, cols, pt);
    RowsLineCount(rows, cols, cells, LineCount);
    GridLineCount(rows, cols, cells, LineCount, rows);
    TimesIsProduct(rows, 2 * cols - 1);
    LineTotal(rows, cols);
  }

  lemma LineTotal(rows: int, cols: int)
    ensures rows * (2 * cols - 1) - cols == rows * (cols - 1) + (rows - 1) * cols
  {
  }

  lemma RowsLineCount(rows: int, cols: nat, cells: (int, int) -> seq<Primitive>, count: seq<Primitive> -> nat)
    requires Additive(count) && CountsCellLines(rows, cols, cells, count) && 0 < cols
    ensures forall i :: 0 <= i < rows ==>
      count(RowPrims(cells, i, cols)) == 2 * cols - 1 - (if i == rows - 1 then cols else 0)
  {
    forall i | 0 <= i < rows
      ensures count(RowPrims(cells, i, cols)) == 2 * cols - 1 - (if i == rows - 1 then cols else 0)
    {
      RowLineCount(rows, cols, cells, count, i, cols);
    }
  }

  /** Every primitive of a row comes from one of its cells: the column j of that cell. */
  lemma {:induction false} RowMember(cells: (int, int) -> seq<Primitive>, r: int, c: nat, q: Primitive)
    returns (j: int)
    requires q in RowPrims(cells, r, c)
    ensures 0 <= j < c && q in cells(r, j)
    decreases c
  {
    assert RowPrims(cells, r, c) == RowPrims(cells, r, c - 1) + cells(r, c - 1);
    if q in cells(r, c - 1) {
      j := c - 1;
    } else {
      j := RowMember(cells, r, c - 1, q);
    }
  }

  /** Every primitive of the walk comes from one of its cells: the cell (i, j). */
  lemma {:induction false} GridMember(cells: (int, int) -> seq<Primitive>, cols: nat, r: nat, q: Primitive)
    returns (i: int, j: int)
    requires q in GridPrims(cells, cols, r)
    ensures 0 <= i < r && 0 <= j < cols && q in cells(i, j)
    decreases r
  {
    var earlier, last := GridPrims(cells, cols, r - 1), RowPrims(cells, r - 1, cols);
    assert q in earlier + last;
    if q in last {
      i := r - 1;
      j := RowMember(cells, r - 1, cols, q);
    } else {
      i, j := GridMember(cells, cols, r - 1, q);
    }
  }

  /** Every primitive of a cell the row has passed is in the row's output. */
  lemma {:induction false} RowHasCell(cells: (int, int) -> seq<Primitive>, r: int, c: nat, j: int, q: Primitive)
    requires 0 <= j < c && q in cells(r, j)
    ensures q in RowPrims(cells, r, c)
  {
    if j < c - 1 {
      RowHasCell(cells, r, c - 1, j, q);
    }
  }

  /** Every primitive of a cell the walk has passed is in the walk's output. */
  lemma {:induction false} GridHasCell(cells: (int, int) -> seq<Primitive>, cols: nat, r: nat, i: int, j: int, q: Primitive)
    requires 0 <= i < r && 0 <= j < cols && q in cells(i, j)
    ensures q in GridPrims(cells, cols, r)
  {
    var earlier, last := GridPrims(cells, cols, r - 1), RowPrims(cells, r - 1, cols);
    assert GridPrims(cells, cols, r) == earlier + last;
    if i < r - 1 {
      GridHasCell(cells, cols, r - 1, i, j, q);
      assert q in earlier;
    } else {
      RowHasCell(cells, i, cols, j, q);
      assert q in last;
    }
  }

  /** Every primitive of the frame comes from a cell of the walk. */
  lemma SurfaceMember(h: Grid, cam: Camera, trig: Trig, q: Primitive)
    requires Drawable(h) && q in Surface(h, cam, trig)
    ensures exists r, c :: InWalk(h, r, c) && q in CellPrims(|h|, Cols(h), r, c, Paint(h, cam, trig))
  {
    var pt := Paint(h, cam, trig);
    CellsAre(|h|, Cols(h), pt);
    var r, c := GridMember(Cells(|h|, Cols(h), pt), Cols(h), |h|, q);
    assert InWalk(h, r, c);
  }

  /** Everything a cell of the walk draws is in the frame. */
  lemma SurfaceHasCell(h: Grid, cam: Camera, trig: Trig, r: int, c: int, q: Primitive)
    requires Drawable(h) && InWalk(h, r, c) && q in CellPrims(|h|, Cols(h), r, c, Paint(h, cam, trig))
    ensures q in Surface(h, cam, trig)
  {
    var pt := Paint(h, cam, trig);
    CellsAre(|h|, Cols(h), pt);
    GridHasCell(Cells(|h|, Cols(h), pt), Cols(h), |h|, r, c, q);
  }

  /** Within a cell: its right and lower lines, when it has those neighbours, in the cell's colour. */
  lemma CellHasLines(rows: int, cols: int, r: int, c: int, pt: Painter)
    ensures c < cols - 1 ==> Line(pt.at(r, c), pt.at(r, c + 1), pt.colour(r, c)) in CellPrims(rows, cols, r, c, pt)
    ensures r < rows - 1 ==> Line(pt.at(r, c), pt.at(r + 1, c), pt.colour(r, c)) in CellPrims(rows, cols, r, c, pt)
  {
  }

  /** Within a cell: every line leaves the cell for its right or lower neighbour, in the cell's colour. */
  lemma CellLinesFromCell(rows: int, cols: int, r: int, c: int, pt: Painter, q: Primitive)
    requires q in CellPrims(rows, cols, r, c, pt) && q.Line?
    ensures q.from == pt.at(r, c) && q.colour == pt.colour(r, c)
    ensures (c < cols - 1 && q.to == pt.at(r, c + 1)) || (r < rows - 1 && q.to == pt.at(r + 1, c))
  {
  }

  /** Within a cell: its dot is drawn exactly when its pixel is inside the window, and nothing else is a dot. */
  lemma CellDot(rows: int, cols: int, r: int, c: int, pt: Painter, q: Primitive)
    requires q in CellPrims(rows, cols, r, c, pt) && q.Dot?
    ensures q == Dot(pt.at(r, c), pt.colour(r, c)) && OnScreen(q.at)
  {
  }

  lemma CellDotDrawn(rows: int, cols: int, r: int, c: int, pt: Painter)
    ensures OnScreen(pt.at(r, c)) ==> Dot(pt.at(r, c), pt.colour(r, c)) in CellPrims(rows, cols, r, c, pt)
  {
  }

  /**
    Lines are never culled: every cell draws its right line unless it ends
    the row, and its lower line unless it is in the last row, in its own colour.
  */
  lemma LinesNeverCulled(h: Grid, cam: Camera, trig: Trig, r: int, c: int)
    requires Drawable(h) && InWalk(h, r, c)
    ensures c < Cols(h) - 1 ==>
      Line(CellPoint(h, r, c, cam, trig), CellPoint(h, r, c + 1, cam, trig), CellRgb(h, r, c)) in Surface(h, cam, trig)
    ensures r < |h| - 1 ==>
      Line(CellPoint(h, r, c, cam, trig), CellPoint(h, r + 1, c, cam, trig), CellRgb(h, r, c)) in Surface(h, cam, trig)
  {
    var pt := Paint(h, cam, trig);
    CellHasLines(|h|, Cols(h), r, c, pt);
    PaintCell(h, cam, trig, r, c);
    if c < Cols(h) - 1 {
      PaintCell(h, cam, trig, r, c + 1);
      SurfaceHasCell(h, cam, trig, r, c, Line(pt.at(r, c), pt.at(r, c + 1), pt.colour(r, c)));
    }
    if r < |h| - 1 {
      PaintCell(h, cam, trig, r + 1, c);
      SurfaceHasCell(h, cam, trig, r, c, Line(pt.at(r, c), pt.at(r + 1, c), pt.colour(r, c)));
    }
  }

  /**
    Every line starts at a cell of the walk, ends at its right or lower
    neighbour, and has that cell's colour.
  */
  lemma LineFromCell(h: Grid, cam: Camera, trig: Trig, q: Primitive)
    requires Drawable(h) && q in Surface(h, cam, trig) && q.Line?
    ensures exists r, c ::
      && InWalk(h, r, c) && q.from == CellPoint(h, r, c, cam, trig) && q.colour == CellRgb(h, r, c)
      && ((c < Cols(h) - 1 && q.to == CellPoint(h, r, c + 1, cam, trig))
          || (r < |h| - 1 && q.to == CellPoint(h, r + 1, c, cam, trig)))
  {
    var pt := Paint(h, cam, trig);
    SurfaceMember(h, cam, trig, q);
    var r, c :| InWalk(h, r, c) && q in CellPrims(|h|, Cols(h), r, c, pt);
    CellLinesFromCell(|h|, Cols(h), r, c, pt, q);
    PaintCell(h, cam, trig, r, c);
    if c < Cols(h) - 1 {
      PaintCell(h, cam, trig, r, c + 1);
    }
    if r < |h| - 1 {
      PaintCell(h, cam, trig, r + 1, c);
    }
  }

  /** A dot is drawn for a cell exactly when the cell's pixel lies inside the window. */
  lemma DotIffOnScreen(h: Grid, cam: Camera, trig: Trig, r: int, c: int)
    requires Drawable(h) && InWalk(h, r, c)
    ensures Dot(CellPoint(h, r, c, cam, trig), CellRgb(h, r, c)) in Surface(h, cam, trig)
      <==> OnScreen(CellPoint(h, r, c, cam, trig))
  {
    var pt := Paint(h, cam, trig);
    var dot := Dot(CellPoint(h, r, c, cam, trig), CellRgb(h, r, c));
    PaintCell(h, cam, trig, r, c);
    CellDotDrawn(|h|, Cols(h), r, c, pt);
    if OnScreen(dot.at) {
      SurfaceHasCell(h, cam, trig, r, c, dot);
    }
    if dot in Surface(h, cam, trig) {
      SurfaceMember(h, cam, trig, dot);
      var i, j :| InWalk(h, i, j) && dot in CellPrims(|h|, Cols(h), i, j, pt);
      CellDot(|h|, Cols(h), i, j, pt, dot);
    }
  }

  /** On a flat grid the lowest and the highest height are both the common height. */
  lemma FlatGridRange(h: Grid, v: int)
    requires |h| > 0 && NoEmptyRow(h)
    requires forall r, i :: 0 <= r < |h| && 0 <= i < |h[r]| ==> h[r][i] == v
    ensures GridMin(h) == v && GridMax(h) == v
  {
    var hi := GridMax(h);
    var lo := GridMin(h);
    var ri :| 0 <= ri < |h| && RowMax(h[ri]) == hi;
    var ci :| 0 <= ci < |h[ri]| && h[ri][ci] == hi;
    var rj :| 0 <= rj < |h| && RowMin(h[rj]) == lo;
    var cj :| 0 <= cj < |h[rj]| && h[rj][cj] == lo;
  }

  /** On a flat grid every line and dot is drawn in (50, 100, 255). */
  lemma FlatGridOneColour(h: Grid, cam: Camera, trig: Trig, v: int, q: Primitive)
    requires Drawable(h) && forall r, i :: 0 <= r < |h| && 0 <= i < |h[r]| ==> h[r][i] == v
    requires q in Surface(h, cam, trig)
    ensures q.colour == Rgb(50, 100, 255)
  {
    var pt := Paint(h, cam, trig);
    SurfaceMember(h, cam, trig, q);
    var r, c :| InWalk(h, r, c) && q in CellPrims(|h|, Cols(h), r, c, pt);
    PaintCell(h, cam, trig, r, c);
    DrawableRowsNonEmpty(h);
    FlatGridRange(h, v);
  }
}
