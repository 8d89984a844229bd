/**
 * The placement engine: a W x H occupancy matrix, placement validation,
 * atomic placement, two-phase line clearing and the reachability search that
 * decides game over.
 *
 * Cells are addressed as cells[x][y], with x the column and y the row.
 */
module Grid {
  import opened Wrappers
  import opened Seqs
  import opened Pieces

  const DefaultWidth: nat := 8
  const DefaultHeight: nat := 8

  datatype Board = Board(width: nat, height: nat, cells: seq<seq<bool>>) {

    /** The matrix has `width` columns of `height` cells each. */
    predicate Valid() {
      |cells| == width && forall x :: 0 <= x < width ==> |cells[x]| == height
    }

    predicate InBounds(x: int, y: int) {
      0 <= x < width && 0 <= y < height
    }

    /** Same dimensions as `other`. */
    predicate SameShape(other: Board) {
      width == other.width && height == other.height
    }
  }

  /** A fresh grid of the given size with every cell empty. */
  function InitializeGrid(w: nat, h: nat): (b: Board)
    ensures b.Valid() && b.width == w && b.height == h
    ensures forall x, y :: b.InBounds(x, y) ==> !b.cells[x][y]
  {
    Board(w, h, seq(w, _ => seq(h, _ => false)))
  }

  /** The cell an offset lands on when the piece is anchored at `a`. */
  function Target(a: Vec, o: Vec): Vec {
    Vec(a.x + o.x, a.y + o.y)
  }

  /** The cell exists and is empty. */
  predicate Free(b: Board, c: Vec)
    requires b.Valid()
  {
    b.InBounds(c.x, c.y) && !b.cells[c.x][c.y]
  }

  /** Some offset, anchored at `a`, lands on (x, y). */
  predicate Covers(offs: seq<Vec>, a: Vec, x: int, y: int) {
    exists i :: 0 <= i < |offs| && Target(a, offs[i]) == Vec(x, y)
  }

  /** Writes one cell and nothing else. */
  function SetCell(b: Board, x: int, y: int, v: bool): (r: Board)
    requires b.Valid() && b.InBounds(x, y)
    ensures r.Valid() && r.SameShape(b)
    ensures r.cells[x][y] == v
    ensures forall i, j :: r.InBounds(i, j) && (i != x || j != y) ==> r.cells[i][j] == b.cells[i][j]
  {
    b.(cells := b.cells[x := b.cells[x][y := v]])
  }

  // ---------------------------------------------------------------------------
  // Validation

  /** Scans the offsets in order, stopping at the first one off the grid or on an occupied cell. */
  function OffsetsFree(b: Board, offs: seq<Vec>, a: Vec): (r: bool)
    requires b.Valid()
    ensures r <==> forall i :: 0 <= i < |offs| ==> Free(b, Target(a, offs[i]))
  {
    if |offs| == 0 then true
    else
      var c := Target(a, offs[0]);
      if !b.InBounds(c.x, c.y) then false
      else if b.cells[c.x][c.y] then false
      else
        var rest := OffsetsFree(b, offs[1..], a);
        assert forall i :: 1 <= i < |offs| ==> offs[i] == offs[1..][i - 1];
        rest
  }

  /**
   * Whether `p` can be placed with its anchor on `a`: the piece is not null and
   * every offset lands on an empty cell of the grid. A piece with no offsets
   * is accepted, since there is nothing to check.
   */
  function CanPlacePiece(b: Board, p: Option<PieceData>, a: Vec): (r: bool)
    requires b.Valid()
    ensures r <==> p.Some? && forall i :: 0 <= i < |p.value.offsets| ==> Free(b, Target(a, p.value.offsets[i]))
    ensures p.Some? && |p.value.offsets| == 0 ==> r
  {
    if p.None? then false else OffsetsFree(b, p.value.offsets, a)
  }

  // ---------------------------------------------------------------------------
  // Placement

  /** Marks the target cell of every offset occupied, in offset order. */
  function MarkCells(b: Board, offs: seq<Vec>, a: Vec): (r: Board)
    requires b.Valid()
    requires forall i :: 0 <= i < |offs| ==> b.InBounds(Target(a, offs[i]).x, Target(a, offs[i]).y)
    decreases |offs|
    ensures r.Valid() && r.SameShape(b)
    ensures forall x, y :: r.InBounds(x, y) ==> (r.cells[x][y] <==> b.cells[x][y] || Covers(offs, a, x, y))
  {
    if |offs| == 0 then b
    else
      var c := Target(a, offs[0]);
      var b1 := SetCell(b, c.x, c.y, true);
      forall i | 0 <= i < |offs| - 1
        ensures b1.InBounds(Target(a, offs[1..][i]).x, Target(a, offs[1..][i]).y)
      {
        assert offs[1..][i] == offs[i + 1];
        assert b.InBounds(Target(a, offs[i + 1]).x, Target(a, offs[i + 1]).y);
        assert b1.width == b.width && b1.height == b.height;
      }
      var r := MarkCells(b1, offs[1..], a);
      assert forall x, y :: r.InBounds(x, y) && Covers(offs, a, x, y) ==> (x == c.x && y == c.y) || Covers(offs[1..], a, x, y);
      r
  }

  // ---------------------------------------------------------------------------
  // Line detection

  predicate RowFull(b: Board, y: int)
    requires b.Valid() && 0 <= y < b.height
  {
    forall x :: 0 <= x < b.width ==> b.cells[x][y]
  }

  predicate ColFull(b: Board, x: int)
    requires b.Valid() && 0 <= x < b.width
  {
    forall y :: 0 <= y < b.height ==> b.cells[x][y]
  }

  /** The full rows with index y or above, in ascending order. */
  function FullRowsFrom(b: Board, y: nat): (rows: seq<nat>)
    requires b.Valid() && y <= b.height
    decreases b.height - y
    ensures Increasing(rows)
    ensures forall k :: 0 <= k < |rows| ==> y <= rows[k] < b.height && RowFull(b, rows[k])
    ensures forall r :: y <= r < b.height && RowFull(b, r) ==> r in rows
  {
    if y == b.height then []
    else if RowFull(b, y) then [y] + FullRowsFrom(b, y + 1)
    else FullRowsFrom(b, y + 1)
  }

  /** The full columns with index x or above, in ascending order. */
  function FullColsFrom(b: Board, x: nat): (cols: seq<nat>)
    requires b.Valid() && x <= b.width
    decreases b.width - x
    ensures Increasing(cols)
    ensures forall k :: 0 <= k < |cols| ==> x <= cols[k] < b.width && ColFull(b, cols[k])
    ensures forall c :: x <= c < b.width && ColFull(b, c) ==> c in cols
  {
    if x == b.width then []
    else if ColFull(b, x) then [x] + FullColsFrom(b, x + 1)
    else FullColsFrom(b, x + 1)
  }

  ghost function FullRowSet(b: Board): set<int>
    requires b.Valid()
  {
    set y | 0 <= y < b.height && RowFull(b, y)
  }

  ghost function FullColSet(b: Board): set<int>
    requires b.Valid()
  {
    set x | 0 <= x < b.width && ColFull(b, x)
  }

  /** A strictly increasing sequence lists |s| distinct values. */
  lemma {:induction false} IncreasingCard(s: seq<nat>)
    requires Increasing(s)
    ensures |set v: int | v in s| == |s|
  {
    if |s| > 0 {
      IncreasingCard(s[1..]);
      var tail := set v: int | v in s[1..];
      assert (set v: int | v in s) == {s[0] as int} + tail;
      assert s[0] !in s[1..];
    }
  }

  /** The ascending list of full rows has one entry per full row. */
  lemma FullRowsCount(b: Board)
    requires b.Valid()
    ensures |FullRowsFrom(b, 0)| == |FullRowSet(b)|
  {
    var rows := FullRowsFrom(b, 0);
    IncreasingCard(rows);
    assert (set v: int | v in rows) == FullRowSet(b);
  }

  /** The ascending list of full columns has one entry per full column. */
  lemma FullColsCount(b: Board)
    requires b.Valid()
    ensures |FullColsFrom(b, 0)| == |FullColSet(b)|
  {
    var cols := FullColsFrom(b, 0);
    IncreasingCard(cols);
    assert (set v: int | v in cols) == FullColSet(b);
  }

  // ---------------------------------------------------------------------------
  // Clearing

  /** Clears the cells of row y from column x rightwards, one cell at a time. */
  function ClearRow(b: Board, y: nat, x: nat): (r: Board)
    requires b.Valid() && y < b.height && x <= b.width
    decreases b.width - x
    ensures r.Valid() && r.SameShape(b)
    ensures forall i, j :: r.InBounds(i, j) ==> r.cells[i][j] == (if j == y && x <= i then false else b.cells[i][j])
  {
    if x == b.width then b else ClearRow(SetCell(b, x, y, false), y, x + 1)
  }

  /** Clears the cells of column x from row y upwards, one cell at a time. */
  function ClearCol(b: Board, x: nat, y: nat): (r: Board)
    requires b.Valid() && x < b.width && y <= b.height
    decreases b.height - y
    ensures r.Valid() && r.SameShape(b)
    ensures forall i, j :: r.InBounds(i, j) ==> r.cells[i][j] == (if i == x && y <= j then false else b.cells[i][j])
  {
    if y == b.height then b else ClearCol(SetCell(b, x, y, false), x, y + 1)
  }

  /** Clears each listed row in turn. */
  function ClearRows(b: Board, rows: seq<nat>): (r: Board)
    requires b.Valid() && forall k :: 0 <= k < |rows| ==> rows[k] < b.height
    decreases |rows|
    ensures r.Valid() && r.SameShape(b)
    ensures forall i, j :: r.InBounds(i, j) ==> r.cells[i][j] == (if j in rows then false else b.cells[i][j])
  {
    if |rows| == 0 then b
    else
      var r := ClearRows(ClearRow(b, rows[0], 0), rows[1..]);
      assert forall j :: j in rows <==> j == rows[0] || j in rows[1..];
      r
  }

  /** Clears each listed column in turn. */
  function ClearCols(b: Board, cols: seq<nat>): (r: Board)
    requires b.Valid() && forall k :: 0 <= k < |cols| ==> cols[k] < b.width
    decreases |cols|
    ensures r.Valid() && r.SameShape(b)
    ensures forall i, j :: r.InBounds(i, j) ==> r.cells[i][j] == (if i in cols then false else b.cells[i][j])
  {
    if |cols| == 0 then b
    else
      var r := ClearCols(ClearCol(b, cols[0], 0), cols[1..]);
      assert forall i :: i in cols <==> i == cols[0] || i in cols[1..];
      r
  }

  /** Clearing the listed full rows, then the listed full columns, empties exactly the cells of full lines. */
  lemma ClearedCells(b: Board, rows: seq<nat>, cols: seq<nat>)
    requires b.Valid()
    requires forall k :: 0 <= k < |rows| ==> rows[k] < b.height && RowFull(b, rows[k])
    requires forall y :: 0 <= y < b.height && RowFull(b, y) ==> y in rows
    requires forall k :: 0 <= k < |cols| ==> cols[k] < b.width && ColFull(b, cols[k])
    requires forall x :: 0 <= x < b.width && ColFull(b, x) ==> x in cols
    ensures forall x, y :: b.InBounds(x, y) ==>
      ClearCols(ClearRows(b, rows), cols).cells[x][y] == (if RowFull(b, y) || ColFull(b, x) then false else b.cells[x][y])
  {
    var mid := ClearRows(b, rows);
    var cleared := ClearCols(mid, cols);
    forall x, y | b.InBounds(x, y)
      ensures cleared.cells[x][y] == (if RowFull(b, y) || ColFull(b, x) then false else b.cells[x][y])
    {
      assert y in rows <==> RowFull(b, y) by {
        if y in rows {
          var k :| 0 <= k < |rows| && rows[k] == y;
        }
      }
      assert x in cols <==> ColFull(b, x) by {
        if x in cols {
          var k :| 0 <= k < |cols| && cols[k] == x;
        }
      }
      assert mid.InBounds(x, y);
      assert mid.cells[x][y] == (if y in rows then false else b.cells[x][y]);
      assert cleared.cells[x][y] == (if x in cols then false else mid.cells[x][y]);
    }
  }

  datatype LineClear = LineClear(board: Board, linesCleared: nat)

  /**
   * Collects every full row, then every full column, of the grid as it stands,
   * and only then clears them: rows first, columns second. A cell where a
   * cleared row meets a cleared column is cleared twice. The count is the
   * number of rows plus the number of columns.
   */
  function CheckAndClearLines(b: Board): (r: LineClear)
    requires b.Valid()
    ensures r.board.Valid() && r.board.SameShape(b)
    ensures forall x, y :: b.InBounds(x, y) ==>
      r.board.cells[x][y] == (if RowFull(b, y) || ColFull(b, x) then false else b.cells[x][y])
    ensures r.linesCleared == |FullRowSet(b)| + |FullColSet(b)|
  {
    var rows := FullRowsFrom(b, 0);
    var cols := FullColsFrom(b, 0);
    var cleared := ClearCols(ClearRows(b, rows), cols);
    FullRowsCount(b);
    FullColsCount(b);
    ClearedCells(b, rows, cols);
    LineClear(cleared, |rows| + |cols|)
  }

  datatype PlacementResult = PlacementResult(success: bool, linesCleared: nat, isCombo: bool)

  /** A failed placement: no success, no lines, no combo. */
  const Rejected := PlacementResult(false, 0, false)

  datatype Placement = Placement(board: Board, result: PlacementResult)

  /**
   * Places a piece atomically: a placement that does not validate changes
   * nothing; one that does marks every target cell, then clears lines on the
   * resulting grid and reports the count, with a combo for more than one line.
   */
  function PlacePiece(b: Board, p: Option<PieceData>, a: Vec): (r: Placement)
    requires b.Valid()
    ensures r.board.Valid() && r.board.SameShape(b)
    ensures !CanPlacePiece(b, p, a) ==> r.board == b && r.result == Rejected
    ensures CanPlacePiece(b, p, a) ==>
      && r.result.success
      && (r.result.isCombo <==> r.result.linesCleared > 1)
      && var m := MarkCells(b, p.value.offsets, a);
         && r.result.linesCleared == |FullRowSet(m)| + |FullColSet(m)|
         && forall x, y :: b.InBounds(x, y) ==>
              r.board.cells[x][y] == (if RowFull(m, y) || ColFull(m, x) then false else m.cells[x][y])
  {
    if !CanPlacePiece(b, p, a) then Placement(b, Rejected)
    else
      var marked := MarkCells(b, p.value.offsets, a);
      var cleared := CheckAndClearLines(marked);
      Placement(cleared.board, PlacementResult(true, cleared.linesCleared, cleared.linesCleared > 1))
  }

  // ---------------------------------------------------------------------------
  // Reachability

  /** Tries anchors (x, y), (x, y+1), ... up to the top of column x. */
  function FitsInColumn(b: Board, p: Option<PieceData>, x: int, y: nat): (r: bool)
    requires b.Valid() && y <= b.height
    decreases b.height - y
    ensures r <==> exists j :: y <= j < b.height && CanPlacePiece(b, p, Vec(x, j))
  {
    if y == b.height then false
    else if CanPlacePiece(b, p, Vec(x, y)) then true
    else FitsInColumn(b, p, x, y + 1)
  }

  /** Tries every anchor in columns x and above. */
  function FitsFromColumn(b: Board, p: Option<PieceData>, x: nat): (r: bool)
    requires b.Valid() && x <= b.width
    decreases b.width - x
    ensures r <==> exists i, j :: x <= i < b.width && 0 <= j < b.height && CanPlacePiece(b, p, Vec(i, j))
  {
    if x == b.width then false
    else if FitsInColumn(b, p, x, 0) then ColumnWitness(b, p, x); true
    else SkipColumn(b, p, x); FitsFromColumn(b, p, x + 1)
  }

  /** With no fit in column x, a fit in columns x and above is a fit in columns x + 1 and above. */
  lemma SkipColumn(b: Board, p: Option<PieceData>, x: nat)
    requires b.Valid() && x < b.width
    requires !exists j :: 0 <= j < b.height && CanPlacePiece(b, p, Vec(x, j))
    ensures (exists i, j :: x <= i < b.width && 0 <= j < b.height && CanPlacePiece(b, p, Vec(i, j)))
        <==> (exists i, j :: x + 1 <= i < b.width && 0 <= j < b.height && CanPlacePiece(b, p, Vec(i, j)))
  {
    if exists i, j :: x <= i < b.width && 0 <= j < b.height && CanPlacePiece(b, p, Vec(i, j)) {
      var i, j :| x <= i < b.width && 0 <= j < b.height && CanPlacePiece(b, p, Vec(i, j));
      assert i != x;
    }
  }

  /** An anchor that fits in column x is an anchor that fits in columns x and above. */
  lemma ColumnWitness(b: Board, p: Option<PieceData>, x: nat)
    requires b.Valid() && x < b.width
    requires exists j :: 0 <= j < b.height && CanPlacePiece(b, p, Vec(x, j))
    ensures exists i, j :: x <= i < b.width && 0 <= j < b.height && CanPlacePiece(b, p, Vec(i, j))
  {
    var j :| 0 <= j < b.height && CanPlacePiece(b, p, Vec(x, j));
    assert x <= x < b.width && CanPlacePiece(b, p, Vec(x, j));
  }

  /**
   * Whether the piece can go anywhere: it is not null and some anchor inside
   * the grid validates. Anchors outside the grid are never tried.
   */
  function CanPieceFitAnywhere(b: Board, p: Option<PieceData>): (r: bool)
    requires b.Valid()
    ensures r <==> p.Some? && exists x, y :: b.InBounds(x, y) && CanPlacePiece(b, p, Vec(x, y))
  {
    if p.None? then false else FitsFromColumn(b, p, 0)
  }

  /** Whether some piece of the list, tried in order, can go anywhere. */
  function CanAnyPieceFit(b: Board, pieces: seq<Option<PieceData>>): (r: bool)
    requires b.Valid()
    ensures r <==> exists k :: 0 <= k < |pieces| && pieces[k].Some? && CanPieceFitAnywhere(b, pieces[k])
    ensures |pieces| == 0 ==> !r
  {
    if |pieces| == 0 then false
    else if pieces[0].Some? && CanPieceFitAnywhere(b, pieces[0]) then true
    else
      var rest := CanAnyPieceFit(b, pieces[1..]);
      assert forall k :: 1 <= k < |pieces| ==> pieces[k] == pieces[1..][k - 1];
      rest
  }

  // ---------------------------------------------------------------------------
  // Properties

  /** On an empty grid, a piece whose offsets fit inside the grid from the origin can be placed at (0, 0). */
  lemma {:induction false} FitsAtOriginOfEmptyGrid(b: Board, p: PieceData)
    requires b.Valid() && b.width > 0 && b.height > 0
    requires forall x, y :: b.InBounds(x, y) ==> !b.cells[x][y]
    requires forall k :: 0 <= k < |p.offsets| ==> b.InBounds(p.offsets[k].x, p.offsets[k].y)
    ensures CanPlacePiece(b, Some(p), Vec(0, 0))
    ensures CanPieceFitAnywhere(b, Some(p))
  {
    forall k | 0 <= k < |p.offsets|
      ensures Free(b, Target(Vec(0, 0), p.offsets[k]))
    {
      assert Target(Vec(0, 0), p.offsets[k]) == p.offsets[k];
    }
    assert b.InBounds(0, 0) && CanPlacePiece(b, Some(p), Vec(0, 0));
  }

  /** Every piece of every tier can be placed at (0, 0) of a fresh default-size grid. */
  lemma CatalogFitsFreshGrid(d: Difficulty, k: nat)
    requires k < |GetPiecesForDifficulty(d)|
    ensures CanPlacePiece(InitializeGrid(DefaultWidth, DefaultHeight), Some(GetPiecesForDifficulty(d)[k]), Vec(0, 0))
    ensures CanPieceFitAnywhere(InitializeGrid(DefaultWidth, DefaultHeight), Some(GetPiecesForDifficulty(d)[k]))
  {
    var b := InitializeGrid(DefaultWidth, DefaultHeight);
    var p := GetPiecesForDifficulty(d)[k];
    assert OffsetsWithin(p, 4);
    FitsAtOriginOfEmptyGrid(b, p);
  }

  /**
   * On a grid with a single empty cell, only a piece of at most one cell can
   * be placed, provided its offsets are distinct.
   */
  lemma {:induction false} OneHoleAdmitsOnlySingles(b: Board, hole: Vec, p: PieceData, a: Vec)
    requires b.Valid()
    requires forall x, y :: b.InBounds(x, y) ==> (b.cells[x][y] <==> Vec(x, y) != hole)
    requires Distinct(p.offsets)
    requires CanPlacePiece(b, Some(p), a)
    ensures |p.offsets| <= 1
  {
    forall i | 0 <= i < |p.offsets|
      ensures p.offsets[i] == Vec(hole.x - a.x, hole.y - a.y)
    {
      var t := Target(a, p.offsets[i]);
      assert Free(b, t);
      assert t == hole;
    }
    if |p.offsets| >= 2 {
      DistinctFirstTwo(p.offsets);
      assert false;
    }
  }

  /**
   * A successful placement leaves each target cell occupied exactly when none
   * of its lines was full after marking; cells off the piece keep their value
   * unless one of their lines was full.
   */
  lemma PlacementOutcomeCells(b: Board, p: PieceData, a: Vec)
    requires b.Valid() && CanPlacePiece(b, Some(p), a)
    ensures var m := MarkCells(b, p.offsets, a);
            var r := PlacePiece(b, Some(p), a).board;
            && (forall k :: 0 <= k < |p.offsets| ==>
                  var t := Target(a, p.offsets[k]);
                  m.cells[t.x][t.y] && (r.cells[t.x][t.y] <==> !RowFull(m, t.y) && !ColFull(m, t.x)))
            && (forall x, y :: b.InBounds(x, y) && !Covers(p.offsets, a, x, y) && !RowFull(m, y) && !ColFull(m, x) ==>
                  r.cells[x][y] == b.cells[x][y])
  {
    var m := MarkCells(b, p.offsets, a);
    forall k | 0 <= k < |p.offsets|
      ensures var t := Target(a, p.offsets[k]); m.InBounds(t.x, t.y) && m.cells[t.x][t.y]
    {
      var t := Target(a, p.offsets[k]);
      assert Free(b, t);
      assert Covers(p.offsets, a, t.x, t.y);
    }
  }

  /** An 8 x 8 grid whose bottom row is filled from x = 0 to x = n - 1, and nothing else. */
  function BottomRowPrefix(n: int): (b: Board)
    ensures b.Valid() && b.width == 8 && b.height == 8
    ensures forall x, y :: b.InBounds(x, y) ==> (b.cells[x][y] <==> y == 0 && x < n)
  {
    Board(8, 8, seq(8, x => seq(8, y => y == 0 && x < n)))
  }

  /** Marking a three-cell line at (5, 0) on a row filled from 0 to 4 completes exactly that row. */
  lemma {:induction false} LineCompletesBottomRow(b: Board, offs: seq<Vec>)
    requires b.Valid() && b.width == 8 && b.height == 8
    requires forall x, y :: b.InBounds(x, y) ==> (b.cells[x][y] <==> y == 0 && x < 5)
    requires |offs| == 3 && offs[0] == Vec(0, 0) && offs[1] == Vec(1, 0) && offs[2] == Vec(2, 0)
    ensures forall i :: 0 <= i < |offs| ==> Free(b, Target(Vec(5, 0), offs[i]))
    ensures forall x, y :: MarkCells(b, offs, Vec(5, 0)).InBounds(x, y) ==>
      (MarkCells(b, offs, Vec(5, 0)).cells[x][y] <==> y == 0)
  {
    LineCellsFree(b, offs);
    LineMarksRowZero(b, offs);
  }

  /** Columns 5 to 7 of row 0 are empty on a row filled from 0 to 4. */
  lemma LineCellsFree(b: Board, offs: seq<Vec>)
    requires b.Valid() && b.width == 8 && b.height == 8
    requires forall x, y :: b.InBounds(x, y) ==> (b.cells[x][y] <==> y == 0 && x < 5)
    requires |offs| == 3 && offs[0] == Vec(0, 0) && offs[1] == Vec(1, 0) && offs[2] == Vec(2, 0)
    ensures forall i :: 0 <= i < |offs| ==> Free(b, Target(Vec(5, 0), offs[i]))
  {
    forall i | 0 <= i < |offs|
      ensures Free(b, Target(Vec(5, 0), offs[i]))
    {
      assert offs[i] == Vec(i, 0) by {
        if i == 0 {
        } else if i == 1 {
        } else {
        }
      }
    }
  }

  /** After the line is marked, a cell is filled exactly when it lies on row 0. */
  lemma LineMarksRowZero(b: Board, offs: seq<Vec>)
    requires b.Valid() && b.width == 8 && b.height == 8
    requires forall x, y :: b.InBounds(x, y) ==> (b.cells[x][y] <==> y == 0 && x < 5)
    requires |offs| == 3 && offs[0] == Vec(0, 0) && offs[1] == Vec(1, 0) && offs[2] == Vec(2, 0)
    requires forall i :: 0 <= i < |offs| ==> Free(b, Target(Vec(5, 0), offs[i]))
    ensures forall x, y :: MarkCells(b, offs, Vec(5, 0)).InBounds(x, y) ==>
      (MarkCells(b, offs, Vec(5, 0)).cells[x][y] <==> y == 0)
  {
    RowZeroOnly(b, MarkCells(b, offs, Vec(5, 0)), offs);
  }

  /** A board holding row 0 up to column 4 plus the line's cells is filled exactly on row 0. */
  lemma RowZeroOnly(b: Board, m: Board, offs: seq<Vec>)
    requires b.Valid() && b.width == 8 && b.height == 8
    requires forall x, y :: b.InBounds(x, y) ==> (b.cells[x][y] <==> y == 0 && x < 5)
    requires |offs| == 3 && offs[0] == Vec(0, 0) && offs[1] == Vec(1, 0) && offs[2] == Vec(2, 0)
    requires m.Valid() && m.SameShape(b)
    requires forall x, y :: m.InBounds(x, y) ==> (m.cells[x][y] <==> b.cells[x][y] || Covers(offs, Vec(5, 0), x, y))
    ensures forall x, y :: m.InBounds(x, y) ==> (m.cells[x][y] <==> y == 0)
  {
    forall x, y | m.InBounds(x, y)
      ensures m.cells[x][y] <==> y == 0
    {
      LineCellCovered(offs, x, y);
    }
  }

  /** The line at (5, 0) covers cell (x, y) exactly when y is 0 and x is 5, 6 or 7. */
  lemma LineCellCovered(offs: seq<Vec>, x: int, y: int)
    requires |offs| == 3 && offs[0] == Vec(0, 0) && offs[1] == Vec(1, 0) && offs[2] == Vec(2, 0)
    ensures Covers(offs, Vec(5, 0), x, y) <==> y == 0 && 5 <= x < 8
  {
    if y == 0 && 5 <= x < 8 {
      RowZeroCellCovered(offs, x);
    }
    if Covers(offs, Vec(5, 0), x, y) {
      CoveredCellOnRowZero(offs, x, y);
    }
  }

  /** Each of columns 5 to 7 of row 0 is covered by the line at (5, 0). */
  lemma RowZeroCellCovered(offs: seq<Vec>, x: int)
    requires |offs| == 3 && offs[0] == Vec(0, 0) && offs[1] == Vec(1, 0) && offs[2] == Vec(2, 0)
    requires 5 <= x < 8
    ensures Covers(offs, Vec(5, 0), x, 0)
  {
    var i := x - 5;
    assert offs[i] == Vec(i, 0) by {
      if i == 0 {
      } else if i == 1 {
      } else {
      }
    }
    assert Target(Vec(5, 0), offs[i]) == Vec(x, 0);
  }

  /** Every cell the line at (5, 0) covers lies on row 0, in columns 5 to 7. */
  lemma CoveredCellOnRowZero(offs: seq<Vec>, x: int, y: int)
    requires |offs| == 3 && offs[0] == Vec(0, 0) && offs[1] == Vec(1, 0) && offs[2] == Vec(2, 0)
    requires Covers(offs, Vec(5, 0), x, y)
    ensures y == 0 && 5 <= x < 8
  {
    forall i | 0 <= i < |offs|
      ensures offs[i].y == 0 && 0 <= offs[i].x < 3
    {
      if i == 0 {
      } else if i == 1 {
      } else {
        assert i == 2;
      }
    }
  }

  /** On a grid whose only filled cells form row 0, that row is the only full line. */
  lemma {:induction false} OnlyRowZeroFull(m: Board)
    requires m.Valid() && m.width > 0 && m.height > 1
    requires forall x, y :: m.InBounds(x, y) ==> (m.cells[x][y] <==> y == 0)
    ensures FullRowSet(m) == {0} && FullColSet(m) == {}
  {
    assert RowFull(m, 0);
    forall y | 0 < y < m.height
      ensures !RowFull(m, y)
    {
      assert !m.cells[0][y];
    }
    forall x | 0 <= x < m.width
      ensures !ColFull(m, x)
    {
      assert !m.cells[x][1];
    }
  }

  /**
   * Worked case: on an 8 x 8 grid whose bottom row is filled from x = 0 to 4
   * and which is empty elsewhere, a three-cell horizontal line anchored at
   * (5, 0) completes that row, which clears as one line without a combo and
   * leaves the grid empty.
   */
  lemma {:induction false} CompletingBottomRowClearsIt(b: Board, p: PieceData)
    requires b.Valid() && b.width == 8 && b.height == 8
    requires forall x, y :: b.InBounds(x, y) ==> (b.cells[x][y] <==> y == 0 && x < 5)
    requires p.offsets == [Vec(0, 0), Vec(1, 0), Vec(2, 0)]
    ensures var r := PlacePiece(b, Some(p), Vec(5, 0));
            && r.result == PlacementResult(true, 1, false)
            && forall x, y :: r.board.InBounds(x, y) ==> !r.board.cells[x][y]
  {
    assert |p.offsets| == 3 && p.offsets[0] == Vec(0, 0) && p.offsets[1] == Vec(1, 0) && p.offsets[2] == Vec(2, 0);
    LineCompletesBottomRow(b, p.offsets);
    assert CanPlacePiece(b, Some(p), Vec(5, 0));
    var m := MarkCells(b, p.offsets, Vec(5, 0));
    OnlyRowZeroFull(m);
    var r := PlacePiece(b, Some(p), Vec(5, 0));
    forall x, y | r.board.InBounds(x, y)
      ensures !r.board.cells[x][y]
    {
      assert b.InBounds(x, y);
      if y == 0 {
        assert RowFull(m, 0);
      }
    }
  }

  /** The same case with the catalog's Line3_H piece. */
  lemma BottomRowExample()
    ensures EasyPieces()[3].name == "Line3_H"
    ensures var r := PlacePiece(BottomRowPrefix(5), Some(EasyPieces()[3]), Vec(5, 0));
            && r.result == PlacementResult(true, 1, false)
            && forall x, y :: r.board.InBounds(x, y) ==> !r.board.cells[x][y]
  {
    CompletingBottomRowClearsIt(BottomRowPrefix(5), EasyPieces()[3]);
  }
}
