/**
 * Dirty tracking of the background buffers on the synchronous path. Terrain
 * changes mark mesh cells stale in `mapInvalid` (one bit per cell, row
 * stride `bufferWidth`) and raise `updateGeometry`; visibility changes mark
 * grid points stale in `fowWritten` (one bit per point, row stride
 * `bufferWidth + 1`). A draw then scans only the visible window, emits the
 * stale cells it finds there and clears their bits.
 */
module DirtyTracking {
  import opened Common

  /** Bytes of one cell's mesh data: 4-byte floats, 5 per vertex, 3 vertices, 2 triangles. */
  const ShapeBytesPerField: int := 4 * 5 * 3 * 2

  /**
   * The tracking state of one background. The mesh is `bufferWidth` by
   * `bufferHeight` cells, one fewer than the map has points on each axis.
   */
  datatype Cache = Cache(
    bufferWidth: int,
    bufferHeight: int,
    mapInvalid: set<int>,
    fowWritten: set<int>,
    updateGeometry: bool)
  {
    /** The row stride of `fowWritten`: the map's width in points. */
    function MapWidth(): int { bufferWidth + 1 }
  }

  /** A freshly built background for a map of the given size: nothing is stale. */
  function NewCache(mapWidth: int, mapHeight: int): (c: Cache)
    ensures c.MapWidth() == mapWidth
    ensures c.bufferHeight + 1 == mapHeight
    ensures c.mapInvalid == {} && c.fowWritten == {} && !c.updateGeometry
  {
    Cache(mapWidth - 1, mapHeight - 1, {}, {}, false)
  }

  /**
   * The result of a change notification: it completes, or `BitSet.set`
   * rejects a range and the exception leaves the state as far as it got.
   */
  datatype Outcome = Done(cache: Cache) | Threw(cache: Cache)

  /** The bit of point (or cell) p in a bit set with the given row stride. */
  function Index(p: Point, stride: int): int
  {
    p.y * stride + p.x
  }

  /**
   * Marks the mesh cell (x, y) stale. Coordinates up to and including the
   * buffer size pass the guard, so x == bufferWidth lands on the bit of
   * cell (0, y + 1).
   */
  function InvalidateShapePoint(c: Cache, x: int, y: int): (r: Cache)
    ensures r.bufferWidth == c.bufferWidth && r.bufferHeight == c.bufferHeight
    ensures r.fowWritten == c.fowWritten
    ensures (0 <= x <= c.bufferWidth && 0 <= y <= c.bufferHeight) ==>
              r.mapInvalid == c.mapInvalid + {Index(Point(x, y), c.bufferWidth)} && r.updateGeometry
    ensures !(0 <= x <= c.bufferWidth && 0 <= y <= c.bufferHeight) ==> r == c
  {
    if x > c.bufferWidth || y > c.bufferHeight || x < 0 || y < 0 then c
    else c.(updateGeometry := true, mapInvalid := c.mapInvalid + {y * c.bufferWidth + x})
  }


  /** The integers from `lo` up to but excluding `hi`, as `BitSet.set(lo, hi)` marks them. */
  function Range(lo: int, hi: int): (r: set<int>)
    ensures forall i :: (i in r <==> lo <= i < hi)
    decreases hi - lo
  {
    if lo >= hi then {} else {lo} + Range(lo + 1, hi)
  }

  /**
   * Marks points x1..x2-1 of row y stale in `fowWritten`. `BitSet.set`
   * throws, changing nothing, when either end is negative or the range is
   * reversed.
   */
  function UpdateLine(c: Cache, y: int, x1: int, x2: int): (r: Outcome)
    ensures r.cache.bufferWidth == c.bufferWidth && r.cache.bufferHeight == c.bufferHeight
    ensures r.cache.mapInvalid == c.mapInvalid && r.cache.updateGeometry == c.updateGeometry
    ensures var from, to := Index(Point(x1, y), c.MapWidth()), Index(Point(x2, y), c.MapWidth());
      && (r.Threw? <==> from < 0 || to < 0 || from > to)
      && (r.Threw? ==> r.cache == c)
      && (r.Done? ==> forall i :: i in r.cache.fowWritten <==> i in c.fowWritten || from <= i < to)
  {
    var from := y * c.MapWidth() + x1;
    var to := y * c.MapWidth() + x2;
    if from < 0 || to < 0 || from > to then Threw(c)
    else Done(c.(fowWritten := c.fowWritten + Range(from, to)))
  }

  /** Runs one more line update on the state a completed step left, or passes an exception on. */
  function Then(o: Outcome, y: int, x1: int, x2: int): Outcome
  {
    if o.Threw? then o else UpdateLine(o.cache, y, x1, x2)
  }

  /** The column range a visibility change of `length` points at x widens to. */
  function LineColumns(c: Cache, x: int, length: int): (int, int)
  {
    var x2 := x + length;
    var x1 := if x != 0 then x - 1 else x;
    var x2' := if x2 < c.bufferWidth then x2 + 1 else x2;
    (x1, if x2' > c.bufferWidth then c.bufferWidth else x2')
  }

  /**
   * The rows a visibility change on row y updates, in the order it updates
   * them: row y, then the row above and the row below when those are mesh
   * rows.
   */
  function LineRows(c: Cache, y: int): seq<int>
  {
    [y] + (if y > 0 then [y - 1] else []) + (if y < c.bufferHeight - 1 then [y + 1] else [])
  }

  /** Runs the line updates of the given rows in order, stopping at the first exception. */
  function UpdateLines(o: Outcome, rows: seq<int>, x1: int, x2: int): (r: Outcome)
    ensures o.Threw? ==> r == o
    ensures r.cache.bufferWidth == o.cache.bufferWidth && r.cache.bufferHeight == o.cache.bufferHeight
    ensures r.cache.mapInvalid == o.cache.mapInvalid && r.cache.updateGeometry == o.cache.updateGeometry
    ensures r.cache.fowWritten >= o.cache.fowWritten
    decreases |rows|
  {
    if rows == [] then o else UpdateLines(Then(o, rows[0], x1, x2), rows[1..], x1, x2)
  }

  /**
   * A visibility change of `length` points at (x, y): nothing on the last
   * point row; otherwise the widened columns of each of its rows.
   */
  function ColorLineChangedAt(c: Cache, x: int, y: int, length: int): (r: Outcome)
    ensures y == c.bufferHeight ==> r == Done(c)
    ensures r.cache.bufferWidth == c.bufferWidth && r.cache.bufferHeight == c.bufferHeight
    ensures r.cache.mapInvalid == c.mapInvalid && r.cache.updateGeometry == c.updateGeometry
    ensures r.cache.fowWritten >= c.fowWritten
  {
    if y == c.bufferHeight then Done(c)
    else
      var (x1, x2) := LineColumns(c, x, length);
      UpdateLines(Done(c), LineRows(c, y), x1, x2)
  }

  /** Whether `invalidateShapePoint(x, y)` passes its inclusive guard. */
  predicate InGuard(c: Cache, x: int, y: int)
  {
    0 <= x <= c.bufferWidth && 0 <= y <= c.bufferHeight
  }

  /** The bit `invalidateShapePoint(x, y)` sets: its cell's, or none outside the guard. */
  function Mark(c: Cache, x: int, y: int): set<int>
  {
    if InGuard(c, x, y) then {Index(Point(x, y), c.bufferWidth)} else {}
  }

  /**
   * A terrain change at point (x, y): the colours around the point, then the
   * four cells that share the point as a corner, each marked only inside
   * the guard; the rebuild flag goes up as soon as one of them is.
   */
  function ShapeChangedAt(c: Cache, x: int, y: int): (r: Outcome)
    ensures r.Threw? <==> ColorLineChangedAt(c, x, y, 1).Threw?
    ensures r.cache.fowWritten == ColorLineChangedAt(c, x, y, 1).cache.fowWritten
    ensures r.cache.bufferWidth == c.bufferWidth && r.cache.bufferHeight == c.bufferHeight
    ensures r.Done? ==>
      r.cache.mapInvalid == c.mapInvalid + Mark(c, x, y) + Mark(c, x - 1, y) + Mark(c, x - 1, y - 1) + Mark(c, x, y - 1)
    ensures r.Done? ==>
      (r.cache.updateGeometry <==>
         c.updateGeometry || InGuard(c, x, y) || InGuard(c, x - 1, y) || InGuard(c, x - 1, y - 1) || InGuard(c, x, y - 1))
  {
    var o := ColorLineChangedAt(c, x, y, 1);
    if o.Threw? then o
    else
      var c1 := InvalidateShapePoint(o.cache, x, y);
      var c2 := InvalidateShapePoint(c1, x - 1, y);
      var c3 := InvalidateShapePoint(c2, x - 1, y - 1);
      Done(InvalidateShapePoint(c3, x, y - 1))
  }

  /**
   * The widened column range of a change starting inside the map: one
   * column to the left unless at column 0, one column past the end while
   * that stays below the buffer width, and otherwise cut off at the buffer
   * width, so a run at the last column or past the edge is never reversed.
   */
  lemma LineColumnsWiden(c: Cache, x: int, length: int)
    requires 0 <= x <= c.bufferWidth && 0 <= length
    ensures var (x1, x2) := LineColumns(c, x, length);
      && x1 == (if x == 0 then 0 else x - 1)
      && x2 == (if x + length < c.bufferWidth then x + length + 1 else c.bufferWidth)
      && 0 <= x1 <= x2 <= c.bufferWidth
  {
  }

  /** The rows a visibility change on row y marks: y, and its neighbours that are mesh rows. */
  predicate LineRow(c: Cache, y: int, row: int)
  {
    || row == y
    || (row == y - 1 && y > 0)
    || (row == y + 1 && y < c.bufferHeight - 1)
  }

  lemma MulNonNegative(a: int, b: int)
    requires 0 <= a && 0 <= b
    ensures 0 <= a * b
  {
  }

  lemma MulMonotone(a: int, b: int, m: int)
    requires a <= b && m >= 0
    ensures a * m <= b * m
  {
    assert b * m == a * m + (b - a) * m;
    MulNonNegative(b - a, m);
  }

  /** A point inside a row's column span has a bit inside that row's bit range, and only then. */
  lemma RowSpan(row: int, col: int, y: int, x1: int, x2: int, stride: int)
    requires 0 <= col < stride && 0 <= x1 <= x2 <= stride
    ensures Index(Point(x1, y), stride) <= Index(Point(col, row), stride) < Index(Point(x2, y), stride)
            <==> row == y && x1 <= col < x2
  {
    if row < y {
      MulMonotone(row + 1, y, stride);
      assert (row + 1) * stride == row * stride + stride;
      assert Index(Point(col, row), stride) < Index(Point(x1, y), stride);
    } else if row > y {
      MulMonotone(y + 1, row, stride);
      assert (y + 1) * stride == y * stride + stride;
      assert Index(Point(x2, y), stride) <= Index(Point(col, row), stride);
    }
  }

  /** A line update inside the map completes and marks exactly its columns of row y. */
  lemma UpdateLineMarks(c: Cache, y: int, x1: int, x2: int)
    requires 0 <= y && 0 <= x1 <= x2 <= c.bufferWidth
    ensures var o := UpdateLine(c, y, x1, x2);
      && o.Done?
      && forall row, col | 0 <= col < c.MapWidth() ::
           Index(Point(col, row), c.MapWidth()) in o.cache.fowWritten
           <==> Index(Point(col, row), c.MapWidth()) in c.fowWritten || (row == y && x1 <= col < x2)
  {
    MulNonNegative(y, c.MapWidth());
    forall row, col | 0 <= col < c.MapWidth()
      ensures Index(Point(x1, y), c.MapWidth()) <= Index(Point(col, row), c.MapWidth())
                < Index(Point(x2, y), c.MapWidth())
              <==> row == y && x1 <= col < x2
    {
      RowSpan(row, col, y, x1, x2, c.MapWidth());
    }
  }

  /**
   * Line updates of rows inside the map all complete; together they mark
   * exactly the columns x1..x2-1 of the given rows and change nothing else.
   */
  lemma {:induction false} UpdateLinesMarks(o: Outcome, rows: seq<int>, x1: int, x2: int)
    requires o.Done? && 0 <= x1 <= x2 <= o.cache.bufferWidth
    requires forall k | 0 <= k < |rows| :: rows[k] >= 0
    ensures var r := UpdateLines(o, rows, x1, x2);
      var w := o.cache.MapWidth();
      && r.Done?
      && r.cache.bufferWidth == o.cache.bufferWidth && r.cache.bufferHeight == o.cache.bufferHeight
      && r.cache.mapInvalid == o.cache.mapInvalid && r.cache.updateGeometry == o.cache.updateGeometry
      && forall row, col | 0 <= col < w ::
           Index(Point(col, row), w) in r.cache.fowWritten
           <==> Index(Point(col, row), w) in o.cache.fowWritten || (row in rows && x1 <= col < x2)
    decreases |rows|
  {
    if rows != [] {
      var next := Then(o, rows[0], x1, x2);
      UpdateLineMarks(o.cache, rows[0], x1, x2);
      UpdateLinesMarks(next, rows[1..], x1, x2);
      assert forall row :: row in rows <==> row == rows[0] || row in rows[1..];
    }
  }

  /**
   * A visibility change inside the map never throws, marks exactly the
   * widened columns of the changed row and of its neighbouring mesh rows,
   * and leaves the mesh bits alone.
   */
  lemma ColorLineMarks(c: Cache, x: int, y: int, length: int)
    requires 0 <= x <= c.bufferWidth && 0 <= length
    requires 0 <= y < c.bufferHeight
    ensures var (x1, x2) := LineColumns(c, x, length);
      var o := ColorLineChangedAt(c, x, y, length);
      && o.Done?
      && (forall row, col | 0 <= col < c.MapWidth() ::
            Index(Point(col, row), c.MapWidth()) in o.cache.fowWritten
            <==> Index(Point(col, row), c.MapWidth()) in c.fowWritten || (LineRow(c, y, row) && x1 <= col < x2))
      && o.cache.bufferWidth == c.bufferWidth && o.cache.bufferHeight == c.bufferHeight
      && o.cache.mapInvalid == c.mapInvalid && o.cache.updateGeometry == c.updateGeometry
  {
    LineColumnsWiden(c, x, length);
    var (x1, x2) := LineColumns(c, x, length);
    UpdateLinesMarks(Done(c), LineRows(c, y), x1, x2);
    assert forall row :: LineRow(c, y, row) <==> row in LineRows(c, y);
  }

  /** The visibility change of 3 points at (20, 10) marks columns 19..23 of rows 9, 10 and 11. */
  lemma ColorLineScenario(c: Cache)
    requires c.bufferWidth >= 25 && c.bufferHeight >= 12
    ensures var o := ColorLineChangedAt(c, 20, 10, 3);
      && o.Done?
      && forall row, col | 0 <= col < c.MapWidth() ::
           Index(Point(col, row), c.MapWidth()) in o.cache.fowWritten
           <==> Index(Point(col, row), c.MapWidth()) in c.fowWritten || (9 <= row <= 11 && 19 <= col <= 23)
  {
    ColorLineMarks(c, 20, 10, 3);
  }

  /**
   * A terrain change at (5, 5) marks exactly the four cells sharing that
   * point, (5, 5), (4, 5), (4, 4) and (5, 4), and raises the rebuild flag.
   */
  lemma ShapeChangeScenario(c: Cache)
    requires c.bufferWidth >= 6 && c.bufferHeight >= 6
    ensures var o := ShapeChangedAt(c, 5, 5);
      var w := c.bufferWidth;
      && o.Done?
      && o.cache.mapInvalid == c.mapInvalid + {5 * w + 5, 5 * w + 4, 4 * w + 4, 4 * w + 5}
      && o.cache.updateGeometry
  {
    ColorLineMarks(c, 5, 5, 1);
  }

  /**
   * A terrain change at any map point completes; it marks the colours
   * around the point as a visibility change of one point does, exactly the
   * guarded cells of the four that share the point, and raises the flag.
   */
  lemma ShapeChangedMarks(c: Cache, x: int, y: int)
    requires 0 <= x <= c.bufferWidth && 0 <= y <= c.bufferHeight
    ensures var o := ShapeChangedAt(c, x, y);
      && o.Done?
      && o.cache.fowWritten == ColorLineChangedAt(c, x, y, 1).cache.fowWritten
      && o.cache.mapInvalid
         == c.mapInvalid + {Index(Point(x, y), c.bufferWidth)} + Mark(c, x - 1, y) + Mark(c, x - 1, y - 1) + Mark(c, x, y - 1)
      && o.cache.updateGeometry
  {
    if y < c.bufferHeight {
      ColorLineMarks(c, x, y, 1);
    }
  }

  /**
   * The inclusive guard lets x == bufferWidth through, and its bit is the
   * bit of cell (0, y + 1): the two invalidations are indistinguishable.
   */
  lemma InvalidateAliasing(c: Cache, y: int)
    requires c.bufferWidth >= 0 && 0 <= y < c.bufferHeight
    ensures InvalidateShapePoint(c, c.bufferWidth, y) == InvalidateShapePoint(c, 0, y + 1)
  {
  }

  // ----- the visible window -----

  /** The visible map region a draw covers, as the screen-to-map converter gives it. */
  datatype Screen = Screen(minX: int, minY: int, width: int, height: int)

  /** First row of the window: the screen's top row, clamped at 0. */
  function RowStart(s: Screen): int
  {
    if s.minY < 0 then 0 else s.minY
  }

  /** One past the last row of the window, clamped at the buffer height `h`. */
  function RowEnd(h: int, s: Screen): int
  {
    var maxy := s.minY + s.height;
    if maxy > h then h else maxy
  }

  /** The screen's left edge on row y: it moves right one column every second row. */
  function LineStartX(s: Screen, y: int): int
    requires y >= 0
  {
    s.minX - RowStart(s) / 2 + y / 2
  }

  /** First column of the window on row y, clamped at 0. */
  function ColStart(s: Screen, y: int): int
    requires y >= 0
  {
    var start := LineStartX(s, y);
    if start < 0 then 0 else start
  }

  /** One past the last column of the window on row y, clamped at the buffer width `w`. */
  function ColEnd(w: int, s: Screen, y: int): int
    requires y >= 0
  {
    var start := LineStartX(s, y);
    if s.width + start < w then s.width + start else w
  }

  /** The cells (x, y) of row y from the window's first column up to `hi`, left to right. */
  function RowCells(s: Screen, y: int, hi: int): seq<Point>
    requires y >= 0
    decreases hi - ColStart(s, y)
  {
    if hi <= ColStart(s, y) then [] else RowCells(s, y, hi - 1) + [Point(hi - 1, y)]
  }

  /** The row's cells lie on row y, from the window's first column up to `hi`. */
  lemma {:induction false} RowCellsBounds(s: Screen, y: int, hi: int)
    requires y >= 0
    ensures forall k | 0 <= k < |RowCells(s, y, hi)| ::
      RowCells(s, y, hi)[k].y == y && ColStart(s, y) <= RowCells(s, y, hi)[k].x < hi
    decreases hi - ColStart(s, y)
  {
    if hi > ColStart(s, y) {
      RowCellsBounds(s, y, hi - 1);
      var init := RowCells(s, y, hi - 1);
      assert forall k | 0 <= k < |init| :: RowCells(s, y, hi)[k] == init[k];
    }
  }

  /** The window's cells in the rows before `yEnd`, row by row. */
  function WindowRows(w: int, s: Screen, yEnd: int): seq<Point>
    decreases yEnd - RowStart(s)
  {
    if yEnd <= RowStart(s) then []
    else WindowRows(w, s, yEnd - 1) + RowCells(s, yEnd - 1, ColEnd(w, s, yEnd - 1))
  }

  /** The window's cells lie in its rows before `yEnd`, each between its row's first and last column. */
  lemma {:induction false} WindowRowsBounds(w: int, s: Screen, yEnd: int)
    ensures forall k | 0 <= k < |WindowRows(w, s, yEnd)| ::
      && RowStart(s) <= WindowRows(w, s, yEnd)[k].y < yEnd
      && ColStart(s, WindowRows(w, s, yEnd)[k].y) <= WindowRows(w, s, yEnd)[k].x
      && WindowRows(w, s, yEnd)[k].x < ColEnd(w, s, WindowRows(w, s, yEnd)[k].y)
    decreases yEnd - RowStart(s)
  {
    if yEnd > RowStart(s) {
      var init: seq<Point> := WindowRows(w, s, yEnd - 1);
      var row: seq<Point> := RowCells(s, yEnd - 1, ColEnd(w, s, yEnd - 1));
      WindowRowsBounds(w, s, yEnd - 1);
      RowCellsBounds(s, yEnd - 1, ColEnd(w, s, yEnd - 1));
      assert WindowRows(w, s, yEnd) == init + row;
      forall k | 0 <= k < |init + row|
        ensures RowStart(s) <= (init + row)[k].y < yEnd
        ensures ColStart(s, (init + row)[k].y) <= (init + row)[k].x < ColEnd(w, s, (init + row)[k].y)
      {
        if k < |init| {
          assert (init + row)[k] == init[k];
        } else {
          assert (init + row)[k] == row[k - |init|];
        }
      }
    }
  }

  /** All cells of the window over a `w` by `h` mesh, in the order a draw visits them. */
  function Window(w: int, h: int, s: Screen): seq<Point>
  {
    WindowRows(w, s, RowEnd(h, s))
  }

  /** The bits of a sequence of cells. */
  function Indices(cells: seq<Point>, stride: int): set<int>
  {
    if cells == [] then {} else Indices(cells[..|cells| - 1], stride) + {Index(cells[|cells| - 1], stride)}
  }

  /** Every cell's bit is among the cells' bits. */
  lemma {:induction false} IndicesContain(cells: seq<Point>, stride: int)
    ensures forall k | 0 <= k < |cells| :: Index(cells[k], stride) in Indices(cells, stride)
  {
    if cells != [] {
      IndicesContain(cells[..|cells| - 1], stride);
      assert forall k | 0 <= k < |cells| - 1 :: cells[k] == cells[..|cells| - 1][k];
    }
  }

  /** A bit that no cell has is not among the cells' bits. */
  lemma {:induction false} IndicesAvoid(cells: seq<Point>, stride: int, i: int)
    requires forall k | 0 <= k < |cells| :: Index(cells[k], stride) != i
    ensures i !in Indices(cells, stride)
  {
    if cells != [] {
      IndicesAvoid(cells[..|cells| - 1], stride, i);
    }
  }

  /** The cells whose bit is set, in their original order. */
  function Dirty(cells: seq<Point>, bits: set<int>, stride: int): seq<Point>
  {
    if cells == [] then []
    else
      var last := cells[|cells| - 1];
      var init := Dirty(cells[..|cells| - 1], bits, stride);
      if Index(last, stride) in bits then init + [last] else init
  }

  /** A cell is among the dirty cells exactly when it is one of the cells and its bit is set. */
  lemma {:induction false} DirtyMembers(cells: seq<Point>, bits: set<int>, stride: int, p: Point)
    ensures p in Dirty(cells, bits, stride) <==> p in cells && Index(p, stride) in bits
  {
    if cells != [] {
      var init := cells[..|cells| - 1];
      DirtyMembers(init, bits, stride, p);
      assert cells == init + [cells[|cells| - 1]];
    }
  }

  /** With none of the cells' bits set, no cell is dirty. */
  lemma {:induction false} DirtyNone(cells: seq<Point>, bits: set<int>, stride: int)
    requires forall k | 0 <= k < |cells| :: Index(cells[k], stride) !in bits
    ensures Dirty(cells, bits, stride) == []
  {
    if cells != [] {
      DirtyNone(cells[..|cells| - 1], bits, stride);
    }
  }

  // ----- the draw-time scan -----

  /**
   * The tracking state after a draw: the window's fog bits are cleared; its
   * cell bits are cleared only if the rebuild flag was up; the flag is down
   * either way.
   */
  function AfterDraw(c: Cache, s: Screen): (r: Cache)
    ensures r.bufferWidth == c.bufferWidth && r.bufferHeight == c.bufferHeight
    ensures !r.updateGeometry
  {
    var window := Window(c.bufferWidth, c.bufferHeight, s);
    var invalid := if c.updateGeometry then c.mapInvalid - Indices(window, c.bufferWidth)
                   else c.mapInvalid;
    c.(fowWritten := c.fowWritten - Indices(window, c.MapWidth()), mapInvalid := invalid,
       updateGeometry := false)
  }

  /** The cells whose colours a draw regenerates, in visiting order. */
  function ColorCells(c: Cache, s: Screen): seq<Point>
  {
    Dirty(Window(c.bufferWidth, c.bufferHeight, s), c.fowWritten, c.MapWidth())
  }

  /** The cells whose mesh data a draw regenerates, in visiting order. */
  function ShapeCells(c: Cache, s: Screen): seq<Point>
  {
    if c.updateGeometry then Dirty(Window(c.bufferWidth, c.bufferHeight, s), c.mapInvalid, c.bufferWidth)
    else []
  }

  /** The position of a cell in the colour buffer, counted in cells. */
  function ColorBufferPos(c: Cache, p: Point): int
  {
    Index(p, c.bufferWidth)
  }

  /** The byte offset of a cell's mesh data in the shape buffer. */
  function ShapeByteOffset(c: Cache, p: Point): int
  {
    Index(p, c.bufferWidth) * ShapeBytesPerField
  }

  /** Cells of later rows, with columns below the stride, have larger bits. */
  lemma IndexRowBefore(q: Point, p: Point, stride: int)
    requires 0 <= q.x < stride && 0 <= p.x && q.y < p.y
    ensures Index(q, stride) < Index(p, stride)
  {
    MulMonotone(q.y + 1, p.y, stride);
  }

  lemma {:induction false} IndicesConcat(a: seq<Point>, b: seq<Point>, stride: int)
    ensures Indices(a + b, stride) == Indices(a, stride) + Indices(b, stride)
    decreases |b|
  {
    if b == [] {
      assert a + b == a;
    } else {
      IndicesConcat(a, b[..|b| - 1], stride);
      assert (a + b)[..|a + b| - 1] == a + b[..|b| - 1];
    }
  }

  /** Appending a cell adds its bit, and adds it to the dirty cells exactly when its bit is set. */
  lemma Snoc(cells: seq<Point>, p: Point, bits: set<int>, stride: int)
    ensures Indices(cells + [p], stride) == Indices(cells, stride) + {Index(p, stride)}
    ensures Dirty(cells + [p], bits, stride)
            == Dirty(cells, bits, stride) + (if Index(p, stride) in bits then [p] else [])
  {
    assert (cells + [p])[..|cells|] == cells;
  }

  lemma {:induction false} DirtyConcat(a: seq<Point>, b: seq<Point>, bits: set<int>, stride: int)
    ensures Dirty(a + b, bits, stride) == Dirty(a, bits, stride) + Dirty(b, bits, stride)
    decreases |b|
  {
    if b == [] {
      assert a + b == a;
    } else {
      var init := b[..|b| - 1];
      DirtyConcat(a, init, bits, stride);
      assert (a + b)[..|a + b| - 1] == a + init;
    }
  }

  /** Clearing bits none of the cells own does not change which of them are dirty. */
  lemma {:induction false} DirtyIgnoresOtherBits(cells: seq<Point>, bits: set<int>, other: set<int>, stride: int)
    requires forall k | 0 <= k < |cells| :: Index(cells[k], stride) !in other
    ensures Dirty(cells, bits - other, stride) == Dirty(cells, bits, stride)
  {
    if cells != [] {
      DirtyIgnoresOtherBits(cells[..|cells| - 1], bits, other, stride);
    }
  }

  /**
   * One step of a scan: a cell whose bit no visited cell owns is still set
   * exactly when it was set at the start; clearing it if set, and emitting
   * it then, keeps the scan's state in step with the visited cells.
   */
  lemma ScanStep(visited: seq<Point>, p: Point, bits: set<int>, remaining: set<int>, cells: seq<Point>, stride: int)
    requires Index(p, stride) !in Indices(visited, stride)
    requires remaining == bits - Indices(visited, stride)
    requires cells == Dirty(visited, bits, stride)
    ensures var i := Index(p, stride);
      && (i in remaining <==> i in bits)
      && (i in remaining ==> remaining - {i} == bits - Indices(visited + [p], stride))
      && (i in remaining ==> cells + [p] == Dirty(visited + [p], bits, stride))
      && (i !in remaining ==> remaining == bits - Indices(visited + [p], stride))
      && (i !in remaining ==> cells == Dirty(visited + [p], bits, stride))
  {
    Snoc(visited, p, bits, stride);
  }

  /**
   * Cell (x, y) owns none of the bits of the row's cells to its left, and
   * from the window's first column on it is the next cell of the row.
   */
  lemma RowCellsStep(s: Screen, y: int, x: int, stride: int)
    requires y >= 0 && ColStart(s, y) <= x
    ensures Index(Point(x, y), stride) !in Indices(RowCells(s, y, x), stride)
    ensures RowCells(s, y, x + 1) == RowCells(s, y, x) + [Point(x, y)]
  {
    RowCellsBounds(s, y, x);
    IndicesAvoid(RowCells(s, y, x), stride, Index(Point(x, y), stride));
  }

  /** One step of the row scan at column x, stated on the row's cells before and after x. */
  lemma RowScanStep(s: Screen, y: int, x: int, bits: set<int>, remaining: set<int>, cells: seq<Point>, stride: int)
    requires y >= 0 && ColStart(s, y) <= x
    requires remaining == bits - Indices(RowCells(s, y, x), stride)
    requires cells == Dirty(RowCells(s, y, x), bits, stride)
    ensures var i, next := y * stride + x, RowCells(s, y, x + 1);
      && (i in remaining ==> remaining - {i} == bits - Indices(next, stride))
      && (i in remaining ==> cells + [Point(x, y)] == Dirty(next, bits, stride))
      && (i !in remaining ==> remaining == bits - Indices(next, stride))
      && (i !in remaining ==> cells == Dirty(next, bits, stride))
  {
    RowCellsStep(s, y, x, stride);
    ScanStep(RowCells(s, y, x), Point(x, y), bits, remaining, cells, stride);
  }

  /**
   * The inner loop of a draw-time scan over row y: each window cell of the
   * row whose bit is set has the bit cleared and is emitted, left to right.
   */
  method ScanRow(w: int, s: Screen, y: int, bits: set<int>, stride: int)
    returns (remaining: set<int>, cells: seq<Point>)
    requires y >= 0
    ensures remaining == bits - Indices(RowCells(s, y, ColEnd(w, s, y)), stride)
    ensures cells == Dirty(RowCells(s, y, ColEnd(w, s, y)), bits, stride)
  {
    remaining, cells := bits, [];
    var lineStartX := s.minX - RowStart(s) / 2 + y / 2;
    var lineWidth := if s.width + lineStartX < w then s.width + lineStartX else w;
    var x := if lineStartX < 0 then 0 else lineStartX;
    assert x == ColStart(s, y) && lineWidth == ColEnd(w, s, y);
    while x < lineWidth
      invariant ColStart(s, y) <= x && (x <= lineWidth || x == ColStart(s, y))
      invariant remaining == bits - Indices(RowCells(s, y, x), stride)
      invariant cells == Dirty(RowCells(s, y, x), bits, stride)
      decreases lineWidth - x
    {
      RowScanStep(s, y, x, bits, remaining, cells, stride);
      if y * stride + x in remaining {
        remaining := remaining - {y * stride + x};
        cells := cells + [Point(x, y)];
      }
      x := x + 1;
    }
    if x != ColEnd(w, s, y) {
      assert RowCells(s, y, x) == [] == RowCells(s, y, ColEnd(w, s, y));
    }
  }

  /** The next row's cells own none of the bits of the rows before it. */
  lemma RowAfterRows(w: int, s: Screen, y: int, stride: int)
    requires y >= 0 && stride >= w
    ensures var row := RowCells(s, y, ColEnd(w, s, y));
      forall k | 0 <= k < |row| :: Index(row[k], stride) !in Indices(WindowRows(w, s, y), stride)
  {
    var row := RowCells(s, y, ColEnd(w, s, y));
    var before := WindowRows(w, s, y);
    RowCellsBounds(s, y, ColEnd(w, s, y));
    WindowRowsBounds(w, s, y);
    forall k | 0 <= k < |row|
      ensures Index(row[k], stride) !in Indices(before, stride)
    {
      forall j | 0 <= j < |before|
        ensures Index(before[j], stride) != Index(row[k], stride)
      {
        IndexRowBefore(before[j], row[k], stride);
      }
      IndicesAvoid(before, stride, Index(row[k], stride));
    }
  }

  /**
   * One row of the window scan: scanning row y with the bits the earlier
   * rows left behaves as scanning the rows up to and including y with the
   * original bits.
   */
  lemma WindowStep(w: int, s: Screen, y: int, bits: set<int>, left: set<int>, cells: seq<Point>, stride: int)
    requires RowStart(s) <= y && stride >= w
    requires left == bits - Indices(WindowRows(w, s, y), stride)
    requires cells == Dirty(WindowRows(w, s, y), bits, stride)
    ensures var row := RowCells(s, y, ColEnd(w, s, y));
      && left - Indices(row, stride) == bits - Indices(WindowRows(w, s, y + 1), stride)
      && cells + Dirty(row, left, stride) == Dirty(WindowRows(w, s, y + 1), bits, stride)
  {
    var done, row := WindowRows(w, s, y), RowCells(s, y, ColEnd(w, s, y));
    assert WindowRows(w, s, y + 1) == done + row;
    RowAfterRows(w, s, y, stride);
    assert forall k | 0 <= k < |RowCells(s, y, ColEnd(w, s, y))| ::
      Index(RowCells(s, y, ColEnd(w, s, y))[k], stride) !in Indices(WindowRows(w, s, y), stride);
    DirtyIgnoresOtherBits(row, bits, Indices(done, stride), stride);
    DirtyConcat(done, row, bits, stride);
    IndicesConcat(done, row, stride);
  }

  /**
   * One scan of the window over a bit set with the given row stride, as
   * both draw-time loops do it: each window cell whose bit is set has its
   * bit cleared and is emitted, in row-major order.
   */
  method ScanWindow(w: int, h: int, s: Screen, bits: set<int>, stride: int)
    returns (remaining: set<int>, cells: seq<Point>)
    requires stride >= w
    ensures remaining == bits - Indices(Window(w, h, s), stride)
    ensures cells == Dirty(Window(w, h, s), bits, stride)
  {
    remaining, cells := bits, [];
    var maxy := s.minY + s.height;
    if maxy > h { maxy := h; }
    var miny := if s.minY < 0 then 0 else s.minY;
    var y := miny;
    assert miny == RowStart(s) && maxy == RowEnd(h, s);
    while y < maxy
      invariant RowStart(s) <= y && (y <= maxy || y == RowStart(s))
      invariant remaining == bits - Indices(WindowRows(w, s, y), stride)
      invariant cells == Dirty(WindowRows(w, s, y), bits, stride)
      decreases maxy - y
    {
      WindowStep(w, s, y, bits, remaining, cells, stride);
      var rowCells;
      remaining, rowCells := ScanRow(w, s, y, remaining, stride);
      cells := cells + rowCells;
      y := y + 1;
    }
    if y != RowEnd(h, s) {
      assert WindowRows(w, s, y) == [] == WindowRows(w, s, RowEnd(h, s));
    }
  }

  /**
   * A draw on the synchronous path: first the colour scan over the fog
   * bits, then, if the rebuild flag is up, the mesh scan over the cell bits;
   * the flag is lowered in any case. Returns the new state and the cells
   * whose colours and mesh data were regenerated.
   */
  method UpdateGeometry(c: Cache, s: Screen) returns (r: Cache, colors: seq<Point>, shapes: seq<Point>)
    ensures r == AfterDraw(c, s)
    ensures colors == ColorCells(c, s)
    ensures shapes == ShapeCells(c, s)
  {
    var fow;
    fow, colors := ScanWindow(c.bufferWidth, c.bufferHeight, s, c.fowWritten, c.MapWidth());
    var invalid := c.mapInvalid;
    shapes := [];
    if c.updateGeometry {
      invalid, shapes := ScanWindow(c.bufferWidth, c.bufferHeight, s, c.mapInvalid, c.bufferWidth);
    }
    r := c.(fowWritten := fow, mapInvalid := invalid, updateGeometry := false);
  }

  // ----- properties of a draw -----

  /**
   * A second draw over the same window right after the first regenerates
   * nothing and changes nothing.
   */
  lemma DrawIdempotent(c: Cache, s: Screen)
    ensures var c1 := AfterDraw(c, s);
      && ColorCells(c1, s) == []
      && ShapeCells(c1, s) == []
      && AfterDraw(c1, s) == c1
  {
    var c1 := AfterDraw(c, s);
    var window := Window(c.bufferWidth, c.bufferHeight, s);
    IndicesContain(window, c.MapWidth());
    DirtyNone(window, c1.fowWritten, c.MapWidth());
  }

  /**
   * A draw lowers the rebuild flag even when stale cells lie outside its
   * window: those bits stay set, yet no later draw regenerates them, over
   * any window, until another terrain change raises the flag.
   */
  lemma StaleCellsOutsideWindowWait(c: Cache, s: Screen, later: Screen, i: int)
    requires i in c.mapInvalid && i !in Indices(Window(c.bufferWidth, c.bufferHeight, s), c.bufferWidth)
    ensures var c1 := AfterDraw(c, s);
      && i in c1.mapInvalid
      && !c1.updateGeometry
      && ShapeCells(c1, later) == []
  {
  }

  /** A cell of a `w` by `h` mesh has a bit and a mesh byte offset inside the buffers. */
  lemma CellOffsetBound(p: Point, w: int, h: int)
    requires 0 <= p.x < w && 0 <= p.y < h
    ensures 0 <= Index(p, w) < w * h
    ensures 0 <= Index(p, w) * ShapeBytesPerField <= (w * h - 1) * ShapeBytesPerField
  {
    MulMonotone(p.y, h - 1, w);
    MulNonNegative(p.y, w);
  }

  /** Every cell of the window lies inside the mesh. */
  lemma WindowInMesh(c: Cache, s: Screen, p: Point)
    requires p in Window(c.bufferWidth, c.bufferHeight, s)
    ensures 0 <= p.x < c.bufferWidth && 0 <= p.y < c.bufferHeight
  {
    var window := Window(c.bufferWidth, c.bufferHeight, s);
    WindowRowsBounds(c.bufferWidth, s, RowEnd(c.bufferHeight, s));
    var k :| 0 <= k < |window| && window[k] == p;
  }

  /** Every regenerated cell lies inside the mesh, so its buffer offsets stay in range. */
  lemma PatchOffsetsInBuffer(c: Cache, s: Screen, p: Point)
    requires p in ColorCells(c, s) || p in ShapeCells(c, s)
    ensures 0 <= p.x < c.bufferWidth && 0 <= p.y < c.bufferHeight
    ensures 0 <= ColorBufferPos(c, p) < c.bufferWidth * c.bufferHeight
    ensures 0 <= ShapeByteOffset(c, p) <= (c.bufferWidth * c.bufferHeight - 1) * ShapeBytesPerField
  {
    var window := Window(c.bufferWidth, c.bufferHeight, s);
    if p in ColorCells(c, s) {
      DirtyMembers(window, c.fowWritten, c.MapWidth(), p);
    } else {
      DirtyMembers(window, c.mapInvalid, c.bufferWidth, p);
    }
    WindowInMesh(c, s, p);
    CellOffsetBound(p, c.bufferWidth, c.bufferHeight);
  }
}
