/**
 * Building the background atlas. Each landscape image is decoded line by
 * line into the square of its tile; once an image is complete, the block of
 * decoded lines is repeated down the rest of the square. A decoder failure
 * stops the build and leaves the atlas as far as it got.
 */
module Atlas {
  import opened Common
  import opened TextureTable
  import JavaArith

  /** Number of texels of the atlas, stored row by row. */
  const AtlasLength: int := TextureSize * TextureSize

  /**
   * What the decoder delivers for one landscape image: the lines it passed
   * to the writer, in order, and whether it finished (false when it threw
   * an `IOException` after those lines).
   */
  datatype Image = Image(lines: seq<seq<int>>, complete: bool)

  /** Every line the decoder passes on has at least one texel. */
  predicate LinesNonEmpty(image: Image)
  {
    forall k | 0 <= k < |image.lines| :: |image.lines[k]| > 0
  }

  /** The texel at (row, col) of the atlas. */
  function At(data: seq<int>, row: int, col: int): int
    requires |data| == AtlasLength && 0 <= row < TextureSize && 0 <= col < TextureSize
  {
    data[row * TextureSize + col]
  }

  /** Texel i of a square row drawn from a decoded line: the line repeats across the row. */
  function LineTexel(line: seq<int>, i: int): int
    requires |line| > 0 && i >= 0
  {
    line[i % |line|]
  }

  /** Two atlas positions with columns inside a row are the same position exactly when row and column agree. */
  lemma IndexUnique(r1: int, c1: int, r2: int, c2: int)
    requires 0 <= c1 < TextureSize && 0 <= c2 < TextureSize
    ensures r1 * TextureSize + c1 == r2 * TextureSize + c2 <==> r1 == r2 && c1 == c2
  {
  }

  // ----- the line writer -----

  /**
   * The decoder's line sink: the atlas, the offset where the next line
   * starts, the width of a square row and the offset where the square ends.
   */
  datatype Writer = Writer(data: seq<int>, arrayOffset: int, cellSize: int, maxOffset: int)

  /**
   * One decoded line. While the square has rows left, the line is repeated
   * across the next row of the square and the offset moves down one atlas
   * row; lines past the square's last row are dropped.
   */
  function WriteLine(w: Writer, line: seq<int>): (r: Writer)
    requires |line| > 0 && w.cellSize >= 0
    requires w.arrayOffset < w.maxOffset ==> 0 <= w.arrayOffset && w.arrayOffset + w.cellSize <= |w.data|
    ensures |r.data| == |w.data| && r.cellSize == w.cellSize && r.maxOffset == w.maxOffset
    ensures w.arrayOffset >= w.maxOffset ==> r == w
    ensures w.arrayOffset < w.maxOffset ==>
      && r.arrayOffset == w.arrayOffset + TextureSize
      && forall j | 0 <= j < |w.data| ::
           r.data[j] == if w.arrayOffset <= j < w.arrayOffset + w.cellSize
                        then LineTexel(line, j - w.arrayOffset) else w.data[j]
  {
    if w.arrayOffset < w.maxOffset then
      var off := w.arrayOffset;
      var row := seq(w.cellSize, i requires 0 <= i < w.cellSize => line[i % |line|]);
      w.(data := w.data[..off] + row + w.data[off + w.cellSize..], arrayOffset := off + TextureSize)
    else w
  }

  /**
   * Writing a line at the start of square row y, columns x0..x0+n-1,
   * changes exactly that row segment of the atlas.
   */
  lemma WriteLineAt(w: Writer, line: seq<int>, y: int, x0: int)
    requires |w.data| == AtlasLength && |line| > 0
    requires 0 <= y < TextureSize && 0 <= x0 && 0 <= w.cellSize && x0 + w.cellSize <= TextureSize
    requires w.arrayOffset == y * TextureSize + x0 < w.maxOffset
    ensures var r := WriteLine(w, line);
      forall row, col | 0 <= row < TextureSize && 0 <= col < TextureSize ::
        At(r.data, row, col)
        == if row == y && x0 <= col < x0 + w.cellSize then LineTexel(line, col - x0) else At(w.data, row, col)
  {
    var r := WriteLine(w, line);
    forall row, col | 0 <= row < TextureSize && 0 <= col < TextureSize
      ensures At(r.data, row, col)
              == if row == y && x0 <= col < x0 + w.cellSize then LineTexel(line, col - x0) else At(w.data, row, col)
    {
      var j := row * TextureSize + col;
      if row == y {
        assert w.arrayOffset <= j < w.arrayOffset + w.cellSize <==> x0 <= col < x0 + w.cellSize;
      } else if row < y {
        assert j < w.arrayOffset;
      } else {
        assert j >= w.arrayOffset + w.cellSize;
      }
    }
  }

  /**
   * `System.arraycopy` of one square row: `len` texels from offset `src`
   * to offset `dst`, as if through a temporary copy.
   */
  function CopyRow(data: seq<int>, src: int, dst: int, len: int): (r: seq<int>)
    requires 0 <= len && 0 <= src && src + len <= |data| && 0 <= dst && dst + len <= |data|
    ensures |r| == |data|
    ensures forall j | 0 <= j < |data| :: r[j] == if dst <= j < dst + len then data[src + j - dst] else data[j]
  {
    data[..dst] + data[src..src + len] + data[dst + len..]
  }

  /** Copying square row `from` onto square row `to`, columns x0..x0+n-1, changes exactly that segment of row `to`. */
  lemma CopyRowAt(data: seq<int>, from: int, to: int, x0: int, n: int)
    requires |data| == AtlasLength
    requires 0 <= from < TextureSize && 0 <= to < TextureSize && 0 <= x0 && 0 <= n && x0 + n <= TextureSize
    ensures var r := CopyRow(data, from * TextureSize + x0, to * TextureSize + x0, n);
      forall row, col | 0 <= row < TextureSize && 0 <= col < TextureSize ::
        At(r, row, col) == if row == to && x0 <= col < x0 + n then At(data, from, col) else At(data, row, col)
  {
    var dst := to * TextureSize + x0;
    var r := CopyRow(data, from * TextureSize + x0, dst, n);
    forall row, col | 0 <= row < TextureSize && 0 <= col < TextureSize
      ensures At(r, row, col) == if row == to && x0 <= col < x0 + n then At(data, from, col) else At(data, row, col)
    {
      var j := row * TextureSize + col;
      if row == to {
        assert dst <= j < dst + n <==> x0 <= col < x0 + n;
      } else if row < to {
        assert j < dst;
      } else {
        assert j >= dst + n;
      }
    }
  }

  // ----- one tile -----

  /** The first atlas row of a tile's square. */
  function Top(tile: Tile): int { tile.gridY * Grid }

  /** The first atlas column of a tile's square. */
  function Left(tile: Tile): int { tile.gridX * Grid }

  /** The edge length of a tile's square, in texels. */
  function Side(tile: Tile): int { tile.size * Grid }

  /** Whether (row, col) lies in the tile's square. */
  predicate InSquare(tile: Tile, row: int, col: int)
  {
    Top(tile) <= row < Top(tile) + Side(tile) && Left(tile) <= col < Left(tile) + Side(tile)
  }

  /** The number of decoded lines that land in the square: the rest are dropped. */
  function Landed(tile: Tile, image: Image): int
  {
    if |image.lines| < Side(tile) then |image.lines| else Side(tile)
  }

  /**
   * The texel at (row, col) once the first k lines of a decoded image have
   * been written: a written square row shows its line repeated, every
   * other texel keeps its value `prev`.
   */
  function Written(prev: int, tile: Tile, lines: seq<seq<int>>, k: int, row: int, col: int): int
    requires 0 <= k <= |lines| && forall i | 0 <= i < |lines| :: |lines[i]| > 0
  {
    if InSquare(tile, row, col) && row - Top(tile) < k && row - Top(tile) < Side(tile)
    then LineTexel(lines[row - Top(tile)], col - Left(tile))
    else prev
  }

  /**
   * The texel at (row, col) after a tile's image has been added over a
   * texel that was `prev`. With h lines landed (h > 0), square row i shows
   * line i mod h repeated across the row; an incomplete image only shows
   * its h rows; an image without lines leaves the square alone.
   */
  function Painted(prev: int, tile: Tile, image: Image, row: int, col: int): int
    requires LinesNonEmpty(image)
  {
    var h := Landed(tile, image);
    var filled := if image.complete then Side(tile) else h;
    if InSquare(tile, row, col) && h > 0 && row - Top(tile) < filled
    then LineTexel(image.lines[(row - Top(tile)) % h], col - Left(tile))
    else prev
  }

  /** Copy-loop state: square rows before t show the repeated block of h lines, the rest are as before. */
  function Filled(prev: int, tile: Tile, lines: seq<seq<int>>, h: int, t: int, row: int, col: int): int
    requires 0 <= h <= |lines| && forall i | 0 <= i < |lines| :: |lines[i]| > 0
  {
    if InSquare(tile, row, col) && h > 0 && row - Top(tile) < t
    then LineTexel(lines[(row - Top(tile)) % h], col - Left(tile))
    else prev
  }

  /** The atlas `r` during the copy loop: the first t square rows repeat the block of h lines. */
  predicate FilledUpTo(data: seq<int>, tile: Tile, lines: seq<seq<int>>, h: int, t: int, r: seq<int>)
    requires |data| == AtlasLength && 0 <= h <= |lines| && forall i | 0 <= i < |lines| :: |lines[i]| > 0
  {
    && |r| == AtlasLength
    && forall row, col | 0 <= row < TextureSize && 0 <= col < TextureSize ::
         At(r, row, col) == Filled(At(data, row, col), tile, lines, h, t, row, col)
  }

  /** Row t of the square repeats row t - h: the block of h lines has period h. */
  lemma ModShift(t: int, h: int)
    requires 0 < h <= t
    ensures (t - h) % h == t % h
  {
    var q, m := (t - h) / h, (t - h) % h;
    assert t == (q + 1) * h + m;
    JavaArith.ModUnique(t, h, q + 1, m);
  }

  /** The offset where the writer starts a tile: the square's top-left texel. */
  function Start(tile: Tile): int { Top(tile) * TextureSize + Left(tile) }

  /** The offset one atlas row below the square's bottom-left texel, where the writer stops. */
  function End(tile: Tile): int { (Top(tile) + Side(tile)) * TextureSize + Left(tile) }

  /** The writer state once k lines of an image have been written into a tile. */
  predicate WriterAfter(data: seq<int>, tile: Tile, lines: seq<seq<int>>, k: int, w: Writer)
    requires |data| == AtlasLength && 0 <= k <= |lines| && forall i | 0 <= i < |lines| :: |lines[i]| > 0
  {
    && |w.data| == AtlasLength && w.cellSize == Side(tile) && w.maxOffset == End(tile)
    && w.arrayOffset == Start(tile) + (if k < Side(tile) then k else Side(tile)) * TextureSize
    && forall row, col | 0 <= row < TextureSize && 0 <= col < TextureSize ::
         At(w.data, row, col) == Written(At(data, row, col), tile, lines, k, row, col)
  }

  /** Writing line k moves the writer from its state after k lines to its state after k + 1. */
  lemma {:induction false} WriteStep(data: seq<int>, tile: Tile, lines: seq<seq<int>>, k: int, w: Writer)
    requires |data| == AtlasLength && Fits(tile)
    requires 0 <= k < |lines| && forall i | 0 <= i < |lines| :: |lines[i]| > 0
    requires WriterAfter(data, tile, lines, k, w)
    ensures w.arrayOffset < w.maxOffset ==> 0 <= w.arrayOffset && w.arrayOffset + w.cellSize <= |w.data|
    ensures WriterAfter(data, tile, lines, k + 1, WriteLine(w, lines[k]))
  {
    var r := WriteLine(w, lines[k]);
    if k < Side(tile) {
      WriteLineAt(w, lines[k], Top(tile) + k, Left(tile));
      forall row, col | 0 <= row < TextureSize && 0 <= col < TextureSize
        ensures At(r.data, row, col) == Written(At(data, row, col), tile, lines, k + 1, row, col)
      {
      }
    } else {
      assert r == w;
      forall row, col | 0 <= row < TextureSize && 0 <= col < TextureSize
        ensures At(r.data, row, col) == Written(At(data, row, col), tile, lines, k + 1, row, col)
      {
      }
    }
  }

  /**
   * Copying square row t - h onto square row t, when the first t rows
   * already repeat the block of h lines, makes the first t + 1 rows repeat it.
   */
  lemma CopyStep(data: seq<int>, tile: Tile, lines: seq<seq<int>>, h: int, t: int, r: seq<int>)
    requires |data| == AtlasLength && Fits(tile) && |r| == AtlasLength
    requires 0 <= h <= |lines| && forall i | 0 <= i < |lines| :: |lines[i]| > 0
    requires h <= t < Side(tile)
    requires FilledUpTo(data, tile, lines, h, t, r)
    ensures FilledUpTo(data, tile, lines, h, t + 1,
                       CopyRow(r, Start(tile) + (t - h) * TextureSize, Start(tile) + t * TextureSize, Side(tile)))
  {
    var from, to := Top(tile) + t - h, Top(tile) + t;
    assert Start(tile) + (t - h) * TextureSize == from * TextureSize + Left(tile);
    assert Start(tile) + t * TextureSize == to * TextureSize + Left(tile);
    CopyRowFills(data, tile, lines, h, t, r, from, to);
  }

  /** `CopyStep` with the two square rows given by their atlas row numbers. */
  lemma CopyRowFills(data: seq<int>, tile: Tile, lines: seq<seq<int>>, h: int, t: int, r: seq<int>,
                     from: int, to: int)
    requires |data| == AtlasLength && Fits(tile) && |r| == AtlasLength
    requires 0 <= h <= |lines| && forall i | 0 <= i < |lines| :: |lines[i]| > 0
    requires h <= t < Side(tile) && from == Top(tile) + t - h && to == Top(tile) + t
    requires FilledUpTo(data, tile, lines, h, t, r)
    ensures FilledUpTo(data, tile, lines, h, t + 1,
                       CopyRow(r, from * TextureSize + Left(tile), to * TextureSize + Left(tile), Side(tile)))
  {
    CopyRowAt(r, from, to, Left(tile), Side(tile));
    var next := CopyRow(r, from * TextureSize + Left(tile), to * TextureSize + Left(tile), Side(tile));
    forall row, col | 0 <= row < TextureSize && 0 <= col < TextureSize
      ensures At(next, row, col) == Filled(At(data, row, col), tile, lines, h, t + 1, row, col)
    {
      FilledNext(At(data, row, col), At(data, from, col), tile, lines, h, t, row, col);
    }
  }

  /**
   * One more filled square row, texel by texel: row t of the square takes
   * the value the filled texel h rows above it had (`above`), or keeps its
   * own value when there is no block; every other texel is unchanged.
   */
  lemma FilledNext(prev: int, above: int, tile: Tile, lines: seq<seq<int>>, h: int, t: int, row: int, col: int)
    requires Fits(tile) && 0 <= h <= |lines| && forall i | 0 <= i < |lines| :: |lines[i]| > 0
    requires h <= t < Side(tile)
    ensures Filled(prev, tile, lines, h, t + 1, row, col)
      == if row == Top(tile) + t && Left(tile) <= col < Left(tile) + Side(tile)
         then (if h > 0 then Filled(above, tile, lines, h, t, Top(tile) + t - h, col) else prev)
         else Filled(prev, tile, lines, h, t, row, col)
  {
    if h > 0 {
      ModShift(t, h);
    }
  }

  /**
   * After all lines are written, the atlas shows the landed lines once each:
   * this is already the final picture of an incomplete image, and for a
   * complete one it is the repeated block with h rows done.
   */
  lemma WrittenAllLines(prev: int, tile: Tile, image: Image, row: int, col: int)
    requires Fits(tile) && LinesNonEmpty(image)
    ensures var all := Written(prev, tile, image.lines, |image.lines|, row, col);
      && all == Filled(prev, tile, image.lines, Landed(tile, image), Landed(tile, image), row, col)
      && (!image.complete ==> all == Painted(prev, tile, image, row, col))
  {
    var h := Landed(tile, image);
    if InSquare(tile, row, col) && row - Top(tile) < h {
      JavaArith.ModUnique(row - Top(tile), h, 0, row - Top(tile));
    }
  }

  /**
   * Feeds an image's decoded lines to a writer set up on the tile's square,
   * as the decoder does; returns the atlas and the writer's final offset.
   */
  method WriteImage(data: seq<int>, tile: Tile, image: Image) returns (r: seq<int>, arrayOffset: int)
    requires |data| == AtlasLength && Fits(tile) && LinesNonEmpty(image)
    ensures arrayOffset == Start(tile) + Landed(tile, image) * TextureSize
    ensures FilledUpTo(data, tile, image.lines, Landed(tile, image), Landed(tile, image), r)
    ensures !image.complete ==> TileAdded(data, tile, image, r)
  {
    var x := tile.gridX * Grid;
    var y := tile.gridY * Grid;
    var start := y * TextureSize + x;
    var cellSize := tile.size * Grid;
    var end := (y + cellSize) * TextureSize + x;
    var w := Writer(data, start, cellSize, end);
    var k := 0;
    while k < |image.lines|
      invariant 0 <= k <= |image.lines|
      invariant WriterAfter(data, tile, image.lines, k, w)
    {
      WriteStep(data, tile, image.lines, k, w);
      w := WriteLine(w, image.lines[k]);
      k := k + 1;
    }
    forall row, col | 0 <= row < TextureSize && 0 <= col < TextureSize {
      WrittenAllLines(At(data, row, col), tile, image, row, col);
    }
    r, arrayOffset := w.data, w.arrayOffset;
  }

  /**
   * The "freaky" copy loop after a complete image: starting from the
   * writer's final offset, every square row that received no line is
   * copied from the row h rows above it, h being the number of lines that
   * landed.
   */
  method RepeatBlock(data: seq<int>, tile: Tile, lines: seq<seq<int>>, h: int, written: seq<int>,
                     arrayOffset: int) returns (r: seq<int>)
    requires |data| == AtlasLength && Fits(tile)
    requires 0 <= h <= |lines| && forall i | 0 <= i < |lines| :: |lines[i]| > 0
    requires h <= Side(tile) && arrayOffset == Start(tile) + h * TextureSize
    requires FilledUpTo(data, tile, lines, h, h, written)
    ensures FilledUpTo(data, tile, lines, h, Side(tile), r)
  {
    var start := Start(tile);
    var end := End(tile);
    var cellSize := Side(tile);
    var l := arrayOffset - start;
    var offset := arrayOffset;
    var t := h;
    r := written;
    while offset < end
      invariant h <= t <= cellSize && offset == start + t * TextureSize && l == h * TextureSize
      invariant FilledUpTo(data, tile, lines, h, t, r)
      decreases end - offset
    {
      CopyStep(data, tile, lines, h, t, r);
      r := CopyRow(r, offset - l, offset, cellSize);
      offset := offset + TextureSize;
      t := t + 1;
    }
  }

  /** Once every square row repeats the block, the square shows the complete image. */
  lemma FilledIsPainted(data: seq<int>, tile: Tile, image: Image, r: seq<int>)
    requires |data| == AtlasLength && Fits(tile) && LinesNonEmpty(image) && image.complete
    requires FilledUpTo(data, tile, image.lines, Landed(tile, image), Side(tile), r)
    ensures TileAdded(data, tile, image, r)
  {
  }

  /** `r` is the atlas `data` with a tile's image added. */
  predicate TileAdded(data: seq<int>, tile: Tile, image: Image, r: seq<int>)
    requires |data| == AtlasLength && LinesNonEmpty(image)
  {
    && |r| == AtlasLength
    && forall row, col | 0 <= row < TextureSize && 0 <= col < TextureSize ::
         At(r, row, col) == Painted(At(data, row, col), tile, image, row, col)
  }

  /**
   * Adds one tile's image to the atlas: the decoder's lines go through the
   * writer, then, if the image is complete, the block of landed lines is
   * repeated down the square.
   */
  method AddTile(data: seq<int>, tile: Tile, image: Image) returns (r: seq<int>)
    requires |data| == AtlasLength && Fits(tile) && LinesNonEmpty(image)
    ensures TileAdded(data, tile, image, r)
  {
    var arrayOffset;
    r, arrayOffset := WriteImage(data, tile, image);
    if image.complete {
      r := RepeatBlock(data, tile, image.lines, Landed(tile, image), r, arrayOffset);
      FilledIsPainted(data, tile, image, r);
    }
  }

  // ----- what one tile's picture looks like -----

  /** Texels outside a tile's square keep their value. */
  lemma OutsideSquareKept(prev: int, tile: Tile, image: Image, row: int, col: int)
    requires LinesNonEmpty(image) && !InSquare(tile, row, col)
    ensures Painted(prev, tile, image, row, col) == prev
  {
  }

  /** An image without lines leaves the whole atlas as it was, complete or not. */
  lemma EmptyImageKeeps(prev: int, tile: Tile, image: Image, row: int, col: int)
    requires LinesNonEmpty(image) && image.lines == []
    ensures Painted(prev, tile, image, row, col) == prev
  {
  }

  /**
   * An incomplete image shows only the rows it delivered: square rows from
   * the number of landed lines on keep their value, earlier ones show their
   * own line.
   */
  lemma IncompleteShowsDeliveredRows(prev: int, tile: Tile, image: Image, row: int, col: int)
    requires Fits(tile) && LinesNonEmpty(image) && !image.complete && InSquare(tile, row, col)
    ensures row - Top(tile) >= |image.lines| ==> Painted(prev, tile, image, row, col) == prev
    ensures row - Top(tile) < |image.lines| ==>
      Painted(prev, tile, image, row, col) == LineTexel(image.lines[row - Top(tile)], col - Left(tile))
  {
    var i := row - Top(tile);
    if i < |image.lines| {
      JavaArith.ModUnique(i, Landed(tile, image), 0, i);
    }
  }

  /**
   * A complete image with at least one line covers its whole square, so
   * the square shows the image whatever was there before.
   */
  lemma CompleteOverwrites(p1: int, p2: int, tile: Tile, image: Image, row: int, col: int)
    requires Fits(tile) && LinesNonEmpty(image) && image.complete && |image.lines| > 0
    requires InSquare(tile, row, col)
    ensures Painted(p1, tile, image, row, col) == Painted(p2, tile, image, row, col)
  {
  }

  /**
   * Down a complete image's square the picture repeats with the number of
   * landed lines as period.
   */
  lemma RowPeriodic(prev1: int, prev2: int, tile: Tile, image: Image, row: int, col: int)
    requires Fits(tile) && LinesNonEmpty(image) && image.complete && |image.lines| > 0
    requires InSquare(tile, row, col) && InSquare(tile, row + Landed(tile, image), col)
    ensures Painted(prev1, tile, image, row, col) == Painted(prev2, tile, image, row + Landed(tile, image), col)
  {
    var h := Landed(tile, image);
    ModShift(row - Top(tile) + h, h);
  }

  /** Across a square row the picture repeats with the length of the row's line as period. */
  lemma ColumnPeriodic(prev1: int, prev2: int, tile: Tile, image: Image, row: int, col: int)
    requires Fits(tile) && LinesNonEmpty(image) && |image.lines| > 0
    requires InSquare(tile, row, col)
    requires var i := row - Top(tile);
      0 <= i && (image.complete || i < |image.lines|)
      && InSquare(tile, row, col + |image.lines[i % Landed(tile, image)]|)
    ensures Painted(prev1, tile, image, row, col)
      == Painted(prev2, tile, image, row, col + |image.lines[(row - Top(tile)) % Landed(tile, image)]|)
  {
    var line := image.lines[(row - Top(tile)) % Landed(tile, image)];
    ModShift(col - Left(tile) + |line|, |line|);
  }

  // ----- the whole atlas -----

  /** One decoded image per atlas tile, each line non-empty. */
  predicate WellFormed(images: seq<Image>)
  {
    |images| == TileCount && forall j | 0 <= j < |images| :: LinesNonEmpty(images[j])
  }

  /** Entry j of the tile table. */
  function TileOf(j: int): (t: Tile)
    requires 0 <= j < TileCount
    ensures Fits(t)
  {
    PositionsFit();
    Positions[j]
  }

  /** The texel at (row, col) after the first k tiles have been added to `data`. */
  function Build(data: seq<int>, images: seq<Image>, k: int, row: int, col: int): int
    requires |data| == AtlasLength && WellFormed(images) && 0 <= k <= |images|
    requires 0 <= row < TextureSize && 0 <= col < TextureSize
    decreases k
  {
    if k == 0 then At(data, row, col)
    else Painted(Build(data, images, k - 1, row, col), TileOf(k - 1), images[k - 1], row, col)
  }

  /** `r` is the atlas `data` with the first k tiles added. */
  predicate Built(data: seq<int>, images: seq<Image>, k: int, r: seq<int>)
    requires |data| == AtlasLength && WellFormed(images) && 0 <= k <= |images|
  {
    && |r| == AtlasLength
    && forall row, col | 0 <= row < TextureSize && 0 <= col < TextureSize ::
         At(r, row, col) == Build(data, images, k, row, col)
  }

  /** Adding tile k to the atlas built from the first k tiles gives the atlas built from k + 1. */
  lemma BuildStep(data: seq<int>, images: seq<Image>, k: int, r: seq<int>, next: seq<int>)
    requires |data| == AtlasLength && WellFormed(images) && 0 <= k < |images|
    requires Built(data, images, k, r) && TileAdded(r, TileOf(k), images[k], next)
    ensures Built(data, images, k + 1, next)
  {
  }

  /** Adds tile k to the atlas built from the first k tiles. */
  method AddNext(data: seq<int>, images: seq<Image>, k: int, r: seq<int>) returns (next: seq<int>)
    requires |data| == AtlasLength && WellFormed(images) && 0 <= k < |images|
    requires Built(data, images, k, r)
    ensures Built(data, images, k + 1, next)
  {
    next := AddTile(r, TileOf(k), images[k]);
    BuildStep(data, images, k, r, next);
  }

  /**
   * Where the build stops: after the first incomplete image, whose failure
   * ends it, or after the last tile. `n` counts the tiles that were started.
   */
  predicate StopsAt(images: seq<Image>, n: int)
  {
    && 0 <= n <= |images|
    && (forall j | 0 <= j < n - 1 :: images[j].complete)
    && (n == |images| || (n > 0 && !images[n - 1].complete))
  }

  /** The build stops at one place only. */
  lemma StopsAtUnique(images: seq<Image>, n: int, m: int)
    requires StopsAt(images, n) && StopsAt(images, m)
    ensures n == m
  {
  }

  /**
   * The atlas builder (`addTextures`): adds the tiles in table order, and
   * stops with a failure after an image whose decoding failed. Returns the
   * atlas, the number of tiles started and whether every image decoded.
   */
  method AddTextures(data: seq<int>, images: seq<Image>) returns (r: seq<int>, started: int, ok: bool)
    requires |data| == AtlasLength && WellFormed(images)
    ensures |r| == AtlasLength && StopsAt(images, started)
    ensures ok <==> forall j | 0 <= j < |images| :: images[j].complete
    ensures Built(data, images, started, r)
  {
    r := data;
    var index := 0;
    while index < |images|
      invariant 0 <= index <= |images|
      invariant forall j | 0 <= j < index :: images[j].complete
      invariant Built(data, images, index, r)
    {
      r := AddNext(data, images, index, r);
      if !images[index].complete {
        return r, index + 1, false;
      }
      assert forall j | 0 <= j < index + 1 :: images[j].complete by {
        assert images[index].complete;
      }
      index := index + 1;
    }
    return r, index, true;
  }

  /** The freshly allocated atlas. */
  function Zeros(): (r: seq<int>)
    ensures |r| == AtlasLength && forall i | 0 <= i < |r| :: r[i] == 0
  {
    seq(AtlasLength, i => 0)
  }

  /**
   * `getTexture`: a zeroed atlas with the tiles added; a missing file
   * reader (`None`) or a failing image leaves what was built so far.
   */
  method GetTexture(reader: Option<seq<Image>>) returns (r: seq<int>)
    requires reader.Some? ==> WellFormed(reader.value)
    ensures |r| == AtlasLength
    ensures reader.None? ==> forall i | 0 <= i < |r| :: r[i] == 0
    ensures reader.Some? ==> exists n :: StopsAt(reader.value, n) && Built(Zeros(), reader.value, n, r)
  {
    r := Zeros();
    if reader.Some? {
      var started, ok;
      r, started, ok := AddTextures(r, reader.value);
    }
  }

  /** A texel that none of the first n tiles covers keeps its value. */
  lemma {:induction false} UncoveredKept(data: seq<int>, images: seq<Image>, n: int, row: int, col: int)
    requires |data| == AtlasLength && WellFormed(images) && 0 <= n <= |images|
    requires 0 <= row < TextureSize && 0 <= col < TextureSize
    requires forall j | 0 <= j < n :: !InSquare(TileOf(j), row, col)
    ensures Build(data, images, n, row, col) == At(data, row, col)
  {
    if n > 0 {
      UncoveredKept(data, images, n - 1, row, col);
    }
  }

  /**
   * The last complete, non-empty tile covering a texel decides it: nothing
   * added before that tile shows through.
   */
  lemma {:induction false} LastTileWins(data: seq<int>, images: seq<Image>, k: int, n: int, row: int, col: int)
    requires |data| == AtlasLength && WellFormed(images) && 0 <= k < n <= |images|
    requires 0 <= row < TextureSize && 0 <= col < TextureSize
    requires images[k].complete && |images[k].lines| > 0 && InSquare(TileOf(k), row, col)
    requires forall j | k < j < n :: !InSquare(TileOf(j), row, col)
    ensures Build(data, images, n, row, col) == Painted(0, TileOf(k), images[k], row, col)
  {
    if n == k + 1 {
      CompleteOverwrites(Build(data, images, k, row, col), 0, TileOf(k), images[k], row, col);
    } else {
      LastTileWins(data, images, k, n - 1, row, col);
    }
  }

  /**
   * Tiles 98 and 105 share a grid square, so once tile 105 is added with a
   * complete image, the square shows image 105 and nothing of image 98.
   */
  lemma SharedSquareShowsLater(data: seq<int>, images: seq<Image>, row: int, col: int)
    requires |data| == AtlasLength && WellFormed(images)
    requires 0 <= row < TextureSize && 0 <= col < TextureSize
    requires images[105].complete && |images[105].lines| > 0 && InSquare(TileOf(98), row, col)
    ensures Build(data, images, 106, row, col) == Painted(0, TileOf(105), images[105], row, col)
  {
    SharedSquare();
    LastTileWins(data, images, 105, 106, row, col);
  }
}
