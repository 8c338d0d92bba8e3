/**
 * Triangle geometry of the background mesh. Every map cell (x, y) is drawn as
 * an "up" and a "down" triangle; each triangle's three corner landscapes pick
 * an atlas tile and one of four texture layouts, and its three vertices carry
 * a map position, a height and texture coordinates.
 */
module Geometry {
  import opened Common
  import opened Landscapes
  import TextureTable
  import Borders
  import JavaArith

  /** Which of the four texture layouts a triangle uses. */
  datatype Orientation = Continuous | Straight | LeftSplit | RightSplit

  /**
   * The map's view as the mesh reads it: the landscape and height at a map
   * point and the landscape enumeration's image numbers.
   */
  datatype MapView = MapView(
    landscape: Point -> LandscapeType,
    height: Point -> int,
    imageNumber: LandscapeType -> int)

  /**
   * The constants the mesh takes from outside the background: the pixel
   * distances between map points, and the texture-space corner positions
   * of each layout for the up (true) and down (false) triangle.
   */
  datatype Drawing = Drawing(
    distanceX: int,
    distanceY: int,
    layout: (Orientation, bool) -> UvLayout)

  /** A texture-space position in texels; the layout tables hold floats. */
  datatype Texel = Texel(u: real, v: real)

  /** Texture-space positions for a triangle's three emitted vertices in order. */
  datatype UvLayout = UvLayout(first: Texel, second: Texel, third: Texel)

  /** The layout's texel for emitted vertex k. */
  function LayoutTexel(uv: UvLayout, k: int): Texel
    requires 0 <= k < 3
  {
    if k == 0 then uv.first else if k == 1 then uv.second else uv.third
  }

  /** The three sampled corners of a triangle. */
  datatype Corners = Corners(left: Point, a: Point, right: Point)

  /** One emitted vertex: map position, height and texture coordinates. */
  datatype Vertex = Vertex(pos: Point, height: int, u: real, v: real)

  /** A triangle's tile choice: its layout and atlas tile index. */
  datatype Choice = Choice(orientation: Orientation, textureIndex: int)

  /**
   * The corners a triangle of cell (x, y) samples. The up triangle has its
   * "a" corner at the cell's origin and the other two one row below; the
   * down triangle has "a" diagonally opposite the origin.
   */
  function TriangleCorners(x: int, y: int, up: bool): Corners
  {
    var y1 := y + (if up then 1 else 0);
    var x2 := x + (if up then 0 else 1);
    var y2 := y + (if up then 0 else 1);
    Corners(Point(x, y1), Point(x2, y2), Point(x + 1, y1))
  }

  /**
   * The secondary border variant is used when the triangle's seed is even:
   * `x*37 + y*17` for the up triangle and `x` for the down triangle.
   */
  function UseSecond(x: int, y: int, up: bool): bool
  {
    var seed := if up then x * 37 + y * 17 else x;
    seed % 2 == 0
  }

  /**
   * How a triangle's corners split: its layout, and for a border the outer
   * landscape (the two equal corners, or the corner the layout keeps) and
   * the inner one.
   */
  datatype Split = Split(orientation: Orientation, outer: LandscapeType, inner: LandscapeType)

  /**
   * Classifies a triangle by its corner landscapes: all equal is a
   * continuous fill; otherwise the pair of equal corners decides the layout.
   * When all three differ the up triangle borders `a` against `left` and
   * the down triangle borders `right` against `left`.
   */
  function SplitOf(left: LandscapeType, a: LandscapeType, right: LandscapeType, up: bool): (s: Split)
    ensures s.orientation == Continuous <==> a == left && a == right
    ensures s.orientation == Straight <==> left == right && a != left
    ensures s.orientation == LeftSplit <==> left == a && left != right
    ensures s.orientation == RightSplit <==> left != right && left != a
    ensures s.orientation == Straight ==> s.outer == left && s.inner == a
    ensures s.orientation == LeftSplit ==> s.outer == left && s.inner == right
    ensures s.orientation == RightSplit ==> s.inner == left && s.outer == (if up then a else right)
  {
    if a == left && a == right then Split(Continuous, a, a)
    else if left == right then Split(Straight, left, a)
    else if left == a then Split(LeftSplit, left, right)
    else Split(RightSplit, if up then a else right, left)
  }

  /**
   * The atlas tile of a triangle: a continuous fill uses the landscape's own
   * image, every other layout the border tile of its outer and inner
   * landscapes.
   */
  function Classify(imageNumber: LandscapeType -> int, left: LandscapeType, a: LandscapeType,
                    right: LandscapeType, up: bool, useSecond: bool): (c: Choice)
    ensures c.orientation == SplitOf(left, a, right, up).orientation
    ensures c.orientation == Continuous ==> c.textureIndex == imageNumber(a)
    ensures c.orientation != Continuous ==>
              c.textureIndex == Borders.GetBorder(imageNumber, SplitOf(left, a, right, up).outer,
                                                  SplitOf(left, a, right, up).inner, useSecond)
  {
    var s := SplitOf(left, a, right, up);
    var index := if s.orientation == Continuous then imageNumber(a)
                 else Borders.GetBorder(imageNumber, s.outer, s.inner, useSecond);
    Choice(s.orientation, index)
  }

  /** Every image number names an atlas tile. */
  ghost predicate ValidImageNumbers(imageNumber: LandscapeType -> int)
  {
    forall t :: 0 <= imageNumber(t) < TextureTable.TileCount
  }

  /** A border tile index is an atlas tile whenever the image numbers are. */
  lemma BorderIsTile(imageNumber: LandscapeType -> int, outer: LandscapeType, inner: LandscapeType,
                     useSecond: bool)
    requires ValidImageNumbers(imageNumber)
    ensures 0 <= Borders.GetBorder(imageNumber, outer, inner, useSecond) < TextureTable.TileCount
  {
    if Borders.ExplicitBorder(outer, inner).Some? {
      Borders.ListedBorderIsTile(outer, inner);
    }
  }

  /** Every triangle's tile index is an atlas tile whenever the image numbers are. */
  lemma ChoiceIsTile(imageNumber: LandscapeType -> int, left: LandscapeType, a: LandscapeType,
                     right: LandscapeType, up: bool, useSecond: bool)
    requires ValidImageNumbers(imageNumber)
    ensures 0 <= Classify(imageNumber, left, a, right, up, useSecond).textureIndex < TextureTable.TileCount
  {
    var s := SplitOf(left, a, right, up);
    BorderIsTile(imageNumber, s.outer, s.inner, useSecond);
  }

  /**
   * The texel offset of a triangle's texture inside the atlas. A continuous
   * tile (two or more grid squares) repeats with a period of `size - 1`
   * grid squares, and the offset into it follows the cell's screen position;
   * a single-square tile is always drawn from its corner.
   */
  function TextureOffset(d: Drawing, tile: TextureTable.Tile, x: int, y: int): (o: Point)
    requires tile.size >= 1
    ensures tile.size == 1 ==> o == Point(tile.gridX * TextureTable.Grid, tile.gridY * TextureTable.Grid)
    ensures tile.size >= 2 ==>
      && (o.x - tile.gridX * TextureTable.Grid) % ((tile.size - 1) * TextureTable.Grid)
         == (x * d.distanceX - JavaArith.Div(y * d.distanceX, 2)) % ((tile.size - 1) * TextureTable.Grid)
      && (o.y - tile.gridY * TextureTable.Grid) % ((tile.size - 1) * TextureTable.Grid)
         == (y * d.distanceY) % ((tile.size - 1) * TextureTable.Grid)
  {
    var period := (tile.size - 1) * TextureTable.Grid;
    var addDx := if tile.size >= 2
      then JavaArith.RealModulo(x * d.distanceX - JavaArith.Div(y * d.distanceX, 2), period)
      else 0;
    var addDy := if tile.size >= 2 then JavaArith.RealModulo(y * d.distanceY, period) else 0;
    if tile.size >= 2 then
      JavaArith.RealModuloRange(x * d.distanceX - JavaArith.Div(y * d.distanceX, 2), period);
      JavaArith.RealModuloRange(y * d.distanceY, period);
      Point(addDx + tile.gridX * TextureTable.Grid, addDy + tile.gridY * TextureTable.Grid)
    else
      Point(addDx + tile.gridX * TextureTable.Grid, addDy + tile.gridY * TextureTable.Grid)
  }

  /**
   * A continuous tile's offset stays within one period of the tile's corner,
   * both ends included; a single-square tile's offset is exactly its corner.
   */
  lemma TextureOffsetRange(d: Drawing, tile: TextureTable.Tile, x: int, y: int)
    requires tile.size >= 1
    ensures var o := TextureOffset(d, tile, x, y);
      var cx, cy := tile.gridX * TextureTable.Grid, tile.gridY * TextureTable.Grid;
      var period := (tile.size - 1) * TextureTable.Grid;
      && cx <= o.x <= cx + period
      && cy <= o.y <= cy + period
      && (tile.size == 1 ==> o == Point(cx, cy))
  {
    if tile.size >= 2 {
      var period := (tile.size - 1) * TextureTable.Grid;
      JavaArith.RealModuloRange(x * d.distanceX - JavaArith.Div(y * d.distanceX, 2), period);
      JavaArith.RealModuloRange(y * d.distanceY, period);
    }
  }

  /** The layout and atlas tile index a triangle of cell (x, y) chooses from its corner landscapes. */
  function TriangleChoice(view: MapView, x: int, y: int, up: bool, useSecond: bool): (choice: Choice)
    requires ValidImageNumbers(view.imageNumber)
    ensures 0 <= choice.textureIndex < TextureTable.TileCount
  {
    var c := TriangleCorners(x, y, up);
    ChoiceIsTile(view.imageNumber, view.landscape(c.left), view.landscape(c.a),
                 view.landscape(c.right), up, useSecond);
    Classify(view.imageNumber, view.landscape(c.left), view.landscape(c.a),
             view.landscape(c.right), up, useSecond)
  }

  /** The atlas tile a triangle of cell (x, y) is textured from. */
  function TriangleTile(view: MapView, x: int, y: int, up: bool, useSecond: bool): (tile: TextureTable.Tile)
    requires ValidImageNumbers(view.imageNumber)
    ensures tile == TextureTable.Positions[TriangleChoice(view, x, y, up, useSecond).textureIndex]
    ensures 1 <= tile.size
  {
    TextureTable.PositionsFit();
    TextureTable.Positions[TriangleChoice(view, x, y, up, useSecond).textureIndex]
  }

  /**
   * The three vertices of one triangle of cell (x, y). The up triangle emits
   * its corners in the order a, left, right and the down triangle in the
   * order left, a, right; the layout's three texture positions are shifted
   * by the tile offset and scaled to the atlas size.
   */
  function Triangle(view: MapView, d: Drawing, x: int, y: int, up: bool, useSecond: bool): (r: seq<Vertex>)
    requires ValidImageNumbers(view.imageNumber)
    ensures |r| == 3
    ensures r[0].pos == if up then TriangleCorners(x, y, up).a else TriangleCorners(x, y, up).left
    ensures r[1].pos == if up then TriangleCorners(x, y, up).left else TriangleCorners(x, y, up).a
    ensures r[2].pos == TriangleCorners(x, y, up).right
    ensures forall k | 0 <= k < 3 :: r[k].height == view.height(r[k].pos)
  {
    var c := TriangleCorners(x, y, up);
    var choice := TriangleChoice(view, x, y, up, useSecond);
    var offset := TextureOffset(d, TriangleTile(view, x, y, up, useSecond), x, y);
    var uv := d.layout(choice.orientation, up);
    var points := if up then [c.a, c.left, c.right] else [c.left, c.a, c.right];
    seq(3, k requires 0 <= k < 3 =>
      Vertex(points[k], view.height(points[k]),
             (LayoutTexel(uv, k).u + offset.x as real) / TextureTable.TextureSize as real,
             (LayoutTexel(uv, k).v + offset.y as real) / TextureTable.TextureSize as real))
  }

  /**
   * A texel shift lies in a tile's repeat region: within one period
   * (size - 1 grid squares) right of and below the tile's corner, and
   * exactly at the corner for a single-square tile.
   */
  predicate InTileRegion(tile: TextureTable.Tile, du: real, dv: real)
  {
    var cx, cy := (tile.gridX * TextureTable.Grid) as real, (tile.gridY * TextureTable.Grid) as real;
    var period := ((tile.size - 1) * TextureTable.Grid) as real;
    && cx <= du <= cx + period
    && cy <= dv <= cy + period
  }

  /**
   * Every vertex's texture coordinates, scaled back to texels, are the
   * layout's texel for that vertex shifted by this cell's own offset into
   * the tile the corner landscapes chose, and that shift lies in the
   * tile's repeat region.
   */
  lemma TriangleTexture(view: MapView, d: Drawing, x: int, y: int, up: bool, useSecond: bool)
    requires ValidImageNumbers(view.imageNumber)
    ensures forall k | 0 <= k < 3 ::
      Triangle(view, d, x, y, up, useSecond)[k].u * TextureTable.TextureSize as real
        - LayoutTexel(d.layout(TriangleChoice(view, x, y, up, useSecond).orientation, up), k).u
      == TextureOffset(d, TriangleTile(view, x, y, up, useSecond), x, y).x as real
    ensures forall k | 0 <= k < 3 ::
      Triangle(view, d, x, y, up, useSecond)[k].v * TextureTable.TextureSize as real
        - LayoutTexel(d.layout(TriangleChoice(view, x, y, up, useSecond).orientation, up), k).v
      == TextureOffset(d, TriangleTile(view, x, y, up, useSecond), x, y).y as real
    ensures forall k | 0 <= k < 3 ::
      InTileRegion(TriangleTile(view, x, y, up, useSecond),
        Triangle(view, d, x, y, up, useSecond)[k].u * TextureTable.TextureSize as real
          - LayoutTexel(d.layout(TriangleChoice(view, x, y, up, useSecond).orientation, up), k).u,
        Triangle(view, d, x, y, up, useSecond)[k].v * TextureTable.TextureSize as real
          - LayoutTexel(d.layout(TriangleChoice(view, x, y, up, useSecond).orientation, up), k).v)
  {
    var tile := TriangleTile(view, x, y, up, useSecond);
    var offset := TextureOffset(d, tile, x, y);
    TextureOffsetRange(d, tile, x, y);
    var r := Triangle(view, d, x, y, up, useSecond);
    var uv := d.layout(TriangleChoice(view, x, y, up, useSecond).orientation, up);
    forall k | 0 <= k < 3
      ensures r[k].u * TextureTable.TextureSize as real - LayoutTexel(uv, k).u == offset.x as real
      ensures r[k].v * TextureTable.TextureSize as real - LayoutTexel(uv, k).v == offset.y as real
    {
    }
  }

  /** The map points of a cell's six vertices, in emission order. */
  function CellPoints(x: int, y: int): seq<Point>
  {
    [Point(x, y), Point(x, y + 1), Point(x + 1, y + 1),
     Point(x, y), Point(x + 1, y + 1), Point(x + 1, y)]
  }

  /**
   * The six vertices of cell (x, y), the up triangle and then the down
   * triangle. They lie on the cell's four corners in the fixed order above,
   * so both triangles share the diagonal from (x, y) to (x + 1, y + 1), and
   * each carries the map height of its own point.
   */
  function Cell(view: MapView, d: Drawing, x: int, y: int): (r: seq<Vertex>)
    requires ValidImageNumbers(view.imageNumber)
    ensures |r| == 6
    ensures forall k | 0 <= k < 6 :: r[k].pos == CellPoints(x, y)[k]
    ensures forall k | 0 <= k < 6 :: r[k].height == view.height(r[k].pos)
    ensures r[..3] == Triangle(view, d, x, y, true, UseSecond(x, y, true))
    ensures r[3..] == Triangle(view, d, x, y, false, UseSecond(x, y, false))
  {
    Triangle(view, d, x, y, true, UseSecond(x, y, true))
      + Triangle(view, d, x, y, false, UseSecond(x, y, false))
  }

  /**
   * The up triangle's border variant alternates like a checkerboard
   * (secondary when x + y is even) and the down triangle's by column
   * (secondary when x is even).
   */
  lemma UseSecondParity(x: int, y: int)
    ensures UseSecond(x, y, true) <==> (x + y) % 2 == 0
    ensures UseSecond(x, y, false) <==> x % 2 == 0
  {
    var seed := x * 37 + y * 17;
    assert seed == (x + y) + 2 * (18 * x + 8 * y);
    JavaArith.ModUnique(seed, 2, (x + y) / 2 + 18 * x + 8 * y, (x + y) % 2);
  }
}
