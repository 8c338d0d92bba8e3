/**
 * Vertex colours of the background mesh: a brightness per map point from the
 * local slope, darkened at the map's edge and under the fog of war, and its
 * encoding as one float or as four bytes.
 */
module Shading {
  import opened Common
  import Geometry
  import JavaArith

  /**
   * What the colour of a map point depends on: the map size, whether the fog
   * of war is on, the visibility and height of each point, and the
   * visibility value that counts as fully visible.
   */
  datatype Light = Light(
    mapWidth: int,
    mapHeight: int,
    fowEnabled: bool,
    visibility: Point -> int,
    height: Point -> int,
    fullyVisible: int)

  /**
   * A point is black when it lies on the outermost ring or the two rows and
   * columns before the far edges, or when the fog of war is on and the
   * point is not visible.
   */
  predicate IsDark(l: Light, p: Point)
  {
    || p.x <= 0 || p.x >= l.mapWidth - 2
    || p.y <= 0 || p.y >= l.mapHeight - 2
    || (l.visibility(p) <= 0 && l.fowEnabled)
  }

  /** Brightness from the height step to the point above: 0.85 on flat ground, kept within 0.4..1.0. */
  function Luminance(heightStep: int): (f: real)
    ensures 0.4 <= f <= 1.0
    ensures heightStep >= 1 ==> f == 1.0
    ensures heightStep <= -3 ==> f == 0.4
    ensures -3 < heightStep < 1 ==> f == 0.85 + heightStep as real * 0.15
  {
    var raw := 0.85 + heightStep as real * 0.15;
    if raw > 1.0 then 1.0 else if raw < 0.4 then 0.4 else raw
  }

  /**
   * The colour intensity of one map point. A point is black exactly when it
   * is dark; otherwise it is the brightness of the height step from the
   * point to the one above it, in 0.4..1, scaled under fog by the point's
   * share of full visibility, so positive but never brighter than that share.
   */
  function Shade(l: Light, p: Point): (r: real)
    requires l.fullyVisible > 0
    ensures r == 0.0 <==> IsDark(l, p)
    ensures !l.fowEnabled && !IsDark(l, p) ==> 0.4 <= r <= 1.0
    ensures l.fowEnabled && !IsDark(l, p) ==> 0.0 < r <= l.visibility(p) as real / l.fullyVisible as real
    ensures !l.fowEnabled && !IsDark(l, p) ==> r == Luminance(l.height(Point(p.x, p.y - 1)) - l.height(p))
    ensures l.fowEnabled && !IsDark(l, p) ==>
              r == Luminance(l.height(Point(p.x, p.y - 1)) - l.height(p))
                   * (l.visibility(p) as real / l.fullyVisible as real)
  {
    if IsDark(l, p) then 0.0
    else
      var f := Luminance(l.height(Point(p.x, p.y - 1)) - l.height(p));
      if l.fowEnabled then
        var scale := l.visibility(p) as real / l.fullyVisible as real;
        assert l.visibility(p) > 0 && scale > 0.0;
        ScaleDown(f, scale);
        assert 0.0 < f * scale <= l.visibility(p) as real / l.fullyVisible as real;
        f * scale
      else f
  }

  /** Scaling by a positive factor keeps a brightness in 0.4..1 positive and at most the factor. */
  lemma ScaleDown(f: real, scale: real)
    requires 0.4 <= f <= 1.0 && scale > 0.0
    ensures 0.0 < f * scale <= scale
  {
    assert scale - f * scale == (1.0 - f) * scale;
  }

  /** A brighter slope never gives a darker point: Luminance is monotone in the height step. */
  lemma LuminanceMonotone(a: int, b: int)
    requires a <= b
    ensures Luminance(a) <= Luminance(b)
  {
  }

  /** The sample points of a cell's six colours, in the order they are written. */
  function ColorPoints(x: int, y: int): seq<Point>
  {
    [Point(x, y), Point(x, y + 1), Point(x + 1, y + 1),
     Point(x, y), Point(x + 1, y + 1), Point(x + 1, y)]
  }

  /**
   * The six colours of cell (x, y), one per sample point: black exactly at
   * the dark points, and equal where the two triangles share a corner.
   */
  function CellColors(l: Light, x: int, y: int): (r: seq<real>)
    requires l.fullyVisible > 0
    ensures |r| == 6
    ensures forall k | 0 <= k < 6 :: r[k] == 0.0 <==> IsDark(l, ColorPoints(x, y)[k])
    ensures r[0] == r[3] && r[2] == r[4]
  {
    seq(6, k requires 0 <= k < 6 => Shade(l, ColorPoints(x, y)[k]))
  }

  /**
   * Colour k of a cell belongs to vertex k of the same cell's mesh: both
   * buffers visit the cell's corners in the same order.
   */
  lemma ColorsFollowVertices(view: Geometry.MapView, d: Geometry.Drawing, l: Light, x: int, y: int)
    requires Geometry.ValidImageNumbers(view.imageNumber)
    requires l.fullyVisible > 0
    ensures var vs := Geometry.Cell(view, d, x, y);
      forall k | 0 <= k < 6 :: CellColors(l, x, y)[k] == Shade(l, vs[k].pos)
  {
    assert ColorPoints(x, y) == Geometry.CellPoints(x, y);
  }

  /**
   * The byte encoding of an intensity: grey written three times as the
   * truncated intensity times 255, then an opaque alpha byte.
   */
  function ColorBytes(f: real): (r: seq<int>)
    requires f >= 0.0
    ensures |r| == 4
    ensures r[0] == r[1] == r[2] && -128 <= r[0] <= 127
    ensures (r[0] - (f * 255.0).Floor) % 256 == 0
    ensures r[3] == -1
  {
    var grey := JavaArith.ToByte((f * 255.0).Floor);
    [grey, grey, grey, JavaArith.ToByte(255)]
  }

  /**
   * For an intensity in 0..1 each grey byte, read unsigned, is the intensity
   * scaled to 0..255 and rounded down, and alpha reads as 255; black is
   * the zero byte.
   */
  lemma ColorBytesUnsigned(f: real)
    requires 0.0 <= f <= 1.0
    ensures var r := ColorBytes(f);
      && (forall k | 0 <= k < 3 :: r[k] % 256 == (f * 255.0).Floor)
      && r[3] % 256 == 255
      && (f == 0.0 ==> r[0] == 0)
      && (f == 1.0 ==> r[0] == -1)
  {
    var v := (f * 255.0).Floor;
    assert 0 <= v <= 255;
  }
}
