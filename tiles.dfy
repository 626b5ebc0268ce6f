/**
 * The layer tokens and the longitude half of the coordinate-to-tile mapping
 * of the Web Mercator ("slippy map") tiling: at zoom z the world is a
 * 2^z by 2^z grid of 256-pixel tiles.
 *
 * Longitudes and the pixel arithmetic are ideal reals here; the source
 * computes them in IEEE doubles.
 */
module Tiles {
  import opened Wrappers

  /** Side of a tile in pixels. */
  const TileSize: nat := 256

  /** The map layers the tile server offers, each sent as a one-letter token. */
  datatype Layer = Roadmap | Terrain | AlteredRoadmap | Satellite | TerrainOnly | Hybrid

  /** The one-letter token of a layer, as put into the `lyrs=` URL parameter. */
  function Token(layer: Layer): (t: string)
    ensures |t| == 1
    ensures LayerOfToken(t) == Some(layer)
  {
    match layer
    case Roadmap => "v"
    case Terrain => "p"
    case AlteredRoadmap => "r"
    case Satellite => "s"
    case TerrainOnly => "t"
    case Hybrid => "y"
  }

  /** The layer a token names, if any. */
  function LayerOfToken(t: string): Option<Layer>
  {
    if t == "v" then Some(Roadmap)
    else if t == "p" then Some(Terrain)
    else if t == "r" then Some(AlteredRoadmap)
    else if t == "s" then Some(Satellite)
    else if t == "t" then Some(TerrainOnly)
    else if t == "y" then Some(Hybrid)
    else None
  }

  /** 2 to the power k. */
  function Pow2(k: nat): (p: nat)
    ensures p >= 1
  {
    if k == 0 then 1 else 2 * Pow2(k - 1)
  }

  /** Python's `v << k` for k >= 0: one doubling per bit shifted in. */
  function ShiftLeft(v: int, k: nat): int
    decreases k
  {
    if k == 0 then v else ShiftLeft(2 * v, k - 1)
  }

  /** Shifting left by k bits multiplies by 2^k. */
  lemma {:induction false} ShiftLeftIsMultiplication(v: int, k: nat)
    ensures ShiftLeft(v, k) == v * Pow2(k)
    decreases k
  {
    if k > 0 {
      ShiftLeftIsMultiplication(2 * v, k - 1);
      calc {
        ShiftLeft(v, k);
        ShiftLeft(2 * v, k - 1);
        (2 * v) * Pow2(k - 1);
        v * (2 * Pow2(k - 1));
        v * Pow2(k);
      }
    }
  }

  /** `numTiles = 1 << zoom`: the number of tiles along each side of the grid. */
  function NumTiles(zoom: nat): (n: nat)
    ensures n == Pow2(zoom)
  {
    ShiftLeftIsMultiplication(1, zoom);
    ShiftLeft(1, zoom)
  }

  /** The example the source gives for the shift: zoom 2 has 4 tiles a side. */
  lemma ZoomTwoHasFourTiles()
    ensures NumTiles(2) == 4
  {
  }

  /**
   * The x half of getTile, with ideal real arithmetic in place of doubles:
   * `(tile_size / 2 + lng * tile_size / 360) * numTiles // tile_size`,
   * where Python's `//` floors.
   */
  function TileX(lng: real, zoom: nat): (x: int)
    ensures x == ((lng + 180.0) * Pow2(zoom) as real / 360.0).Floor
  {
    assert (TileSize as real / 2.0 + lng * TileSize as real / 360.0) * NumTiles(zoom) as real / TileSize as real
      == (lng + 180.0) * Pow2(zoom) as real / 360.0;
    (((TileSize as real / 2.0 + lng * TileSize as real / 360.0) * NumTiles(zoom) as real) / TileSize as real).Floor
  }

  /** The longitude of the west edge of tile column k at the given zoom. */
  function WestEdge(k: int, zoom: nat): real
  {
    k as real * 360.0 / Pow2(zoom) as real - 180.0
  }

  /** Multiplying by a positive real keeps an order, both ways. */
  lemma ScalePositive(a: real, b: real, c: real)
    requires c > 0.0
    ensures a <= b <==> a * c <= b * c
    ensures a < b <==> a * c < b * c
  {
    if a <= b {
      assert (b - a) * c >= 0.0;
    } else {
      assert (a - b) * c > 0.0;
    }
    if a < b {
      assert (b - a) * c > 0.0;
    } else {
      assert (a - b) * c >= 0.0;
    }
  }

  /** The column of a longitude is k exactly when the longitude lies in [WestEdge(k), WestEdge(k + 1)). */
  lemma TileXColumn(lng: real, zoom: nat, k: int)
    ensures TileX(lng, zoom) == k <==> WestEdge(k, zoom) <= lng < WestEdge(k + 1, zoom)
  {
    WestEdgeScaled(lng, zoom, k);
    WestEdgeScaled(lng, zoom, k + 1);
  }

  /** A longitude is at or east of the west edge of column k exactly when its scaled position is at least k. */
  lemma WestEdgeScaled(lng: real, zoom: nat, k: int)
    ensures WestEdge(k, zoom) <= lng <==> k as real <= (lng + 180.0) * Pow2(zoom) as real / 360.0
  {
    var n := Pow2(zoom) as real;
    var lo := k as real * 360.0 / n;
    assert WestEdge(k, zoom) <= lng <==> lo <= lng + 180.0;
    ScaleBack(k as real, n);
    assert (lng + 180.0) * (n / 360.0) == (lng + 180.0) * n / 360.0;
    ScaledOrder(lo, lng + 180.0, n / 360.0, k as real, (lng + 180.0) * n / 360.0);
  }

  /** Two reals compare as their images under the same positive scaling do. */
  lemma ScaledOrder(a: real, b: real, c: real, a': real, b': real)
    requires c > 0.0 && a * c == a' && b * c == b'
    ensures a <= b <==> a' <= b'
    ensures a < b <==> a' < b'
  {
    ScalePositive(a, b, c);
  }

  lemma ScaleBack(a: real, n: real)
    requires n > 0.0
    ensures a * 360.0 / n * (n / 360.0) == a
  {
    var q := a * 360.0 / n;
    assert q * n == a * 360.0;
  }

  /** A longitude lands on the grid, 0 <= x < 2^zoom, exactly when -180 <= lng < 180. */
  lemma TileXInGrid(lng: real, zoom: nat)
    ensures 0 <= TileX(lng, zoom) < Pow2(zoom) <==> -180.0 <= lng < 180.0
  {
    var n := Pow2(zoom) as real;
    var v := (lng + 180.0) * n / 360.0;
    assert TileX(lng, zoom) == v.Floor;
    ScaledOrder(0.0, lng + 180.0, n / 360.0, 0.0, v);
    ScaledOrder(lng + 180.0, 360.0, n / 360.0, v, n);
  }

  /** Moving east never moves to a column further west. */
  lemma TileXMonotone(lng1: real, lng2: real, zoom: nat)
    requires lng1 <= lng2
    ensures TileX(lng1, zoom) <= TileX(lng2, zoom)
  {
    var n := Pow2(zoom) as real;
    ScalePositive(lng1 + 180.0, lng2 + 180.0, n / 360.0);
    assert (lng1 + 180.0) * (n / 360.0) == (lng1 + 180.0) * n / 360.0;
    assert (lng2 + 180.0) * (n / 360.0) == (lng2 + 180.0) * n / 360.0;
  }

  /** The prime meridian falls on the left edge of the middle column, 2^(zoom-1). */
  lemma TileXPrimeMeridian(zoom: nat)
    requires zoom >= 1
    ensures TileX(0.0, zoom) == Pow2(zoom - 1)
  {
    var h := Pow2(zoom - 1);
    assert Pow2(zoom) == 2 * h;
    assert (0.0 + 180.0) * (2 * h) as real / 360.0 == h as real;
  }
}
