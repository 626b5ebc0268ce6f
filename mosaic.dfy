/**
 * generateImage: stitching a w by h block of map tiles, whose top-left tile
 * has global indices (sx, sy), into one canvas of 256w by 256h pixels.
 *
 * Downloading a tile URL and decoding the bytes it returns are one abstract
 * function giving a decoded tile, or the error that ends the build
 * (urlretrieve and Image.open raise; nothing is caught). It is applied to
 * the request whose Url is downloaded: UrlRoundTrip shows that the URL
 * determines the request and the request the URL, so a function of the one
 * is a function of the other.
 */
module Mosaic {
  import opened Wrappers
  import opened Decimal
  import opened Tiles
  import opened Arith

  newtype byte = b: int | 0 <= b < 256

  /** A pixel of an 'RGB' image. */
  datatype Rgb = Rgb(red: byte, green: byte, blue: byte)

  /** The colour of a freshly created 'RGB' image. */
  const Black := Rgb(0, 0, 0)

  /** A decoded tile image: its pixel at column px, row py, for 0 <= px, py < 256. */
  type Tile = (int, int) -> Rgb

  /** What downloading a tile URL and opening the downloaded file yields. */
  datatype Fetched = Decoded(tile: Tile) | FetchError

  /** The values that go into one tile URL. */
  datatype TileRequest = TileRequest(layer: Layer, x: int, y: int, zoom: int)

  /** The tile server together with the image decoder: the result for the URL Url(r) of request r. */
  type Fetcher = TileRequest -> Fetched

  const UrlPrefix := "https://mt0.google.com/vt?lyrs="

  /**
   * The URL requested for a tile,
   * https://mt0.google.com/vt?lyrs=<token>&x=<x>&y=<y>&z=<zoom>, with the
   * integers in decimal.
   */
  function Url(r: TileRequest): string
  {
    UrlPrefix + (Token(r.layer) + IndexFields(r))
  }

  /** The "&x=<x>&y=<y>&z=<zoom>" part of a tile URL. */
  function IndexFields(r: TileRequest): string
  {
    Field("&x=", r.x) + (Field("&y=", r.y) + Field("&z=", r.zoom))
  }

  /** A URL parameter: its key, with its "&" and "=", followed by the value in decimal. */
  function Field(key: string, v: int): string
  {
    key + IntToString(v)
  }

  /** Reads `key` followed by a decimal integer from the front of `s`. */
  function ReadField(key: string, s: string): Option<(int, string)>
  {
    match StripPrefix(key, s)
    case None => None
    case Some(t) => ReadInt(t)
  }

  /** Recovers the request values from a tile URL. */
  function ParseUrl(s: string): Option<TileRequest>
  {
    match StripPrefix(UrlPrefix, s)
    case None => None
    case Some(query) =>
      if |query| < 1 then None
      else match LayerOfToken(query[..1])
        case None => None
        case Some(layer) => ParseIndices(layer, query[1..])
  }

  /** Reads "&x=", "&y=" and "&z=" with their integers, which must end the URL. */
  function ParseIndices(layer: Layer, s: string): Option<TileRequest>
  {
    match ReadField("&x=", s)
    case None => None
    case Some((x, s2)) =>
      match ReadField("&y=", s2)
      case None => None
      case Some((y, s3)) =>
        match ReadField("&z=", s3)
        case None => None
        case Some((zoom, s4)) =>
          if s4 == [] then Some(TileRequest(layer, x, y, zoom)) else None
  }

  lemma ReadFieldOf(key: string, i: int, t: string)
    requires t == [] || !IsDigit(t[0])
    ensures ReadField(key, Field(key, i) + t) == Some((i, t))
  {
    assert Field(key, i) + t == key + (IntToString(i) + t);
    StripPrefixOf(key, IntToString(i) + t);
    ReadIntToString(i, t);
  }

  lemma ParseIndicesOf(r: TileRequest)
    ensures ParseIndices(r.layer, IndexFields(r)) == Some(r)
  {
    var fy, fz := Field("&y=", r.y), Field("&z=", r.zoom);
    assert (fy + fz)[0] == '&';
    ReadFieldOf("&x=", r.x, fy + fz);
    assert fz[0] == '&';
    ReadFieldOf("&y=", r.y, fz);
    assert fz + [] == fz;
    ReadFieldOf("&z=", r.zoom, []);
  }

  /** The URL carries exactly the layer, indices and zoom of the request. */
  lemma UrlRoundTrip(r: TileRequest)
    ensures ParseUrl(Url(r)) == Some(r)
  {
    var query := Token(r.layer) + IndexFields(r);
    StripPrefixOf(UrlPrefix, query);
    assert query[..1] == Token(r.layer) && query[1..] == IndexFields(r);
    ParseIndicesOf(r);
  }

  /** Different requests never share a URL. */
  lemma UrlInjective(r: TileRequest, q: TileRequest)
    ensures Url(r) == Url(q) ==> r == q
  {
    UrlRoundTrip(r);
    UrlRoundTrip(q);
  }

  /** The requests for the first h tiles of column gx of a sub-grid, top to bottom. */
  function Column(layer: Layer, gx: int, sy: int, h: nat, zoom: int): seq<TileRequest>
  {
    if h == 0 then [] else Column(layer, gx, sy, h - 1, zoom) + [TileRequest(layer, gx, sy + h - 1, zoom)]
  }

  lemma {:induction false} ColumnAt(layer: Layer, gx: int, sy: int, h: nat, zoom: int)
    ensures |Column(layer, gx, sy, h, zoom)| == h
    ensures forall j :: 0 <= j < h ==> Column(layer, gx, sy, h, zoom)[j] == TileRequest(layer, gx, sy + j, zoom)
  {
    if h > 0 {
      ColumnAt(layer, gx, sy, h - 1, zoom);
    }
  }

  lemma {:induction false} ColumnPrefix(layer: Layer, gx: int, sy: int, y: nat, h: nat, zoom: int)
    requires y <= h
    ensures Column(layer, gx, sy, y, zoom) <= Column(layer, gx, sy, h, zoom)
  {
    if y < h {
      ColumnPrefix(layer, gx, sy, y, h - 1, zoom);
    }
  }

  /**
   * The requests generateImage issues, in its order: the local x in the
   * outer loop, the local y in the inner one.
   */
  function RequestOrder(layer: Layer, sx: int, sy: int, w: nat, h: nat, zoom: int): seq<TileRequest>
  {
    if w == 0 then []
    else RequestOrder(layer, sx, sy, w - 1, h, zoom) + Column(layer, sx + w - 1, sy, h, zoom)
  }

  /** Entry k of the order is the tile (sx + k / h, sy + k % h). */
  lemma {:induction false} RequestOrderAt(layer: Layer, sx: int, sy: int, w: nat, h: nat, zoom: int)
    ensures |RequestOrder(layer, sx, sy, w, h, zoom)| == w * h
    ensures forall k :: 0 <= k < w * h ==>
      RequestOrder(layer, sx, sy, w, h, zoom)[k] == TileRequest(layer, sx + k / h, sy + k % h, zoom)
  {
    if w > 0 {
      RequestOrderAt(layer, sx, sy, w - 1, h, zoom);
      ColumnAt(layer, sx + w - 1, sy, h, zoom);
      var s := RequestOrder(layer, sx, sy, w, h, zoom);
      assert (w - 1) * h + h == w * h;
      forall k | 0 <= k < w * h
        ensures s[k] == TileRequest(layer, sx + k / h, sy + k % h, zoom)
      {
        if k >= (w - 1) * h {
          DivModOf(k, w - 1, k - (w - 1) * h, h);
        }
      }
    }
  }

  /** generateImage never asks for the same tile twice. */
  lemma RequestOrderDistinct(layer: Layer, sx: int, sy: int, w: nat, h: nat, zoom: int)
    ensures var s := RequestOrder(layer, sx, sy, w, h, zoom);
      forall i, j :: 0 <= i < j < |s| ==> s[i] != s[j]
  {
    var s := RequestOrder(layer, sx, sy, w, h, zoom);
    RequestOrderAt(layer, sx, sy, w, h, zoom);
    forall i, j | 0 <= i < j < |s| ensures s[i] != s[j] {
      IndexInGrid(i, w, h);
      IndexInGrid(j, w, h);
    }
  }

  lemma RequestOrderHas(layer: Layer, sx: int, sy: int, w: nat, h: nat, zoom: int, x: nat, y: nat)
    requires x < w && y < h
    ensures TileRequest(layer, sx + x, sy + y, zoom) in RequestOrder(layer, sx, sy, w, h, zoom)
  {
    var k := x * h + y;
    MulLe(x + 1, w, h);
    assert (x + 1) * h == x * h + h;
    DivModOf(k, x, y, h);
    RequestOrderAt(layer, sx, sy, w, h, zoom);
    assert RequestOrder(layer, sx, sy, w, h, zoom)[k] == TileRequest(layer, sx + x, sy + y, zoom);
  }

  lemma RequestOrderOnly(layer: Layer, sx: int, sy: int, w: nat, h: nat, zoom: int, k: nat)
    requires k < |RequestOrder(layer, sx, sy, w, h, zoom)|
    ensures var r := RequestOrder(layer, sx, sy, w, h, zoom)[k];
      r.layer == layer && r.zoom == zoom && sx <= r.x < sx + w && sy <= r.y < sy + h
  {
    RequestOrderAt(layer, sx, sy, w, h, zoom);
    IndexInGrid(k, w, h);
  }

  /**
   * generateImage asks for the tile of every local pair (x, y),
   * 0 <= x < w, 0 <= y < h, and for no other tile.
   */
  lemma RequestOrderCovers(layer: Layer, sx: int, sy: int, w: nat, h: nat, zoom: int, r: TileRequest)
    ensures r in RequestOrder(layer, sx, sy, w, h, zoom) <==>
      r.layer == layer && r.zoom == zoom && sx <= r.x < sx + w && sy <= r.y < sy + h
  {
    var s := RequestOrder(layer, sx, sy, w, h, zoom);
    if r.layer == layer && r.zoom == zoom && sx <= r.x < sx + w && sy <= r.y < sy + h {
      RequestOrderHas(layer, sx, sy, w, h, zoom, r.x - sx, r.y - sy);
    }
    if r in s {
      var k :| 0 <= k < |s| && s[k] == r;
      RequestOrderOnly(layer, sx, sy, w, h, zoom, k);
    }
  }

  /** The order up to and including column x is where the full order starts. */
  lemma {:induction false} RequestOrderPrefix(layer: Layer, sx: int, sy: int, x: nat, w: nat, h: nat, zoom: int)
    requires x < w
    ensures RequestOrder(layer, sx, sy, x, h, zoom) + Column(layer, sx + x, sy, h, zoom)
      <= RequestOrder(layer, sx, sy, w, h, zoom)
  {
    if x < w - 1 {
      RequestOrderPrefix(layer, sx, sy, x, w - 1, h, zoom);
    }
  }

  /** The first request, in order, whose download or decoding fails. */
  function FirstFailure(fetch: Fetcher, reqs: seq<TileRequest>): (r: Option<TileRequest>)
    ensures r.Some? ==> r.value in reqs && fetch(r.value).FetchError?
  {
    if reqs == [] then None
    else if fetch(reqs[0]).FetchError? then Some(reqs[0])
    else FirstFailure(fetch, reqs[1..])
  }

  /** There is no failure exactly when every request decodes. */
  lemma {:induction false} FirstFailureNone(fetch: Fetcher, reqs: seq<TileRequest>)
    ensures FirstFailure(fetch, reqs).None? <==> forall k :: 0 <= k < |reqs| ==> fetch(reqs[k]).Decoded?
  {
    if reqs != [] {
      FirstFailureNone(fetch, reqs[1..]);
      if fetch(reqs[0]).Decoded? {
        forall k | 0 < k < |reqs| ensures reqs[k] == reqs[1..][k - 1] { }
      }
    }
  }

  /** The failure reported is the earliest failing request. */
  lemma {:induction false} FirstFailureAt(fetch: Fetcher, reqs: seq<TileRequest>, k: nat)
    requires k < |reqs| && fetch(reqs[k]).FetchError?
    requires forall j :: 0 <= j < k ==> fetch(reqs[j]).Decoded?
    ensures FirstFailure(fetch, reqs) == Some(reqs[k])
  {
    if k > 0 {
      assert fetch(reqs[0]).Decoded?;
      forall j | 0 <= j < k - 1 ensures fetch(reqs[1..][j]).Decoded? {
        assert reqs[1..][j] == reqs[j + 1];
      }
      FirstFailureAt(fetch, reqs[1..], k - 1);
    }
  }

  lemma {:induction false} FirstFailureAppend(fetch: Fetcher, p: seq<TileRequest>, q: seq<TileRequest>)
    requires FirstFailure(fetch, p) == None
    ensures FirstFailure(fetch, p + q) == FirstFailure(fetch, q)
  {
    if p != [] {
      assert (p + q)[0] == p[0];
      assert (p + q)[1..] == p[1..] + q;
      FirstFailureAppend(fetch, p[1..], q);
    } else {
      assert p + q == q;
    }
  }

  /** Whether pixel (px, py) lies in the 256 by 256 block whose top-left pixel is (ox, oy). */
  predicate InBlock(px: int, py: int, ox: int, oy: int)
  {
    ox <= px < ox + 256 && oy <= py < oy + 256
  }

  /**
   * The pixel of the finished mosaic at (px, py): the pixel at the same
   * place within the tile the block of (px, py) was fetched for.
   */
  function MosaicPixel(fetch: Fetcher, layer: Layer, sx: int, sy: int, zoom: int, px: int, py: int): Rgb
  {
    match fetch(TileRequest(layer, sx + px / 256, sy + py / 256, zoom))
    case Decoded(tile) => tile(px % 256, py % 256)
    case FetchError => Black
  }

  lemma BlockCoordinates(p: int, k: int)
    requires 256 * k <= p < 256 * k + 256
    ensures p / 256 == k && p % 256 == p - 256 * k
  {
  }

  /**
   * The blocks of local tiles (x, y), 0 <= x < w, 0 <= y < h, at pixel
   * offsets (256x, 256y) cover the 256w by 256h canvas, and each pixel lies
   * in exactly one of them.
   */
  lemma BlocksPartitionCanvas(w: nat, h: nat, px: int, py: int)
    requires 0 <= px < 256 * w && 0 <= py < 256 * h
    ensures 0 <= px / 256 < w && 0 <= py / 256 < h
    ensures forall x, y :: InBlock(px, py, 256 * x, 256 * y) <==> x == px / 256 && y == py / 256
  {
    forall x, y | InBlock(px, py, 256 * x, 256 * y) ensures x == px / 256 && y == py / 256 {
      BlockCoordinates(px, x);
      BlockCoordinates(py, y);
    }
  }

  /**
   * Image.paste of a 256 by 256 tile with its top-left pixel at (ox, oy):
   * the block takes the tile's pixels, nothing outside it changes.
   */
  method Paste(img: array2<Rgb>, tile: Tile, ox: nat, oy: nat)
    requires ox + 256 <= img.Length0 && oy + 256 <= img.Length1
    modifies img
    ensures forall px, py :: 0 <= px < img.Length0 && 0 <= py < img.Length1 ==>
      img[px, py] == if InBlock(px, py, ox, oy) then tile(px - ox, py - oy) else old(img[px, py])
  {
    for i := 0 to 256
      invariant forall px, py :: 0 <= px < img.Length0 && 0 <= py < img.Length1 ==>
        img[px, py] == if ox <= px < ox + i && oy <= py < oy + 256 then tile(px - ox, py - oy) else old(img[px, py])
    {
      for j := 0 to 256
        invariant forall px, py :: 0 <= px < img.Length0 && 0 <= py < img.Length1 ==>
          img[px, py] ==
            if (ox <= px < ox + i && oy <= py < oy + 256) || (px == ox + i && oy <= py < oy + j)
            then tile(px - ox, py - oy) else old(img[px, py])
      {
        img[ox + i, oy + j] := tile(i, j);
      }
    }
  }

  /**
   * The canvas as far as the pastes have got: every pixel left of column
   * cx, and every pixel of the block column starting at cx above row cy,
   * holds the mosaic's pixel; the rest is still black.
   */
  ghost predicate FilledUpTo(fetch: Fetcher, img: array2<Rgb>, layer: Layer, sx: int, sy: int, zoom: int, cx: int, cy: int)
    reads img
  {
    forall px, py :: 0 <= px < img.Length0 && 0 <= py < img.Length1 ==>
      img[px, py] ==
        if px < cx || (px < cx + 256 && py < cy) then MosaicPixel(fetch, layer, sx, sy, zoom, px, py) else Black
  }

  lemma {:induction false} FirstFailureOfPrefix(fetch: Fetcher, p: seq<TileRequest>, q: seq<TileRequest>)
    requires FirstFailure(fetch, p).Some?
    ensures FirstFailure(fetch, p + q) == FirstFailure(fetch, p)
  {
    assert (p + q)[0] == p[0];
    if fetch(p[0]).Decoded? {
      assert (p + q)[1..] == p[1..] + q;
      FirstFailureOfPrefix(fetch, p[1..], q);
    }
  }

  /** Within the block of local tile (x, y), the mosaic shows that tile's pixels. */
  lemma PastedTileIsMosaic(fetch: Fetcher, layer: Layer, sx: int, sy: int, zoom: int, x: int, y: int)
    requires fetch(TileRequest(layer, sx + x, sy + y, zoom)).Decoded?
    ensures forall px, py :: InBlock(px, py, 256 * x, 256 * y) ==>
      MosaicPixel(fetch, layer, sx, sy, zoom, px, py)
        == fetch(TileRequest(layer, sx + x, sy + y, zoom)).tile(px - 256 * x, py - 256 * y)
  {
    forall px, py | InBlock(px, py, 256 * x, 256 * y)
      ensures MosaicPixel(fetch, layer, sx, sy, zoom, px, py)
        == fetch(TileRequest(layer, sx + x, sy + y, zoom)).tile(px - 256 * x, py - 256 * y)
    {
      BlockCoordinates(px, x);
      BlockCoordinates(py, y);
    }
  }

  /** A failure at row y of a column whose rows above all decode is the column's first failure. */
  lemma ColumnFailure(fetch: Fetcher, layer: Layer, gx: int, sy: int, y: nat, h: nat, zoom: int)
    requires y < h
    requires FirstFailure(fetch, Column(layer, gx, sy, y, zoom)) == None
    requires fetch(TileRequest(layer, gx, sy + y, zoom)).FetchError?
    ensures Column(layer, gx, sy, y + 1, zoom) <= Column(layer, gx, sy, h, zoom)
    ensures FirstFailure(fetch, Column(layer, gx, sy, h, zoom)) == Some(TileRequest(layer, gx, sy + y, zoom))
  {
    var req := TileRequest(layer, gx, sy + y, zoom);
    var column, done := Column(layer, gx, sy, h, zoom), Column(layer, gx, sy, y + 1, zoom);
    var before := Column(layer, gx, sy, y, zoom);
    ColumnPrefix(layer, gx, sy, y + 1, h, zoom);
    assert column == done + column[|done|..];
    FirstFailureAppend(fetch, before, [req] + column[|done|..]);
    assert before + ([req] + column[|done|..]) == column;
  }

  /**
   * Pastes the decoded tile of local tile (x, y) at pixel offset
   * (256x, 256y), which advances the filled part of the canvas by that block.
   */
  method PasteBlock(fetch: Fetcher, img: array2<Rgb>, sx: int, sy: int, x: nat, y: nat, w: nat, h: nat,
                    zoom: int, layer: Layer, tile: Tile)
    requires x < w && y < h && img.Length0 == 256 * w && img.Length1 == 256 * h
    requires fetch(TileRequest(layer, sx + x, sy + y, zoom)) == Decoded(tile)
    requires FilledUpTo(fetch, img, layer, sx, sy, zoom, 256 * x, 256 * y)
    modifies img
    ensures FilledUpTo(fetch, img, layer, sx, sy, zoom, 256 * x, 256 * (y + 1))
  {
    Paste(img, tile, 256 * x, 256 * y);
    PastedTileIsMosaic(fetch, layer, sx, sy, zoom, x, y);
  }

  /** A decoded request appended to a column without failures extends the column by one tile. */
  lemma ColumnStep(fetch: Fetcher, layer: Layer, gx: int, sy: int, y: nat, zoom: int)
    requires FirstFailure(fetch, Column(layer, gx, sy, y, zoom)) == None
    requires fetch(TileRequest(layer, gx, sy + y, zoom)).Decoded?
    ensures Column(layer, gx, sy, y + 1, zoom) == Column(layer, gx, sy, y, zoom) + [TileRequest(layer, gx, sy + y, zoom)]
    ensures FirstFailure(fetch, Column(layer, gx, sy, y + 1, zoom)) == None
  {
    FirstFailureAppend(fetch, Column(layer, gx, sy, y, zoom), [TileRequest(layer, gx, sy + y, zoom)]);
  }

  /**
   * The inner loop of generateImage, for local column x: fetches the tiles
   * (sx + x, sy + y) for y = 0, ..., h - 1 in turn and pastes each at pixel
   * offset (256x, 256y); the first failing request ends it.
   */
  method PasteColumn(fetch: Fetcher, img: array2<Rgb>, sx: int, sy: int, x: nat, w: nat, h: nat,
                     zoom: int, layer: Layer)
    returns (err: Option<TileRequest>, ghost requests: seq<TileRequest>)
    requires x < w && img.Length0 == 256 * w && img.Length1 == 256 * h
    requires FilledUpTo(fetch, img, layer, sx, sy, zoom, 256 * x, 0)
    modifies img
    ensures err == FirstFailure(fetch, Column(layer, sx + x, sy, h, zoom))
    ensures err.None? ==> requests == Column(layer, sx + x, sy, h, zoom)
    ensures err.None? ==> FilledUpTo(fetch, img, layer, sx, sy, zoom, 256 * x, 256 * h)
    ensures err.Some? ==>
      requests <= Column(layer, sx + x, sy, h, zoom) && requests != [] && requests[|requests| - 1] == err.value
  {
    requests := [];
    err := None;
    for y := 0 to h
      invariant requests == Column(layer, sx + x, sy, y, zoom)
      invariant FirstFailure(fetch, requests) == None
      invariant FilledUpTo(fetch, img, layer, sx, sy, zoom, 256 * x, 256 * y)
    {
      var req := TileRequest(layer, sx + x, sy + y, zoom);
      match fetch(req) {
        case FetchError =>
          ColumnFailure(fetch, layer, sx + x, sy, y, h, zoom);
          err := Some(req);
          requests := requests + [req];
          return;
        case Decoded(tile) =>
          PasteBlock(fetch, img, sx, sy, x, y, w, h, zoom, layer, tile);
          ColumnStep(fetch, layer, sx + x, sy, y, zoom);
          requests := requests + [req];
      }
    }
  }

  /** A failure in column x, when the columns before it all decode, is the first failure of the whole order. */
  lemma {:induction false} OrderFailure(fetch: Fetcher, layer: Layer, sx: int, sy: int, x: nat, w: nat, h: nat, zoom: int)
    requires x < w
    requires FirstFailure(fetch, RequestOrder(layer, sx, sy, x, h, zoom)) == None
    requires FirstFailure(fetch, Column(layer, sx + x, sy, h, zoom)).Some?
    ensures FirstFailure(fetch, RequestOrder(layer, sx, sy, w, h, zoom))
      == FirstFailure(fetch, Column(layer, sx + x, sy, h, zoom))
  {
    if w == x + 1 {
      FirstFailureAppend(fetch, RequestOrder(layer, sx, sy, x, h, zoom), Column(layer, sx + x, sy, h, zoom));
    } else {
      OrderFailure(fetch, layer, sx, sy, x, w - 1, h, zoom);
      FirstFailureOfPrefix(fetch, RequestOrder(layer, sx, sy, w - 1, h, zoom), Column(layer, sx + w - 1, sy, h, zoom));
    }
  }

  /** The requests issued up to a point inside column x are a prefix of the whole order. */
  lemma PartialOrderPrefix(layer: Layer, sx: int, sy: int, x: nat, w: nat, h: nat, zoom: int, part: seq<TileRequest>)
    requires x < w && part <= Column(layer, sx + x, sy, h, zoom)
    ensures RequestOrder(layer, sx, sy, x, h, zoom) + part <= RequestOrder(layer, sx, sy, w, h, zoom)
  {
    var before := RequestOrder(layer, sx, sy, x, h, zoom);
    RequestOrderPrefix(layer, sx, sy, x, w, h, zoom);
    assert before + part <= before + Column(layer, sx + x, sy, h, zoom);
  }

  /** Every pixel of the canvas is the mosaic's pixel at that place. */
  ghost predicate ShowsMosaic(fetch: Fetcher, img: array2<Rgb>, layer: Layer, sx: int, sy: int, zoom: int)
    reads img
  {
    forall px, py :: 0 <= px < img.Length0 && 0 <= py < img.Length1 ==>
      img[px, py] == MosaicPixel(fetch, layer, sx, sy, zoom, px, py)
  }

  /** A canvas filled up to its right edge shows the mosaic everywhere. */
  lemma FilledCanvas(fetch: Fetcher, img: array2<Rgb>, layer: Layer, sx: int, sy: int, zoom: int)
    requires FilledUpTo(fetch, img, layer, sx, sy, zoom, img.Length0, 0)
    ensures ShowsMosaic(fetch, img, layer, sx, sy, zoom)
  {
  }

  /** Appending a column without failures to an order without failures extends the order by one column. */
  lemma OrderStep(fetch: Fetcher, layer: Layer, sx: int, sy: int, x: nat, h: nat, zoom: int)
    requires FirstFailure(fetch, RequestOrder(layer, sx, sy, x, h, zoom)) == None
    requires FirstFailure(fetch, Column(layer, sx + x, sy, h, zoom)) == None
    ensures RequestOrder(layer, sx, sy, x + 1, h, zoom)
      == RequestOrder(layer, sx, sy, x, h, zoom) + Column(layer, sx + x, sy, h, zoom)
    ensures FirstFailure(fetch, RequestOrder(layer, sx, sy, x + 1, h, zoom)) == None
  {
    FirstFailureAppend(fetch, RequestOrder(layer, sx, sy, x, h, zoom), Column(layer, sx + x, sy, h, zoom));
  }

  /**
   * generateImage(start_x, start_y, tile_width, tile_height, zoom, layer).
   * The canvas is 256w by 256h pixels. The requests are issued in
   * RequestOrder; the first one that fails ends the build and is returned
   * as the error (the source raises). Without a failure, every pixel is the
   * matching pixel of the tile fetched for its block.
   */
  method GenerateImage(fetch: Fetcher, sx: int, sy: int, w: nat, h: nat, zoom: int, layer: Layer)
    returns (img: array2<Rgb>, err: Option<TileRequest>, ghost requests: seq<TileRequest>)
    ensures fresh(img)
    ensures img.Length0 == 256 * w && img.Length1 == 256 * h
    ensures err == FirstFailure(fetch, RequestOrder(layer, sx, sy, w, h, zoom))
    ensures err.None? ==> requests == RequestOrder(layer, sx, sy, w, h, zoom)
    ensures err.Some? ==>
      requests <= RequestOrder(layer, sx, sy, w, h, zoom) && requests != [] && requests[|requests| - 1] == err.value
    ensures err.None? ==> ShowsMosaic(fetch, img, layer, sx, sy, zoom)
  {
    img := new Rgb[256 * w, 256 * h]((px, py) => Black);
    requests := [];
    err := None;
    for x := 0 to w
      invariant requests == RequestOrder(layer, sx, sy, x, h, zoom)
      invariant FirstFailure(fetch, requests) == None
      invariant FilledUpTo(fetch, img, layer, sx, sy, zoom, 256 * x, 0)
    {
      var columnErr: Option<TileRequest>;
      ghost var columnRequests: seq<TileRequest>;
      columnErr, columnRequests := PasteColumn(fetch, img, sx, sy, x, w, h, zoom, layer);
      if columnErr.Some? {
        OrderFailure(fetch, layer, sx, sy, x, w, h, zoom);
        PartialOrderPrefix(layer, sx, sy, x, w, h, zoom, columnRequests);
        err := columnErr;
        requests := requests + columnRequests;
        return;
      }
      OrderStep(fetch, layer, sx, sy, x, h, zoom);
      requests := requests + columnRequests;
    }
    FilledCanvas(fetch, img, layer, sx, sy, zoom);
  }

  /**
   * The pixel at (px, py) after pasting the tiles of `order`, one after
   * another in that order, onto a black canvas; a request for global tile
   * (gx, gy) is pasted at offset (256 (gx - sx), 256 (gy - sy)).
   */
  function PixelAfterPastes(fetch: Fetcher, sx: int, sy: int, order: seq<TileRequest>, px: int, py: int): Rgb
  {
    if order == [] then Black
    else
      var last := order[|order| - 1];
      var ox, oy := 256 * (last.x - sx), 256 * (last.y - sy);
      if InBlock(px, py, ox, oy) && fetch(last).Decoded? then fetch(last).tile(px - ox, py - oy)
      else PixelAfterPastes(fetch, sx, sy, order[..|order| - 1], px, py)
  }

  /**
   * Pasting is order-independent: whatever the order of the pastes, as long
   * as they are the layer's tiles at that zoom and all decode, a pixel whose
   * block is among them ends up as the mosaic's pixel.
   */
  lemma {:induction false} PasteOrderIrrelevant(fetch: Fetcher, layer: Layer, sx: int, sy: int, zoom: int,
                                                order: seq<TileRequest>, px: int, py: int)
    requires forall k :: 0 <= k < |order| ==>
      order[k].layer == layer && order[k].zoom == zoom && fetch(order[k]).Decoded?
    requires TileRequest(layer, sx + px / 256, sy + py / 256, zoom) in order
    ensures PixelAfterPastes(fetch, sx, sy, order, px, py) == MosaicPixel(fetch, layer, sx, sy, zoom, px, py)
  {
    var n := |order|;
    var last, init := order[n - 1], order[..n - 1];
    var target := TileRequest(layer, sx + px / 256, sy + py / 256, zoom);
    var ox, oy := 256 * (last.x - sx), 256 * (last.y - sy);
    assert order == init + [last];
    if InBlock(px, py, ox, oy) {
      BlockCoordinates(px, last.x - sx);
      BlockCoordinates(py, last.y - sy);
      assert last == target;
    } else {
      OwnBlock(px, py);
      assert target != last;
      assert target in init;
      PasteOrderIrrelevant(fetch, layer, sx, sy, zoom, init, px, py);
    }
  }

  lemma OwnBlock(px: int, py: int)
    ensures InBlock(px, py, 256 * (px / 256), 256 * (py / 256))
  {
  }

  /**
   * The canvas generateImage builds does not depend on the order of its
   * pastes: any reordering of its requests gives the same pixels.
   */
  lemma MosaicIndependentOfOrder(fetch: Fetcher, layer: Layer, sx: int, sy: int, w: nat, h: nat, zoom: int,
                                 order: seq<TileRequest>, px: int, py: int)
    requires FirstFailure(fetch, RequestOrder(layer, sx, sy, w, h, zoom)) == None
    requires multiset(order) == multiset(RequestOrder(layer, sx, sy, w, h, zoom))
    requires 0 <= px < 256 * w && 0 <= py < 256 * h
    ensures PixelAfterPastes(fetch, sx, sy, order, px, py)
      == PixelAfterPastes(fetch, sx, sy, RequestOrder(layer, sx, sy, w, h, zoom), px, py)
      == MosaicPixel(fetch, layer, sx, sy, zoom, px, py)
  {
    var s := RequestOrder(layer, sx, sy, w, h, zoom);
    FirstFailureNone(fetch, s);
    BlocksPartitionCanvas(w, h, px, py);
    var target := TileRequest(layer, sx + px / 256, sy + py / 256, zoom);
    RequestOrderCovers(layer, sx, sy, w, h, zoom, target);
    assert target in multiset(order);
    forall k | 0 <= k < |order|
      ensures order[k].layer == layer && order[k].zoom == zoom && fetch(order[k]).Decoded?
    {
      assert order[k] in multiset(s);
      RequestOrderCovers(layer, sx, sy, w, h, zoom, order[k]);
    }
    PasteOrderIrrelevant(fetch, layer, sx, sy, zoom, order, px, py);
    forall k | 0 <= k < |s| ensures s[k].layer == layer && s[k].zoom == zoom && fetch(s[k]).Decoded? {
      RequestOrderCovers(layer, sx, sy, w, h, zoom, s[k]);
    }
    PasteOrderIrrelevant(fetch, layer, sx, sy, zoom, s, px, py);
  }
}
