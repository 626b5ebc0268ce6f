# google-maps-download, modelled in Dafny

`download.py` downloads Google Maps tiles and stitches them into large
images. This project models its core and proves properties of the model.

- **Layers.** The six map layers and the one-letter token each one puts
  into a tile URL.
- **`getTile`, longitude half.** At zoom `z` the world is a `2^z` by `2^z`
  grid of 256-pixel tiles. `numTiles = 1 << zoom` is `2^z`. The x index of a
  longitude is `floor((128 + lng·256/360)·2^z / 256)`. The model computes it
  over ideal reals and proves the following:
  - it is the usual slippy-map column, floor((lng + 180)·2^z / 360);
  - it lands on the grid exactly for longitudes in [-180, 180);
  - it is monotone in the longitude;
  - the prime meridian maps to column `2^(z-1)`.
- **`generateImage`.** It builds a canvas of 256·w by 256·h pixels, starting
  black. For local x (outer loop) and local y (inner loop), it requests the
  tile `(start_x + x, start_y + y)` at the given zoom and layer. The tile is
  requested by a URL that carries these four values in decimal. Each tile is
  pasted at pixel offset `(256x, 256y)`. The model proves:
  - the requests are exactly the tiles of the w by h rectangle, each once,
    in column-major order;
  - the URL determines the request;
  - the blocks partition the canvas;
  - a paste writes its block and nothing else;
  - without a failure, every pixel of the result is the matching pixel of
    the tile fetched for its block, whatever order the pastes come in;
  - the first failing download or decode ends the build, and it is the
    earliest failing request in the loop order.
- **The scan in `main`.** Sub-grid origins run over `range(ty0, ty1, step)`
  (outer) and `range(tx0, tx1, step)` (inner). A first pass counts them
  into `total`. A second pass numbers them `i = 1, 2, …` and reports each
  one. From `i = 21` on, it builds the step by step mosaic at that origin
  and saves it as `str(x) + "-" + str(y) + ".png"`. The model proves:
  - `total` is the product of the two ceilings (or 0);
  - both passes visit the same origins in row-major order;
  - no origin is visited twice;
  - the sub-grids cover the requested rectangle, each tile exactly once;
  - the last sub-grid in each direction may reach past `tx1` / `ty1`
    (the blocks are not clipped);
  - saved names are all different and give back their origin;
  - the scan fails exactly when some origin past the 20th fails to build,
    and then it stops at the first one.

Modules:
- `Wrappers` holds `Option`.
- `Arith` holds integer division and multiplication facts.
- `Decimal` holds Python's `str()` of an integer and a reader for it.
- `Tiles` holds layers, `numTiles` and the x half of `getTile`.
- `Mosaic` holds `generateImage`.
- `Scan` holds the loops of `main`.

## Model

| member | source | states |
|---|---|---|
| Tiles.Token | download.py:12-18 | each layer's token is one character, and reading the token back gives the layer |
| Tiles.ShiftLeft | download.py:30-32 | Python's `v << k` for k >= 0, as k doublings of v |
| Tiles.ShiftLeftIsMultiplication | download.py:30-32 | shifting v left by k bits multiplies it by 2^k |
| Tiles.NumTiles | download.py:30-32 | `1 << zoom` is 2^zoom |
| Tiles.ZoomTwoHasFourTiles | download.py:30-32 | at zoom 2 there are 4 tiles a side, the example the source gives |
| Tiles.TileX | download.py:34-44 | the x index floor((128 + lng·256/360)·2^zoom / 256), over exact reals, equals the slippy-map column floor((lng + 180)·2^zoom / 360) |
| Tiles.TileXColumn | download.py:34-35 | the x index is k exactly when lng lies in [WestEdge(k), WestEdge(k + 1)) |
| Tiles.TileXInGrid | download.py:34-35 | 0 <= x < 2^zoom exactly when -180 <= lng < 180 |
| Tiles.TileXMonotone | download.py:34-35 | a longitude further east never gets a smaller x |
| Tiles.TileXPrimeMeridian | download.py:34-35 | for zoom >= 1, longitude 0 has x = 2^(zoom-1) |
| Decimal.NatToString | download.py:70 | `str(n)` for n >= 0 is a non-empty run of digits that starts with '0' only for 0 |
| Decimal.IntToString | download.py:70 | `str(i)` is non-empty and starts with '-' exactly when i < 0 |
| Decimal.NatToStringValue | download.py:70 | the digits of `str(n)` denote n |
| Decimal.ReadIntToString | download.py:70 | reading an integer from `str(i)` followed by a non-digit gives back i and the rest |
| Decimal.IntToStringInjective | download.py:70 | different integers have different `str()` |
| Mosaic.Url | download.py:70 | the tile URL: the fixed prefix, the layer token, then `&x=`, `&y=` and `&z=` each followed by the value in decimal |
| Mosaic.UrlRoundTrip | download.py:70 | parsing a tile URL gives back its layer, x, y and zoom |
| Mosaic.UrlInjective | download.py:70 | different requests never share a URL |
| Mosaic.Column | download.py:69-70 | the inner loop's requests for column sx + x, one per local y, appended in loop order |
| Mosaic.ColumnAt | download.py:69-70 | the inner loop requests tiles (sx + x, sy + y) for y = 0 … h-1, in that order |
| Mosaic.RequestOrder | download.py:68-70 | the requests of generateImage: the columns x = 0 … w-1 one after the other |
| Mosaic.RequestOrderAt | download.py:68-70 | generateImage issues w·h requests; request k is tile (sx + k / h, sy + k % h): x outer, y inner |
| Mosaic.RequestOrderDistinct | download.py:68-70 | no tile is requested twice |
| Mosaic.RequestOrderCovers | download.py:68-70 | a request is issued exactly when its layer and zoom match and its indices lie in the w by h rectangle |
| Mosaic.FirstFailure | download.py:73-75 | the first request in order whose download or decode fails, if any; a request it names is one of the requests and does fail |
| Mosaic.FirstFailureNone | download.py:73-75 | the build has no failure exactly when every requested tile downloads and decodes |
| Mosaic.FirstFailureAt | download.py:73-75 | the failure reported is the earliest failing request in loop order |
| Mosaic.BlocksPartitionCanvas | download.py:63-76 | every pixel of the 256w by 256h canvas lies in the block of exactly one local tile, (px / 256, py / 256) |
| Mosaic.Paste | download.py:76 | a paste writes the tile's pixels into its 256 by 256 block and leaves every other pixel unchanged |
| Mosaic.PastedTileIsMosaic | download.py:75-76 | inside the block of tile (x, y) the finished mosaic shows that tile's pixels |
| Mosaic.PasteBlock | download.py:75-76 | pasting tile (x, y) extends the finished part of the canvas by that block |
| Mosaic.PasteColumn | download.py:69-78 | the inner loop returns the column's first failure; without one, it has requested the whole column in order and filled it; with one, it stops right after requesting the failing tile |
| Mosaic.GenerateImage | download.py:47-80 | returns a fresh 256w by 256h canvas and the first failure in request order. Without a failure: every request in order, and every pixel is the mosaic's pixel. With one: the requests issued are a prefix of the order ending at the failing one |
| Mosaic.PasteOrderIrrelevant | download.py:68-76 | pasting decoded tiles in any order gives a pixel the mosaic's value once its block is among them |
| Mosaic.MosaicIndependentOfOrder | download.py:68-76 | any reordering of generateImage's requests produces the same canvas as its own order |
| Scan.Range | download.py:129-134 | Python's `range(a, b, step)` for step > 0: a, a + step, … while below b |
| Scan.RangeLength | download.py:129-130 | `range(a, b, step)` has ceil((b - a) / step) elements when a < b, and none otherwise |
| Scan.RangeAt | download.py:129-130 | element k of `range(a, b, step)` is a + k·step, and it is below b |
| Scan.RangeLastBlock | download.py:129-141 | the last start l of a non-empty range has l < b <= l + step, so its step-wide block reaches b and may pass it |
| Scan.Origins | download.py:129-134 | the origins both passes visit: for each start_y of the outer range, each start_x of the inner range |
| Scan.GridAt | download.py:133-134 | origin m·nx + n of the scan is (xs[n], ys[m]): row-major, start_y outer |
| Scan.OriginsCount | download.py:128-131 | there are ceil((tx1 - tx0) / step)·ceil((ty1 - ty0) / step) origins when both ranges are non-empty, and 0 otherwise |
| Scan.CountOrigins | download.py:128-131 | the first pass's total is the number of origins the second pass visits, and equals that product |
| Scan.OriginsDistinct | download.py:133-134 | no origin is visited twice |
| Scan.SubGridsCoverArea | download.py:133-141 | every tile of [tx0, tx1) × [ty0, ty1) lies in the sub-grid of exactly one origin |
| Scan.SaveName | download.py:142 | the name a mosaic is saved under, `str(x) + "-" + str(y) + ".png"` |
| Scan.SaveNameRoundTrip | download.py:142 | a saved file name gives back its origin |
| Scan.SavedNamesDistinct | download.py:142 | no two saved mosaics share a file name, so none overwrites another |
| Scan.BuildBlock | download.py:139-141 | building a step by step mosaic fails exactly when some request of its order fails, and reports the first such request |
| Scan.ScanStep | download.py:135-142 | appending the report of origin number i, and past the 20th its build outcome and, on success, its name, keeps log, saved names and failure equal to those of the first i origins of the scan |
| Scan.ScanRow | download.py:134-142 | a row of the second pass reports its origins in order and saves the built ones; it stops at a failing build |
| Scan.ScanAndSave | download.py:132-142 | reports origin k as number k + 1 of total, in order. Saves exactly the origins past the 20th that were built before any failure. Fails exactly when some origin past the 20th fails to build, and then at the first such origin |

## Left out

- Network, temporary files and image decoding are left out. `urlretrieve`, writing the temp file
  `str(x) + '-' + str(y)` and `Image.open` are one function parameter, `fetch`. It gives a decoded
  256 by 256 tile or a failure for each request. Since the URL determines the request
  (`Mosaic.UrlRoundTrip`), it is keyed by the request.
- The exception that ends `generateImage` and `main` becomes an error result naming the failing
  request. The `os.remove` of the temporary file is not modelled.
- The latitude half of `getTile` (sine and logarithm) is left out, and the scan takes the tile
  indices `tx0, ty0, tx1, ty1` as inputs. So the model does not link the latitude and longitude
  corners in `main` to the scan.
- Tiles.TileX: uses exact real arithmetic, not IEEE doubles. Rounding at a column edge is not
  modelled.
- Tiles.NumTiles: zoom is a natural number; Python raises ValueError for a negative shift.
- Mosaic.Paste: requires the tile's block to lie inside the canvas, which holds at every call in
  `generateImage`. PIL's clipping of an overhanging paste is not modelled.
- Mosaic.GenerateImage: w and h are natural numbers. A negative tile_width or tile_height gives a
  negative image size, for which `Image.new` raises ValueError; no caller does this, since `main`
  passes its step, 10.
- Mosaic.GenerateImage: every decoded tile is taken to be 256 by 256 RGB. A tile of another size
  or mode, which PIL would paste or convert differently, is not modelled.
- Scan.ScanAndSave: requires step > 0. The source's step is the constant 10; `range` with step 0
  raises and a negative step counts down.
- Scan.ScanAndSave: the two `print` lines per origin become a `Progress` record, and `img.save`
  becomes the file name in the list of saved names. The image data written to disk is not
  modelled.
- `download()` is left out. It is never called, and it uses a `GoogleMapDownloader` class that the
  file does not define.
- The demo constants in `main` (the corners, zoom 20, step 10, the satellite layer) become
  parameters.
