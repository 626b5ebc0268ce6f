/**
 * The scan in main: the sub-grid origins (start_x, start_y) run over
 * range(ty0, ty1, step) for start_y (outer) and range(tx0, tx1, step) for
 * start_x (inner). A first pass counts them into total; a second pass
 * numbers them i = 1, 2, ..., reports each, and for i > 20 builds the
 * step by step mosaic whose top-left tile is the origin and saves it as
 * "{start_x}-{start_y}.png".
 *
 * The tile-index corners (tx0, ty0) and (tx1, ty1), the step, the zoom and
 * the layer are inputs; the progress lines become Progress values and the
 * saved files their names.
 */
module Scan {
  import opened Wrappers
  import opened Arith
  import opened Decimal
  import opened Tiles
  import opened Mosaic

  /** Sub-grids numbered up to this are reported but neither built nor saved. */
  const SkipCount: nat := 20

  /** The top-left tile of one sub-grid. */
  datatype Origin = Origin(x: int, y: int)

  /** The two progress lines printed for the i-th of total origins: "Downloading x y", "Progress i / total". */
  datatype Progress = Progress(x: int, y: int, i: nat, total: nat)

  /** Python's range(a, b, step) for step > 0. */
  function Range(a: int, b: int, step: int): seq<int>
    requires step > 0
    decreases b - a
  {
    if a < b then [a] + Range(a + step, b, step) else []
  }

  /** The ceiling of n / d, for d > 0. */
  function CeilDiv(n: int, d: int): int
    requires d > 0
  {
    (n + d - 1) / d
  }

  lemma CeilDivStep(n: int, d: int)
    requires d > 0 && n > 0
    ensures CeilDiv(n, d) == if n <= d then 1 else 1 + CeilDiv(n - d, d)
  {
    if n <= d {
      DivModOf(n + d - 1, 1, n - 1, d);
    } else {
      var m := n - d + d - 1;
      DivModOf(m + d, m / d + 1, m % d, d);
    }
  }

  /** range(a, b, step) has ceil((b - a) / step) elements when a < b, and none otherwise. */
  lemma {:induction false} RangeLength(a: int, b: int, step: int)
    requires step > 0
    ensures |Range(a, b, step)| == if a < b then CeilDiv(b - a, step) else 0
    decreases b - a
  {
    if a < b {
      RangeLength(a + step, b, step);
      CeilDivStep(b - a, step);
    }
  }

  /** Element k of range(a, b, step) is a + k * step, and it lies below b. */
  lemma {:induction false} RangeAt(a: int, b: int, step: int, k: nat)
    requires step > 0 && k < |Range(a, b, step)|
    ensures Range(a, b, step)[k] == a + k * step < b
    decreases b - a
  {
    if k > 0 {
      RangeAt(a + step, b, step, k - 1);
      assert (k - 1) * step + step == k * step;
    }
  }

  /**
   * The last element l of a non-empty range(a, b, step) satisfies
   * l < b <= l + step: the step-wide block starting there reaches b, and
   * goes past it unless step divides b - a.
   */
  lemma {:induction false} RangeLastBlock(a: int, b: int, step: int)
    requires step > 0 && a < b
    ensures var r := Range(a, b, step); r[|r| - 1] < b <= r[|r| - 1] + step
    decreases b - a
  {
    if a + step < b {
      RangeLastBlock(a + step, b, step);
    }
  }

  /** The origins of one row, left to right. */
  function Row(xs: seq<int>, y: int): seq<Origin>
  {
    if xs == [] then [] else [Origin(xs[0], y)] + Row(xs[1..], y)
  }

  /** The origins of the rows ys, top to bottom, each row left to right. */
  function Grid(ys: seq<int>, xs: seq<int>): seq<Origin>
  {
    if ys == [] then [] else Row(xs, ys[0]) + Grid(ys[1..], xs)
  }

  /** The sub-grid origins both passes of main visit, in their order. */
  function Origins(tx0: int, ty0: int, tx1: int, ty1: int, step: int): seq<Origin>
    requires step > 0
  {
    Grid(Range(ty0, ty1, step), Range(tx0, tx1, step))
  }

  lemma {:induction false} RowAt(xs: seq<int>, y: int)
    ensures |Row(xs, y)| == |xs|
    ensures forall n :: 0 <= n < |xs| ==> Row(xs, y)[n] == Origin(xs[n], y)
  {
    if xs != [] {
      RowAt(xs[1..], y);
    }
  }

  /** Entry m * |xs| + n of the grid is the origin (xs[n], ys[m]): row-major order. */
  lemma {:induction false} GridAt(ys: seq<int>, xs: seq<int>, m: nat, n: nat)
    requires m < |ys| && n < |xs|
    ensures m * |xs| + n < |Grid(ys, xs)|
    ensures Grid(ys, xs)[m * |xs| + n] == Origin(xs[n], ys[m])
  {
    var nx := |xs|;
    RowAt(xs, ys[0]);
    if m > 0 {
      GridAt(ys[1..], xs, m - 1, n);
      MulSucc(m - 1, nx);
      var j := (m - 1) * nx + n;
      assert m * nx + n == nx + j;
      assert Grid(ys, xs)[nx + j] == Grid(ys[1..], xs)[j];
    }
  }

  lemma {:induction false} GridLength(ys: seq<int>, xs: seq<int>)
    ensures |Grid(ys, xs)| == |ys| * |xs|
  {
    if ys != [] {
      RowAt(xs, ys[0]);
      GridLength(ys[1..], xs);
      assert |xs| + (|ys| - 1) * |xs| == |ys| * |xs|;
    }
  }

  /**
   * The number of origins is ceil((tx1 - tx0) / step) * ceil((ty1 - ty0) / step)
   * when both ranges are non-empty, and 0 otherwise.
   */
  lemma OriginsCount(tx0: int, ty0: int, tx1: int, ty1: int, step: int)
    requires step > 0
    ensures |Origins(tx0, ty0, tx1, ty1, step)|
      == if tx0 < tx1 && ty0 < ty1 then CeilDiv(tx1 - tx0, step) * CeilDiv(ty1 - ty0, step) else 0
  {
    var xs, ys := Range(tx0, tx1, step), Range(ty0, ty1, step);
    GridLength(ys, xs);
    RangeLength(tx0, tx1, step);
    RangeLength(ty0, ty1, step);
  }

  /** The first pass of main: counts the origins into total. */
  method CountOrigins(tx0: int, ty0: int, tx1: int, ty1: int, step: int) returns (total: nat)
    requires step > 0
    ensures total == |Origins(tx0, ty0, tx1, ty1, step)|
    ensures total == if tx0 < tx1 && ty0 < ty1 then CeilDiv(tx1 - tx0, step) * CeilDiv(ty1 - ty0, step) else 0
  {
    var ys, xs := Range(ty0, ty1, step), Range(tx0, tx1, step);
    total := 0;
    for m := 0 to |ys|
      invariant total == m * |xs|
    {
      for n := 0 to |xs|
        invariant total == m * |xs| + n
      {
        total := total + 1;
      }
      assert (m + 1) * |xs| == m * |xs| + |xs|;
    }
    GridLength(ys, xs);
    OriginsCount(tx0, ty0, tx1, ty1, step);
  }

  /** The name a mosaic is saved under: str(start_x) + "-" + str(start_y) + ".png". */
  function SaveName(o: Origin): string
  {
    IntToString(o.x) + ("-" + (IntToString(o.y) + ".png"))
  }

  /** Recovers the origin from a saved mosaic's name. */
  function ParseSaveName(s: string): Option<Origin>
  {
    match ReadInt(s)
    case None => None
    case Some((x, rest)) =>
      if |rest| > 0 && rest[0] == '-' then
        match ReadInt(rest[1..])
        case None => None
        case Some((y, ext)) => if ext == ".png" then Some(Origin(x, y)) else None
      else None
  }

  /** A saved name gives back its origin. */
  lemma SaveNameRoundTrip(o: Origin)
    ensures ParseSaveName(SaveName(o)) == Some(o)
  {
    var rest := IntToString(o.y) + ".png";
    assert ("-" + rest)[0] == '-' && ("-" + rest)[1..] == rest;
    ReadIntToString(o.x, "-" + rest);
    ReadIntToString(o.y, ".png");
  }

  /** The names of the mosaics saved for a run of origins. */
  function SaveNames(os: seq<Origin>): seq<string>
  {
    seq(|os|, k requires 0 <= k < |os| => SaveName(os[k]))
  }

  /** main visits no origin twice. */
  lemma OriginsDistinct(tx0: int, ty0: int, tx1: int, ty1: int, step: int)
    requires step > 0
    ensures var os := Origins(tx0, ty0, tx1, ty1, step);
      forall i, j :: 0 <= i < j < |os| ==> os[i] != os[j]
  {
    var ys, xs := Range(ty0, ty1, step), Range(tx0, tx1, step);
    var os := Origins(tx0, ty0, tx1, ty1, step);
    GridLength(ys, xs);
    forall i, j | 0 <= i < j < |os| ensures os[i] != os[j] {
      var nx := |xs|;
      IndexInGrid(i, |ys|, nx);
      IndexInGrid(j, |ys|, nx);
      GridAt(ys, xs, i / nx, i % nx);
      GridAt(ys, xs, j / nx, j % nx);
      RangeAt(ty0, ty1, step, i / nx);
      RangeAt(ty0, ty1, step, j / nx);
      RangeAt(tx0, tx1, step, i % nx);
      RangeAt(tx0, tx1, step, j % nx);
      if os[i] == os[j] {
        assert (i / nx) * step == (j / nx) * step;
        assert (i % nx) * step == (j % nx) * step;
        MulCancel(i / nx, j / nx, step);
        MulCancel(i % nx, j % nx, step);
      }
    }
  }

  lemma MulCancel(a: int, b: int, c: int)
    requires c > 0 && a * c == b * c
    ensures a == b
  {
    DivModOf(a * c, a, 0, c);
    DivModOf(b * c, b, 0, c);
  }

  /** No two mosaics main saves share a file name, so none overwrites another. */
  lemma SavedNamesDistinct(tx0: int, ty0: int, tx1: int, ty1: int, step: int, lo: nat, hi: nat)
    requires step > 0 && lo <= hi <= |Origins(tx0, ty0, tx1, ty1, step)|
    ensures var names := SaveNames(Origins(tx0, ty0, tx1, ty1, step)[lo..hi]);
      forall i, j :: 0 <= i < j < |names| ==> names[i] != names[j]
  {
    var os := Origins(tx0, ty0, tx1, ty1, step);
    var part := os[lo..hi];
    var names := SaveNames(part);
    OriginsDistinct(tx0, ty0, tx1, ty1, step);
    forall i, j | 0 <= i < j < |names| ensures names[i] != names[j] {
      SaveNameRoundTrip(part[i]);
      SaveNameRoundTrip(part[j]);
      assert part[i] == os[lo + i] && part[j] == os[lo + j];
    }
  }

  /** Whether global tile (gx, gy) lies in the step by step sub-grid whose top-left tile is o. */
  predicate InSubGrid(o: Origin, step: int, gx: int, gy: int)
  {
    o.x <= gx < o.x + step && o.y <= gy < o.y + step
  }

  /**
   * Every tile of the requested rectangle [tx0, tx1) x [ty0, ty1) lies in the
   * sub-grid of exactly one origin.
   */
  lemma SubGridsCoverArea(tx0: int, ty0: int, tx1: int, ty1: int, step: int, gx: int, gy: int)
    requires step > 0 && tx0 <= gx < tx1 && ty0 <= gy < ty1
    ensures var os := Origins(tx0, ty0, tx1, ty1, step);
      && (exists k :: 0 <= k < |os| && InSubGrid(os[k], step, gx, gy))
      && (forall i, j ::
            0 <= i < |os| && 0 <= j < |os| && InSubGrid(os[i], step, gx, gy) && InSubGrid(os[j], step, gx, gy)
            ==> i == j)
  {
    var ys, xs := Range(ty0, ty1, step), Range(tx0, tx1, step);
    var os := Origins(tx0, ty0, tx1, ty1, step);
    var n, m := (gx - tx0) / step, (gy - ty0) / step;
    RangeLength(tx0, tx1, step);
    RangeLength(ty0, ty1, step);
    QuotientBelowCeil(gx - tx0, tx1 - tx0, step);
    QuotientBelowCeil(gy - ty0, ty1 - ty0, step);
    GridLength(ys, xs);
    GridAt(ys, xs, m, n);
    RangeAt(tx0, tx1, step, n);
    RangeAt(ty0, ty1, step, m);
    assert InSubGrid(os[m * |xs| + n], step, gx, gy);
    OriginsDistinct(tx0, ty0, tx1, ty1, step);
    forall i, j | 0 <= i < |os| && 0 <= j < |os| && InSubGrid(os[i], step, gx, gy) && InSubGrid(os[j], step, gx, gy)
      ensures i == j
    {
      OriginOfTile(tx0, ty0, tx1, ty1, step, gx, gy, i);
      OriginOfTile(tx0, ty0, tx1, ty1, step, gx, gy, j);
    }
  }

  /** The only origin whose sub-grid holds (gx, gy) is the one at the quotients of its offsets by step. */
  lemma OriginOfTile(tx0: int, ty0: int, tx1: int, ty1: int, step: int, gx: int, gy: int, k: nat)
    requires step > 0 && k < |Origins(tx0, ty0, tx1, ty1, step)|
    requires InSubGrid(Origins(tx0, ty0, tx1, ty1, step)[k], step, gx, gy)
    ensures Origins(tx0, ty0, tx1, ty1, step)[k]
      == Origin(tx0 + (gx - tx0) / step * step, ty0 + (gy - ty0) / step * step)
  {
    var ys, xs := Range(ty0, ty1, step), Range(tx0, tx1, step);
    var nx := |xs|;
    GridLength(ys, xs);
    IndexInGrid(k, |ys|, nx);
    GridAt(ys, xs, k / nx, k % nx);
    RangeAt(tx0, tx1, step, k % nx);
    RangeAt(ty0, ty1, step, k / nx);
    DivModOf(gx - tx0, k % nx, gx - tx0 - (k % nx) * step, step);
    DivModOf(gy - ty0, k / nx, gy - ty0 - (k / nx) * step, step);
  }

  /** Offset a of [0, n) falls in block a / d of the ceil(n / d) blocks of d, which holds it. */
  lemma QuotientBelowCeil(a: int, n: int, d: int)
    requires d > 0 && 0 <= a < n
    ensures 0 <= a / d < CeilDiv(n, d)
    ensures a / d * d <= a < a / d * d + d
  {
    assert a == a / d * d + a % d && n + d - 1 == (n + d - 1) / d * d + (n + d - 1) % d;
    if a / d >= CeilDiv(n, d) {
      MulLe(CeilDiv(n, d), a / d, d);
    }
  }

  /** Whether building the mosaic at o fails, and on which request. */
  function BlockFailure(fetch: Fetcher, o: Origin, step: nat, zoom: int, layer: Layer): Option<TileRequest>
  {
    FirstFailure(fetch, RequestOrder(layer, o.x, o.y, step, step, zoom))
  }

  function Min(a: int, b: int): int
  {
    if a <= b then a else b
  }

  /** Builds the step by step mosaic whose top-left tile is o; the result says whether, and on which request, it failed. */
  method BuildBlock(fetch: Fetcher, o: Origin, step: nat, zoom: int, layer: Layer) returns (err: Option<TileRequest>)
    ensures err == BlockFailure(fetch, o, step, zoom, layer)
    ensures err.None? <==> forall r :: r in RequestOrder(layer, o.x, o.y, step, step, zoom) ==> fetch(r).Decoded?
  {
    var img: array2<Rgb>;
    var e: Option<TileRequest>;
    ghost var requests: seq<TileRequest>;
    img, e, requests := GenerateImage(fetch, o.x, o.y, step, step, zoom, layer);
    err := e;
    BlockFailureNone(fetch, o, step, zoom, layer);
  }

  lemma BlockFailureNone(fetch: Fetcher, o: Origin, step: nat, zoom: int, layer: Layer)
    ensures BlockFailure(fetch, o, step, zoom, layer).None?
        <==> forall r :: r in RequestOrder(layer, o.x, o.y, step, step, zoom) ==> fetch(r).Decoded?
  {
    var order := RequestOrder(layer, o.x, o.y, step, step, zoom);
    FirstFailureNone(fetch, order);
    assert forall r :: r in order <==> exists k :: 0 <= k < |order| && order[k] == r;
  }

  /** The names saved once the first i origins have been reported and built. */
  function SavedAfter(os: seq<Origin>, i: nat): seq<string>
    requires i <= |os|
  {
    SaveNames(os[Min(SkipCount, i)..i])
  }

  /** Reporting origin i adds its name to the saved ones exactly when its number i + 1 is past SkipCount. */
  lemma SavedAfterStep(os: seq<Origin>, i: nat)
    requires i < |os|
    ensures SavedAfter(os, i + 1) == if i + 1 > SkipCount then SavedAfter(os, i) + [SaveName(os[i])] else SavedAfter(os, i)
  {
    if i + 1 > SkipCount {
      assert os[Min(SkipCount, i + 1)..i + 1] == os[Min(SkipCount, i)..i] + [os[i]];
    } else {
      assert os[Min(SkipCount, i + 1)..i + 1] == [];
    }
  }

  /** Whether every origin numbered past SkipCount among the first `built` builds without failure. */
  ghost predicate BuiltCleanly(fetch: Fetcher, os: seq<Origin>, built: nat, step: nat, zoom: int, layer: Layer)
    requires built <= |os|
  {
    forall k :: SkipCount <= k < built ==> BlockFailure(fetch, os[k], step, zoom, layer).None?
  }

  /** Whether log holds the progress reports of the first |log| origins, each numbered out of total. */
  ghost predicate Reported(os: seq<Origin>, log: seq<Progress>, total: nat)
  {
    |log| <= |os| && forall k :: 0 <= k < |log| ==> log[k] == Progress(os[k].x, os[k].y, k + 1, total)
  }

  /**
   * The state of the second pass after |log| reports: with no failure, every
   * reported origin past SkipCount was built and saved; with a failure, the
   * last reported origin is past SkipCount and its build failed, and every
   * one before it was built and saved.
   */
  ghost predicate Scanned(fetch: Fetcher, os: seq<Origin>, total: nat, step: nat, zoom: int, layer: Layer,
                          log: seq<Progress>, saved: seq<string>, err: Option<TileRequest>)
  {
    && Reported(os, log, total)
    && (err.None? ==> BuiltCleanly(fetch, os, |log|, step, zoom, layer) && saved == SavedAfter(os, |log|))
    && (err.Some? ==> (
      && SkipCount < |log|
      && err == BlockFailure(fetch, os[|log| - 1], step, zoom, layer)
      && BuiltCleanly(fetch, os, |log| - 1, step, zoom, layer)
      && saved == SavedAfter(os, |log| - 1)))
  }

  /** Reporting the next origin o and, past SkipCount, building it with outcome e and saving it on success. */
  lemma ScanStep(fetch: Fetcher, os: seq<Origin>, total: nat, step: nat, zoom: int, layer: Layer,
                 log: seq<Progress>, saved: seq<string>, o: Origin, e: Option<TileRequest>)
    requires Scanned(fetch, os, total, step, zoom, layer, log, saved, None)
    requires |log| < |os| && os[|log|] == o
    requires e == if |log| + 1 > SkipCount then BlockFailure(fetch, o, step, zoom, layer) else None
    ensures Scanned(fetch, os, total, step, zoom, layer, log + [Progress(o.x, o.y, |log| + 1, total)],
                    if |log| + 1 > SkipCount && e.None? then saved + [SaveName(o)] else saved, e)
  {
    var log' := log + [Progress(o.x, o.y, |log| + 1, total)];
    assert Reported(os, log', total) by {
      forall k | 0 <= k < |log'| ensures log'[k] == Progress(os[k].x, os[k].y, k + 1, total) {
        if k < |log| {
          assert log'[k] == log[k];
        }
      }
    }
    SavedAfterStep(os, |log|);
  }

  /**
   * One row of the second pass: the origins (xs[n], y), which are os[|log0| + n],
   * reported as numbers |log0| + 1, |log0| + 2, ... and, past SkipCount, built and
   * saved, until the row ends or a build fails.
   */
  method ScanRow(fetch: Fetcher, xs: seq<int>, y: int, ghost os: seq<Origin>, total: nat,
                 step: nat, zoom: int, layer: Layer, log0: seq<Progress>, saved0: seq<string>)
    returns (log: seq<Progress>, saved: seq<string>, err: Option<TileRequest>)
    requires |log0| + |xs| <= |os|
    requires forall n :: 0 <= n < |xs| ==> os[|log0| + n] == Origin(xs[n], y)
    requires Scanned(fetch, os, total, step, zoom, layer, log0, saved0, None)
    ensures Scanned(fetch, os, total, step, zoom, layer, log, saved, err)
    ensures |log0| <= |log| <= |log0| + |xs|
    ensures err.None? ==> |log| == |log0| + |xs|
  {
    log, saved, err := log0, saved0, None;
    for n := 0 to |xs|
      invariant |log| == |log0| + n
      invariant Scanned(fetch, os, total, step, zoom, layer, log, saved, None)
    {
      var o := Origin(xs[n], y);
      ghost var before, savedBefore := log, saved;
      var i := |log| + 1;
      log := log + [Progress(o.x, o.y, i, total)];
      var e := None;
      if i > SkipCount {
        e := BuildBlock(fetch, o, step, zoom, layer);
        if e.Some? {
          ScanStep(fetch, os, total, step, zoom, layer, before, savedBefore, o, e);
          err := e;
          return;
        }
        saved := saved + [SaveName(o)];
      }
      ScanStep(fetch, os, total, step, zoom, layer, before, savedBefore, o, e);
    }
  }

  /**
   * What the second pass of main leaves behind over the origins os: one
   * report per origin, in order, numbered from 1 out of |os|, up to the end
   * or to the first origin past SkipCount whose build fails; one saved name
   * per origin past SkipCount built before that; and a failure exactly when
   * some origin past SkipCount does not build.
   */
  ghost predicate ScanOutcome(fetch: Fetcher, os: seq<Origin>, step: nat, zoom: int, layer: Layer,
                              log: seq<Progress>, saved: seq<string>, err: Option<TileRequest>)
  {
    && |log| <= |os|
    && (forall k :: 0 <= k < |log| ==> log[k] == Progress(os[k].x, os[k].y, k + 1, |os|))
    && (err.None? ==> |log| == |os|)
    && (err.Some? ==> SkipCount < |log| && err == BlockFailure(fetch, os[|log| - 1], step, zoom, layer))
    && (var built := if err.Some? then |log| - 1 else |log|;
        && (forall k :: SkipCount <= k < built ==> BlockFailure(fetch, os[k], step, zoom, layer).None?)
        && saved == SaveNames(os[Min(SkipCount, built)..built]))
    && (err.None? <==> forall k :: SkipCount <= k < |os| ==> BlockFailure(fetch, os[k], step, zoom, layer).None?)
  }

  /** The state at either exit of the second pass is its outcome. */
  lemma ScanEnds(fetch: Fetcher, os: seq<Origin>, step: nat, zoom: int, layer: Layer,
                 log: seq<Progress>, saved: seq<string>, err: Option<TileRequest>)
    requires Scanned(fetch, os, |os|, step, zoom, layer, log, saved, err)
    requires err.None? ==> |log| == |os|
    ensures ScanOutcome(fetch, os, step, zoom, layer, log, saved, err)
  {
  }

  /**
   * The second pass of main. Every origin, in order, is reported as the i-th
   * of total; from i = 21 on its step by step mosaic is built and saved
   * under its name. A build that fails ends the scan, after its report and
   * before its save.
   */
  method ScanAndSave(fetch: Fetcher, tx0: int, ty0: int, tx1: int, ty1: int, step: nat, zoom: int, layer: Layer)
    returns (log: seq<Progress>, saved: seq<string>, err: Option<TileRequest>)
    requires step > 0
    ensures ScanOutcome(fetch, Origins(tx0, ty0, tx1, ty1, step), step, zoom, layer, log, saved, err)
  {
    var total := CountOrigins(tx0, ty0, tx1, ty1, step);
    var ys, xs := Range(ty0, ty1, step), Range(tx0, tx1, step);
    ghost var os := Origins(tx0, ty0, tx1, ty1, step);
    assert os == Grid(ys, xs);
    GridLength(ys, xs);
    log, saved, err := [], [], None;
    for m := 0 to |ys|
      invariant |log| == m * |xs| <= |os| && err.None?
      invariant Scanned(fetch, os, total, step, zoom, layer, log, saved, err)
    {
      RowInGrid(ys, xs, m);
      log, saved, err := ScanRow(fetch, xs, ys[m], os, total, step, zoom, layer, log, saved);
      if err.Some? {
        ScanEnds(fetch, os, step, zoom, layer, log, saved, err);
        return;
      }
    }
    ScanEnds(fetch, os, step, zoom, layer, log, saved, err);
  }

  /** Row m of the grid occupies entries m * |xs| to (m + 1) * |xs| of it. */
  lemma RowInGrid(ys: seq<int>, xs: seq<int>, m: nat)
    requires m < |ys|
    ensures (m + 1) * |xs| == m * |xs| + |xs| <= |Grid(ys, xs)|
    ensures forall n :: 0 <= n < |xs| ==> Grid(ys, xs)[m * |xs| + n] == Origin(xs[n], ys[m])
  {
    MulSucc(m, |xs|);
    forall n | 0 <= n < |xs|
      ensures m * |xs| + n < |Grid(ys, xs)| && Grid(ys, xs)[m * |xs| + n] == Origin(xs[n], ys[m])
    {
      GridAt(ys, xs, m, n);
    }
    if |xs| > 0 {
      GridAt(ys, xs, m, |xs| - 1);
    }
  }
}
