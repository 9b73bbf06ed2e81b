/** The grain service's tiling of an image (`prepare_tiles` in
    grain/src/inference.py): a grid of 1024-pixel square tiles whose origins
    run over `range(0, h - 1024, 1024)` by `range(0, w - 1024, 1024)`, row by
    row, skipping every candidate whose square meets the coin's box, which is
    the coin's radius plus a 50-pixel margin around its centre. Pixels are
    not modelled: a tile is identified by its top-left origin. */
module Tiling {
  import opened Base

  const TileSize: int := 1024
  const CoinMargin: int := 50

  /** The coin position handed to the grain service, in whole pixels. */
  datatype Coin = Coin(centerX: int, centerY: int, radiusPx: int)

  /** The top-left corner of the tile `img[y : y + 1024, x : x + 1024]`. */
  datatype TileOrigin = TileOrigin(y: int, x: int)

  predicate StrictlyIncreasing(s: seq<int>) {
    forall i, j :: 0 <= i < j < |s| ==> s[i] < s[j]
  }

  /** `range(start, stop, 1024)`. */
  function Offsets(start: int, stop: int): (r: seq<int>)
    ensures forall v :: v in r <==> start <= v < stop && (v - start) % TileSize == 0
    ensures StrictlyIncreasing(r)
    ensures forall i :: 0 <= i < |r| ==> start <= r[i]
    decreases stop - start
  {
    if start >= stop then []
    else
      var rest := Offsets(start + TileSize, stop);
      assert forall v :: v in rest ==> start < v;
      [start] + rest
  }

  /** The basic box collision test of the source, margin included. */
  predicate Overlaps(c: Coin, t: TileOrigin) {
    && t.x < c.centerX + c.radiusPx + CoinMargin
    && t.x + TileSize > c.centerX - c.radiusPx - CoinMargin
    && t.y < c.centerY + c.radiusPx + CoinMargin
    && t.y + TileSize > c.centerY - c.radiusPx - CoinMargin
  }

  /** A candidate is skipped only when there is a coin and it overlaps. */
  predicate Skipped(coin: Option<Coin>, t: TileOrigin) {
    coin.Some? && Overlaps(coin.value, t)
  }

  /** `a` comes strictly before `b` in row-major order. */
  predicate Before(a: TileOrigin, b: TileOrigin) {
    a.y < b.y || (a.y == b.y && a.x < b.x)
  }

  predicate RowMajor(tiles: seq<TileOrigin>) {
    forall i, j :: 0 <= i < j < |tiles| ==> Before(tiles[i], tiles[j])
  }

  /** A grid position whose whole tile lies inside an `h` by `w` image,
      with the strict upper bound the source's `range` imposes. */
  predicate GridOrigin(h: int, w: int, t: TileOrigin) {
    && 0 <= t.y && t.y + TileSize < h && t.y % TileSize == 0
    && 0 <= t.x && t.x + TileSize < w && t.x % TileSize == 0
  }

  /** The inner loop: one row of the grid, at height `y`. */
  function RowTiles(y: int, xs: seq<int>, coin: Option<Coin>): (r: seq<TileOrigin>)
    requires StrictlyIncreasing(xs)
    ensures forall t :: t in r <==> t.y == y && t.x in xs && !Skipped(coin, t)
    ensures forall i :: 0 <= i < |r| ==> r[i].y == y
    ensures forall i, j :: 0 <= i < j < |r| ==> r[i].x < r[j].x
    ensures forall i :: 0 <= i < |r| ==> (|xs| > 0 && xs[0] <= r[i].x)
  {
    if |xs| == 0 then []
    else
      var t := TileOrigin(y, xs[0]);
      var rest := RowTiles(y, xs[1..], coin);
      assert forall i :: 0 <= i < |rest| ==> xs[0] < rest[i].x;
      if Skipped(coin, t) then rest else [t] + rest
  }

  /** The outer loop: rows in the order of `ys`. */
  function GridTiles(ys: seq<int>, xs: seq<int>, coin: Option<Coin>): (r: seq<TileOrigin>)
    requires StrictlyIncreasing(ys) && StrictlyIncreasing(xs)
    ensures forall t :: t in r <==> t.y in ys && t.x in xs && !Skipped(coin, t)
    ensures RowMajor(r)
    ensures forall i :: 0 <= i < |r| ==> (|ys| > 0 && ys[0] <= r[i].y)
  {
    if |ys| == 0 then []
    else
      var row := RowTiles(ys[0], xs, coin);
      var rest := GridTiles(ys[1..], xs, coin);
      assert forall i :: 0 <= i < |rest| ==> ys[0] < rest[i].y;
      ConcatRowMajor(row, rest, ys[0]);
      row + rest
  }

  lemma ConcatRowMajor(row: seq<TileOrigin>, rest: seq<TileOrigin>, y: int)
    requires forall i :: 0 <= i < |row| ==> row[i].y == y
    requires forall i, j :: 0 <= i < j < |row| ==> row[i].x < row[j].x
    requires RowMajor(rest)
    requires forall i :: 0 <= i < |rest| ==> y < rest[i].y
    ensures RowMajor(row + rest)
  {
  }

  /** `prepare_tiles(img, coin)` for an image of height `h` and width `w`:
      exactly the in-image grid origins the coin does not overlap, each once,
      in row-major order. */
  function PrepareTiles(h: int, w: int, coin: Option<Coin>): (tiles: seq<TileOrigin>)
    ensures forall t :: t in tiles <==> GridOrigin(h, w, t) && !Skipped(coin, t)
    ensures RowMajor(tiles)
  {
    GridTiles(Offsets(0, h - TileSize), Offsets(0, w - TileSize), coin)
  }

  /** Keeps the tiles the coin does not overlap, in their order. */
  function DropOverlapping(tiles: seq<TileOrigin>, c: Coin): (r: seq<TileOrigin>)
    ensures forall t :: t in r <==> t in tiles && !Overlaps(c, t)
    ensures |r| <= |tiles|
  {
    if |tiles| == 0 then []
    else
      var rest := DropOverlapping(tiles[1..], c);
      if Overlaps(c, tiles[0]) then rest else [tiles[0]] + rest
  }

  lemma {:induction false} DropOverlappingConcat(a: seq<TileOrigin>, b: seq<TileOrigin>, c: Coin)
    ensures DropOverlapping(a + b, c) == DropOverlapping(a, c) + DropOverlapping(b, c)
    decreases |a|
  {
    if |a| > 0 {
      assert (a + b)[1..] == a[1..] + b;
      DropOverlappingConcat(a[1..], b, c);
    } else {
      assert a + b == b;
    }
  }

  lemma {:induction false} RowWithCoin(y: int, xs: seq<int>, c: Coin)
    requires StrictlyIncreasing(xs)
    ensures RowTiles(y, xs, Some(c)) == DropOverlapping(RowTiles(y, xs, None), c)
    decreases |xs|
  {
    if |xs| > 0 {
      RowWithCoin(y, xs[1..], c);
      var rest := RowTiles(y, xs[1..], None);
      assert RowTiles(y, xs, None) == [TileOrigin(y, xs[0])] + rest;
      assert ([TileOrigin(y, xs[0])] + rest)[1..] == rest;
    }
  }

  lemma {:induction false} GridWithCoin(ys: seq<int>, xs: seq<int>, c: Coin)
    requires StrictlyIncreasing(ys) && StrictlyIncreasing(xs)
    ensures GridTiles(ys, xs, Some(c)) == DropOverlapping(GridTiles(ys, xs, None), c)
    decreases |ys|
  {
    if |ys| > 0 {
      GridWithCoin(ys[1..], xs, c);
      RowWithCoin(ys[0], xs, c);
      DropOverlappingConcat(RowTiles(ys[0], xs, None), GridTiles(ys[1..], xs, None), c);
    }
  }

  /** With a coin the tiles are those of the coin-free tiling minus the ones
      the coin overlaps, in the same order: an order-preserving subsequence. */
  lemma CoinTilesAreFilteredGrid(h: int, w: int, c: Coin)
    ensures PrepareTiles(h, w, Some(c)) == DropOverlapping(PrepareTiles(h, w, None), c)
  {
    GridWithCoin(Offsets(0, h - TileSize), Offsets(0, w - TileSize), c);
  }

  /** Every tile lies entirely inside the image and clear of the coin's box. */
  lemma TilesInsideImageAndClearOfCoin(h: int, w: int, coin: Option<Coin>, i: int)
    requires 0 <= i < |PrepareTiles(h, w, coin)|
    ensures var t := PrepareTiles(h, w, coin)[i];
      && 0 <= t.y && t.y + TileSize <= h && 0 <= t.x && t.x + TileSize <= w
      && (coin.Some? ==> !Overlaps(coin.value, t))
  {
    assert PrepareTiles(h, w, coin)[i] in PrepareTiles(h, w, coin);
  }

  /** An image not taller and wider than one tile yields no tiles at all,
      even one exactly 1024 pixels high. */
  lemma SmallImageHasNoTiles(h: int, w: int, coin: Option<Coin>)
    requires h <= TileSize || w <= TileSize
    ensures PrepareTiles(h, w, coin) == []
  {
    if h <= TileSize {
      assert Offsets(0, h - TileSize) == [];
    } else {
      assert Offsets(0, w - TileSize) == [];
      GridWithoutColumns(Offsets(0, h - TileSize), coin);
    }
  }

  lemma {:induction false} GridWithoutColumns(ys: seq<int>, coin: Option<Coin>)
    requires StrictlyIncreasing(ys)
    ensures GridTiles(ys, [], coin) == []
    decreases |ys|
  {
    if |ys| > 0 {
      GridWithoutColumns(ys[1..], coin);
    }
  }

  /** A 2048 by 2048 image without a coin gives a single tile at (0, 0):
      the strict bound drops the three other full tiles. */
  lemma Square2048NoCoin()
    ensures PrepareTiles(2048, 2048, None) == [TileOrigin(0, 0)]
  {
    assert Offsets(1024, 1024) == [];
    assert Offsets(0, 1024) == [0];
    assert RowTiles(0, [0], None) == [TileOrigin(0, 0)];
  }

  /** The same image with a coin of radius 200 centred at (1024, 1024) gives
      no tile: the coin's box, 774 to 1274 on both axes, overlaps the only one. */
  lemma Square2048CentredCoin()
    ensures PrepareTiles(2048, 2048, Some(Coin(1024, 1024, 200))) == []
  {
    assert Offsets(1024, 1024) == [];
    assert Offsets(0, 1024) == [0];
    assert Overlaps(Coin(1024, 1024, 200), TileOrigin(0, 0));
    assert RowTiles(0, [0], Some(Coin(1024, 1024, 200))) == [];
  }

  /** A 3072 by 3072 image without a coin gives four tiles in row-major order. */
  lemma Square3072NoCoin()
    ensures PrepareTiles(3072, 3072, None)
         == [TileOrigin(0, 0), TileOrigin(0, 1024), TileOrigin(1024, 0), TileOrigin(1024, 1024)]
  {
    assert Offsets(2048, 2048) == [];
    assert Offsets(1024, 2048) == [1024];
    assert Offsets(0, 2048) == [0, 1024];
    assert RowTiles(0, [1024], None) == [TileOrigin(0, 1024)];
    assert RowTiles(1024, [1024], None) == [TileOrigin(1024, 1024)];
    assert RowTiles(0, [0, 1024], None) == [TileOrigin(0, 0), TileOrigin(0, 1024)];
    assert RowTiles(1024, [0, 1024], None) == [TileOrigin(1024, 0), TileOrigin(1024, 1024)];
    assert [0, 1024][1..] == [1024];
  }
}
