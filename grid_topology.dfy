/** The static helpers of the grid manager: the index <-> (column, row)
    mapping, the tile lookup by index and the facing -> yaw table. */
module GridTopology {
  import opened StageRecords
  import opened Lists

  /** `row * columns + column`. */
  function GetTileIndex(stage: StageData, column: int, row: int): int
  {
    row * stage.columns + column
  }

  /** A positive multiple of a positive number is at least that number. */
  lemma {:induction false} MulAtLeast(d: int, n: int)
    requires d >= 1 && n > 0
    ensures d * n >= n
  {
    if d > 1 {
      MulAtLeast(d - 1, n);
      assert d * n == (d - 1) * n + n;
    }
  }

  /** Euclidean division on a positive divisor is the unique (quotient,
      remainder) pair. */
  lemma {:induction false} DivModUnique(i: int, n: int, q: int, r: int)
    requires 0 < n && 0 <= r < n && i == q * n + r
    ensures i / n == q && i % n == r
  {
    var q', r' := i / n, i % n;
    assert (q - q') * n == r' - r by {
      assert (q - q') * n == q * n - q' * n;
    }
    if q > q' {
      MulAtLeast(q - q', n);
    } else if q < q' {
      MulAtLeast(q' - q, n);
    }
  }

  /** The quotient of an index below `n * rows` is below `rows`. */
  lemma {:induction false} QuotientBelow(i: int, n: int, rows: int)
    requires 0 < n && 0 <= i < n * rows
    ensures i / n < rows
  {
    var y := i / n;
    if y >= rows {
      MulAtLeast(y - rows + 1, n);
      assert false;
    }
  }

  /** `GetPath`: (x, y) = (column, row) of a tile index, or (-1, -1) for a
      null stage. `y` is the floor of `tileIndex / columns`, which is Dafny's
      division for a positive divisor. */
  function GetPath(stage: Nullable<StageData>, tileIndex: int): (xy: (int, int))
    requires stage.Some? ==> stage.value.columns > 0
    ensures stage.Null? ==> xy == (-1, -1)
    ensures stage.Some? ==> 0 <= xy.0 < stage.value.columns
    ensures stage.Some? ==> GetTileIndex(stage.value, xy.0, xy.1) == tileIndex
    ensures stage.Some? && 0 <= tileIndex < stage.value.columns * stage.value.rows ==>
              0 <= xy.1 < stage.value.rows
  {
    match stage
    case Null => (-1, -1)
    case Some(s) =>
      var y := tileIndex / s.columns;
      var x := tileIndex - y * s.columns;
      assert tileIndex == y * s.columns + tileIndex % s.columns;
      if 0 <= tileIndex < s.columns * s.rows then
        assert s.columns * s.rows == s.rows * s.columns;
        QuotientBelow(tileIndex, s.columns, s.rows);
        (x, y)
      else
        (x, y)
  }

  /** The other direction of the round trip: the path of a cell's index is
      that cell. */
  lemma {:induction false} PathOfIndex(stage: StageData, column: int, row: int)
    requires stage.columns > 0 && 0 <= column < stage.columns
    ensures GetPath(Some(stage), GetTileIndex(stage, column, row)) == (column, row)
  {
    DivModUnique(GetTileIndex(stage, column, row), stage.columns, row, column);
  }

  /** The records' tile indices, in order. */
  function TileIndices(tiles: seq<TileData>): (r: seq<int>)
    ensures |r| == |tiles| && forall k :: 0 <= k < |r| ==> r[k] == tiles[k].tileIndex
  {
    seq(|tiles|, k requires 0 <= k < |tiles| => tiles[k].tileIndex)
  }

  /** Position in `tiles` of the first record whose `tileIndex` matches, or
      -1 when none does. */
  function FirstTile(tiles: seq<TileData>, tileIndex: int): (r: int)
    ensures -1 <= r < |tiles|
    ensures r == -1 <==> forall k :: 0 <= k < |tiles| ==> tiles[k].tileIndex != tileIndex
    ensures r >= 0 ==> tiles[r].tileIndex == tileIndex
    ensures r >= 0 ==> forall k :: 0 <= k < r ==> tiles[k].tileIndex != tileIndex
  {
    IndexOf(TileIndices(tiles), tileIndex)
  }

  /** Whether a tile index is present in a tile list. */
  predicate Populated(tiles: seq<TileData>, tileIndex: int)
  {
    FirstTile(tiles, tileIndex) != -1
  }

  /** `HasTile`: a linear scan returning the first matching position, -1
      when there is none or the stage is null. */
  method HasTile(stage: Nullable<StageData>, tileIndex: int) returns (r: int)
    ensures stage.Null? ==> r == -1
    ensures stage.Some? ==> r == FirstTile(stage.value.tiles, tileIndex)
  {
    r := -1;
    if stage.Some? {
      var tiles := stage.value.tiles;
      var t := 0;
      while t < |tiles|
        invariant 0 <= t <= |tiles|
        invariant forall k :: 0 <= k < t ==> tiles[k].tileIndex != tileIndex
      {
        if tiles[t].tileIndex == tileIndex {
          r := t;
          return;
        }
        t := t + 1;
      }
    }
  }

  /** A lookup is unaffected by records whose index differs: only the
      `tileIndex` fields are consulted. */
  lemma {:induction false} FirstTileSameIndices(a: seq<TileData>, b: seq<TileData>, tileIndex: int)
    requires |a| == |b|
    requires forall k :: 0 <= k < |a| ==> a[k].tileIndex == b[k].tileIndex
    ensures FirstTile(a, tileIndex) == FirstTile(b, tileIndex)
  {
    if |a| > 0 {
      FirstTileSameIndices(a[1..], b[1..], tileIndex);
    }
  }

  /** `GetRotation`: yaw in degrees about the vertical axis. */
  function GetRotation(d: Direction): real
  {
    match d
    case Up => 0.0
    case Down => 180.0
    case Left => -90.0
    case Right => 90.0
    case _ => 0.0
  }

  function Opposite(d: Direction): Direction
  {
    match d
    case Up => Down
    case Down => Up
    case Left => Right
    case Right => Left
    case _ => d
  }

  /** Opposite facings are half a turn apart, the table is injective on the
      four movement directions, and everything else faces like `Up`. */
  lemma RotationTable(d: Direction, e: Direction)
    ensures IsCardinal(d) ==> GetRotation(d) - GetRotation(Opposite(d)) == 180.0 || GetRotation(Opposite(d)) - GetRotation(d) == 180.0
    ensures IsCardinal(d) && IsCardinal(e) && d != e ==> GetRotation(d) != GetRotation(e)
    ensures !IsCardinal(d) ==> GetRotation(d) == GetRotation(Up)
  {
  }
}
