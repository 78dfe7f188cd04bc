/** A new stage as the editor generates it: every cell of the
    `columns * rows` grid holds a tile linked to its torus neighbours, the
    border cells hold walls, a win prop stands in the middle and the spawn
    slots line up along the second row. */
module StageCreation {
  import opened StageRecords
  import opened GridTopology
  import opened StageEditing
  import opened StageValidation

  /** Index of cell (x, y) in a grid `columns` wide. */
  function Cell(columns: int, x: int, y: int): int
  {
    y * columns + x
  }

  /** The tile a new stage has at (x, y): floor-type prefab 0, a
      checkerboard variant, and links to the neighbours on the torus,
      columns and rows both wrapping. */
  function TorusTile(columns: int, rows: int, x: int, y: int): TileData
    requires columns > 0 && rows > 0
  {
    TileData(
      Cell(columns, x, y),
      0,
      (x + y + (if columns % 2 == 0 then 1 else 0)) % 2,
      Cell(columns, x, (y + 1) % rows),
      Cell(columns, x, (y - 1) % rows),
      Cell(columns, (x + 1) % columns, y),
      Cell(columns, (x - 1) % columns, y))
  }

  /** The torus tile stored at array position `k`. */
  function TorusAt(columns: int, rows: int, k: int): TileData
    requires columns > 0 && rows > 0
  {
    TorusTile(columns, rows, k % columns, k / columns)
  }

  /** Cell `k` lies on the outer ring of the grid. */
  predicate IsBorder(columns: int, rows: int, k: int)
    requires columns > 0
  {
    var x, y := k % columns, k / columns;
    x == 0 || y == 0 || x == columns - 1 || y == rows - 1
  }

  /** The wall the generator puts on border cell `k`. */
  function Wall(k: int): PropData
  {
    PropData(k, Down, 0, 0, false)
  }

  /** The walls of the first `n` cells, in cell order. */
  function BorderWalls(columns: int, rows: int, n: int): seq<PropData>
    requires columns > 0
    decreases n
  {
    if n <= 0 then []
    else BorderWalls(columns, rows, n - 1) + (if IsBorder(columns, rows, n - 1) then [Wall(n - 1)] else [])
  }

  /** Cell of the win prop: the middle row's middle cell (floors). */
  function WinCell(columns: int, rows: int): int
  {
    (rows / 2) * columns + columns / 2
  }

  function WinProp(columns: int, rows: int): PropData
  {
    PropData(WinCell(columns, rows), Down, 1, 0, true)
  }

  /** Spawn slot `p` of a new stage: second row, column `p + 1`. */
  function Spawn(columns: int, p: int): PlayerData
  {
    PlayerData(columns + 1 + p, Down)
  }

  /** The stage the generator builds: the torus tiles in cell order, the
      border walls in cell order followed by the win prop, and
      `playerSlots` spawn slots. */
  function NewStage(stageID: string, columns: int, rows: int, playerSlots: nat): StageData
    requires columns > 0 && rows > 0
  {
    MulAtLeast(rows, columns);
    StageData(stageID, columns, rows,
      seq(rows * columns, k => TorusAt(columns, rows, k)),
      Some(BorderWalls(columns, rows, rows * columns) + [WinProp(columns, rows)]),
      Some(seq(playerSlots, p => Spawn(columns, p))))
  }

  /** The tile exactly as the generator's loop computes it at column `x`
      of row `y`, whose cells run from `firstX` to `lastX` in a grid of
      `total` cells. */
  function GeneratedTile(columns: int, total: int, y: int, firstX: int, lastX: int, x: int): TileData
  {
    var i := firstX + x;
    var v := if i % 2 == 0 then 0 else 1;
    var left := if i - 1 < firstX then lastX else i - 1;
    var right := if i + 1 > lastX then firstX else i + 1;
    var up := if i - columns < 0 then i - columns + total else i - columns;
    var down := if i + columns >= total then i + columns - total else i + columns;
    TileData(i, 0, if y % 2 == 0 && columns % 2 == 0 then 1 - v else v, down, up, right, left)
  }

  /** `y * columns` is even exactly when `y` or `columns` is. */
  lemma {:induction false} ProductParity(y: int, columns: int)
    requires y >= 0
    ensures (y * columns) % 2 == (if y % 2 == 1 && columns % 2 != 0 then 1 else 0)
    decreases y
  {
    if y > 0 {
      ProductParity(y - 1, columns);
      assert y * columns == (y - 1) * columns + columns;
    }
  }

  /** Row `y` lies entirely below `rows * columns`. */
  lemma RowBelow(y: int, rows: int, columns: int)
    requires 0 <= y < rows && columns > 0
    ensures y * columns + columns <= rows * columns
  {
    MulAtLeast(rows - y, columns);
    assert (rows - y) * columns == rows * columns - y * columns;
  }

  /** Left and right wrap within the row. */
  lemma HorizontalWrap(columns: int, x: int, firstX: int, lastX: int)
    requires 0 <= x < columns && lastX == firstX + columns - 1
    ensures (if firstX + x - 1 < firstX then lastX else firstX + x - 1) == firstX + (x - 1) % columns
    ensures (if firstX + x + 1 > lastX then firstX else firstX + x + 1) == firstX + (x + 1) % columns
  {
    if x == 0 {
      DivModUnique(x - 1, columns, -1, columns - 1);
    } else {
      DivModUnique(x - 1, columns, 0, x - 1);
    }
    if x == columns - 1 {
      DivModUnique(x + 1, columns, 1, 0);
    } else {
      DivModUnique(x + 1, columns, 0, x + 1);
    }
  }

  /** Up wraps from the first row to the last. */
  lemma {:induction false} UpWrap(columns: int, rows: int, x: int, y: int)
    requires 0 <= x < columns && 0 <= y < rows
    ensures var i, total := y * columns + x, columns * rows;
            (if i - columns < 0 then i - columns + total else i - columns) == Cell(columns, x, (y - 1) % rows)
  {
    if y == 0 {
      DivModUnique(y - 1, rows, -1, rows - 1);
      assert (rows - 1) * columns == columns * rows - columns;
    } else {
      DivModUnique(y - 1, rows, 0, y - 1);
      MulAtLeast(y, columns);
      assert (y - 1) * columns == y * columns - columns;
    }
  }

  /** Down wraps from the last row to the first. */
  lemma {:induction false} DownWrap(columns: int, rows: int, x: int, y: int)
    requires 0 <= x < columns && 0 <= y < rows
    ensures var i, total := y * columns + x, columns * rows;
            (if i + columns >= total then i + columns - total else i + columns) == Cell(columns, x, (y + 1) % rows)
  {
    assert (y + 1) * columns == y * columns + columns;
    if y == rows - 1 {
      DivModUnique(y + 1, rows, 1, 0);
      assert (rows - 1) * columns == columns * rows - columns;
    } else {
      DivModUnique(y + 1, rows, 0, y + 1);
      RowBelow(y + 1, rows, columns);
    }
  }

  /** The checkerboard: the parity of the index, flipped on even rows when
      the row length is even, is the parity of `x + y` shifted by one for
      even row lengths. */
  lemma {:induction false} CheckerVariant(columns: int, x: int, y: int)
    requires 0 <= x < columns && 0 <= y
    ensures var i := y * columns + x;
            var v := if i % 2 == 0 then 0 else 1;
            (if y % 2 == 0 && columns % 2 == 0 then 1 - v else v) == (x + y + (if columns % 2 == 0 then 1 else 0)) % 2
  {
    ProductParity(y, columns);
    ParitySum(y * columns, x);
    ParitySum(x + y, if columns % 2 == 0 then 1 else 0);
    ParitySum(x, y);
  }

  /** The parity of a sum is the sum of the parities. */
  lemma ParitySum(a: int, b: int)
    ensures (a + b) % 2 == (a % 2 + b % 2) % 2
  {
  }

  /** The generator's computation is the torus tile. */
  lemma {:induction false} GeneratedIsTorus(columns: int, rows: int, x: int, y: int, firstX: int, lastX: int, total: int)
    requires 0 <= x < columns && 0 <= y < rows
    requires firstX == y * columns && lastX == firstX + columns - 1 && total == columns * rows
    ensures GeneratedTile(columns, total, y, firstX, lastX, x) == TorusTile(columns, rows, x, y)
  {
    HorizontalWrap(columns, x, firstX, lastX);
    UpWrap(columns, rows, x, y);
    DownWrap(columns, rows, x, y);
    CheckerVariant(columns, x, y);
  }

  /** One cell of the generator's loop: its array position is in range,
      its tile is the torus tile there, and its wall test is the border
      test. */
  lemma {:induction false} CellStep(columns: int, rows: int, x: int, y: int, firstX: int, lastX: int, total: int)
    requires 0 <= x < columns && 0 <= y < rows
    requires firstX == y * columns && lastX == firstX + columns - 1 && total == columns * rows
    ensures 0 <= firstX + x < total
    ensures TorusAt(columns, rows, firstX + x) == GeneratedTile(columns, total, y, firstX, lastX, x)
    ensures IsBorder(columns, rows, firstX + x) <==> x == 0 || y == 0 || x == columns - 1 || y == rows - 1
  {
    CellCoordinates(columns, rows, x, y, firstX + x);
    GeneratedIsTorus(columns, rows, x, y, firstX, lastX, total);
  }

  lemma {:induction false} CellCoordinates(columns: int, rows: int, x: int, y: int, k: int)
    requires 0 <= x < columns && 0 <= y < rows && k == y * columns + x
    ensures 0 <= k < columns * rows && k % columns == x && k / columns == y
  {
    DivModUnique(k, columns, y, x);
    RowBelow(y, rows, columns);
    MulAtLeast(rows, columns);
    assert columns * rows == rows * columns;
    if y > 0 {
      MulAtLeast(y, columns);
    }
  }

  /** The loop body's tile: checkerboard variant and the four wrapped
      neighbour links of cell `firstX + x`. */
  method ComputeTile(columns: int, total: int, y: int, firstX: int, lastX: int, x: int) returns (tile: TileData)
    ensures tile == GeneratedTile(columns, total, y, firstX, lastX, x)
  {
    var tileIndex := firstX + x;
    var variant := if tileIndex % 2 == 0 then 0 else 1;
    if y % 2 == 0 && columns % 2 == 0 {
      variant := 1 - variant;
    }
    var left := tileIndex - 1;
    if left < firstX {
      left := lastX;
    }
    var right := tileIndex + 1;
    if right > lastX {
      right := firstX;
    }
    var up := tileIndex - columns;
    if up < 0 {
      up := up + total;
    }
    var down := tileIndex + columns;
    if down >= total {
      down := down - total;
    }
    tile := TileData(tileIndex, 0, variant, down, up, right, left);
  }

  /** The generator's inner loop over row `y`, whose first cell is
      `firstX`: write each cell's tile and collect the row's border walls. */
  method FillRow(tiles: array<TileData>, columns: int, rows: int, y: int, firstX: int, walls: seq<PropData>)
    returns (walls': seq<PropData>)
    requires 0 <= y < rows && columns > 0 && tiles.Length == columns * rows
    requires firstX == y * columns && 0 <= firstX && firstX + columns <= tiles.Length
    requires walls == BorderWalls(columns, rows, firstX)
    requires forall k :: 0 <= k < firstX ==> tiles[k] == TorusAt(columns, rows, k)
    modifies tiles
    ensures walls' == BorderWalls(columns, rows, firstX + columns)
    ensures forall k :: 0 <= k < firstX + columns ==> tiles[k] == TorusAt(columns, rows, k)
  {
    var total := tiles.Length;
    var lastX := (y + 1) * columns - 1;
    assert lastX == firstX + columns - 1 by {
      assert (y + 1) * columns == y * columns + columns;
    }
    walls' := walls;
    var x := 0;
    while x < columns
      invariant 0 <= x <= columns
      invariant walls' == BorderWalls(columns, rows, firstX + x)
      invariant forall k :: 0 <= k < firstX + x ==> tiles[k] == TorusAt(columns, rows, k)
    {
      var tileIndex := firstX + x;
      var tile := ComputeTile(columns, total, y, firstX, lastX, x);
      CellStep(columns, rows, x, y, firstX, lastX, total);
      tiles[tileIndex] := tile;
      if x == 0 || y == 0 || x == columns - 1 || y == rows - 1 {
        walls' := walls' + [Wall(tileIndex)];
      }
      x := x + 1;
    }
  }

  /** `CreateNewStage`: fill the grid row by row, collecting border walls,
      then add the win prop and `playerSlots` spawn slots. Saving the stage
      to disk is not part of this model. */
  method CreateNewStage(stageID: string, columns: int, rows: int, playerSlots: nat) returns (stage: StageData)
    requires columns > 0 && rows > 0
    ensures stage == NewStage(stageID, columns, rows, playerSlots)
  {
    var total := columns * rows;
    MulAtLeast(rows, columns);
    assert total == rows * columns;
    var tiles := new TileData[total];
    var walls: seq<PropData> := [];
    var y := 0;
    ghost var firstX := 0;
    while y < rows
      modifies tiles
      invariant 0 <= y <= rows && firstX == y * columns
      invariant walls == BorderWalls(columns, rows, firstX)
      invariant forall k :: 0 <= k < firstX ==> tiles[k] == TorusAt(columns, rows, k)
    {
      RowBelow(y, rows, columns);
      walls := FillRow(tiles, columns, rows, y, y * columns, walls);
      assert (y + 1) * columns == firstX + columns;
      firstX := firstX + columns;
      y := y + 1;
    }
    assert firstX == total;
    ghost var filled := tiles[..];
    assert forall k :: 0 <= k < |filled| ==> filled[k] == TorusAt(columns, rows, k);
    var win := WinProp(columns, rows);
    walls := walls + [win];
    var players := new PlayerData[playerSlots];
    var p := 0;
    while p < playerSlots
      modifies players
      invariant 0 <= p <= playerSlots
      invariant forall j :: 0 <= j < p ==> players[j] == Spawn(columns, j)
    {
      players[p] := PlayerData(columns + 1 + p, Down);
      p := p + 1;
    }
    assert tiles[..] == filled;
    stage := StageData(stageID, columns, rows, tiles[..], Some(walls), Some(players[..]));
    assert stage.tiles == NewStage(stageID, columns, rows, playerSlots).tiles;
    assert stage.players.value == NewStage(stageID, columns, rows, playerSlots).players.value;
  }

  // ---------------------------------------------------------------------
  // What a new stage looks like.

  /** Down and up are inverse links: from cell (x, y), one step down and
      one step back up lead home, and so do up then down. */
  lemma VerticalLinksInverse(columns: int, rows: int, x: int, y: int)
    requires 0 <= x < columns && 0 <= y < rows
    ensures 0 <= TorusTile(columns, rows, x, y).tileDown < columns * rows
    ensures 0 <= TorusTile(columns, rows, x, y).tileUp < columns * rows
    ensures TorusAt(columns, rows, TorusTile(columns, rows, x, y).tileDown).tileUp == Cell(columns, x, y)
    ensures TorusAt(columns, rows, TorusTile(columns, rows, x, y).tileUp).tileDown == Cell(columns, x, y)
  {
    var yd, yu := (y + 1) % rows, (y - 1) % rows;
    if y + 1 < rows {
      DivModUnique(y + 1, rows, 0, y + 1);
    } else {
      DivModUnique(y + 1, rows, 1, 0);
    }
    if y > 0 {
      DivModUnique(y - 1, rows, 0, y - 1);
    } else {
      DivModUnique(y - 1, rows, -1, rows - 1);
    }
    StepBack(rows, yd, y);
    StepAhead(rows, yu, y);
    CellCoordinates(columns, rows, x, yd, Cell(columns, x, yd));
    CellCoordinates(columns, rows, x, yu, Cell(columns, x, yu));
  }

  /** Right and left are inverse links within a row. */
  lemma HorizontalLinksInverse(columns: int, rows: int, x: int, y: int)
    requires 0 <= x < columns && 0 <= y < rows
    ensures 0 <= TorusTile(columns, rows, x, y).tileRight < columns * rows
    ensures 0 <= TorusTile(columns, rows, x, y).tileLeft < columns * rows
    ensures TorusAt(columns, rows, TorusTile(columns, rows, x, y).tileRight).tileLeft == Cell(columns, x, y)
    ensures TorusAt(columns, rows, TorusTile(columns, rows, x, y).tileLeft).tileRight == Cell(columns, x, y)
  {
    var xr, xl := (x + 1) % columns, (x - 1) % columns;
    if x + 1 < columns {
      DivModUnique(x + 1, columns, 0, x + 1);
    } else {
      DivModUnique(x + 1, columns, 1, 0);
    }
    if x > 0 {
      DivModUnique(x - 1, columns, 0, x - 1);
    } else {
      DivModUnique(x - 1, columns, -1, columns - 1);
    }
    StepBack(columns, xr, x);
    StepAhead(columns, xl, x);
    CellCoordinates(columns, rows, xr, y, Cell(columns, xr, y));
    CellCoordinates(columns, rows, xl, y, Cell(columns, xl, y));
  }

  /** Stepping back from the successor of `a` on a ring of size `n`. */
  lemma StepBack(n: int, b: int, a: int)
    requires 0 <= a < n && b == (a + 1) % n
    ensures (b - 1) % n == a
  {
    if a + 1 < n {
      DivModUnique(a + 1, n, 0, a + 1);
      DivModUnique(a, n, 0, a);
    } else {
      DivModUnique(a + 1, n, 1, 0);
      DivModUnique(-1, n, -1, n - 1);
    }
  }

  /** Stepping ahead from the predecessor of `a` on a ring of size `n`. */
  lemma StepAhead(n: int, b: int, a: int)
    requires 0 <= a < n && b == (a - 1) % n
    ensures (b + 1) % n == a
  {
    if a > 0 {
      DivModUnique(a - 1, n, 0, a - 1);
      DivModUnique(a, n, 0, a);
    } else {
      DivModUnique(a - 1, n, -1, n - 1);
      DivModUnique(n, n, 1, 0);
    }
  }

  /** The variant of the tile at cell (x, y), stored at position `k`. */
  lemma VariantAt(columns: int, rows: int, x: int, y: int, k: int)
    requires 0 <= x < columns && 0 <= y < rows && k == y * columns + x
    ensures TorusAt(columns, rows, k).tilePrefabVariant == (x + y + (if columns % 2 == 0 then 1 else 0)) % 2
  {
    CellCoordinates(columns, rows, x, y, k);
  }

  /** Tiles side by side in a row, or one above the other, have different
      variants: the floor is a checkerboard. */
  lemma CheckerAlternates(columns: int, rows: int, k: int)
    requires columns > 0 && rows > 0 && 0 <= k < columns * rows
    ensures 0 <= TorusAt(columns, rows, k).tilePrefabVariant <= 1
    ensures k % columns + 1 < columns ==>
              TorusAt(columns, rows, k + 1).tilePrefabVariant != TorusAt(columns, rows, k).tilePrefabVariant
    ensures k + columns < columns * rows ==>
              TorusAt(columns, rows, k + columns).tilePrefabVariant != TorusAt(columns, rows, k).tilePrefabVariant
  {
    var x, y := k % columns, k / columns;
    QuotientBelow(k, columns, rows);
    VariantAt(columns, rows, x, y, k);
    if x + 1 < columns {
      VariantAt(columns, rows, x + 1, y, k + 1);
    }
    if k + columns < columns * rows {
      CheckerBelow(columns, rows, k);
    }
  }

  /** The tile one row further on has the other variant. */
  lemma CheckerBelow(columns: int, rows: int, k: int)
    requires columns > 0 && rows > 0 && 0 <= k && k + columns < columns * rows
    ensures TorusAt(columns, rows, k + columns).tilePrefabVariant != TorusAt(columns, rows, k).tilePrefabVariant
  {
    var x, y := CellBelow(columns, rows, k);
    VariantAt(columns, rows, x, y, k);
    VariantAt(columns, rows, x, y + 1, k + columns);
    ParityFlip(x + y + (if columns % 2 == 0 then 1 else 0));
  }

  /** The cell of position `k`, and the next row's cell is one row down. */
  lemma CellBelow(columns: int, rows: int, k: int) returns (x: int, y: int)
    requires columns > 0 && rows > 0 && 0 <= k && k + columns < columns * rows
    ensures 0 <= x < columns && 0 <= y && y + 1 < rows
    ensures k == y * columns + x && k + columns == (y + 1) * columns + x
  {
    x, y := k % columns, k / columns;
    assert k == y * columns + x;
    assert (y + 1) * columns == y * columns + columns;
    DivModUnique(k + columns, columns, y + 1, x);
    QuotientBelow(k + columns, columns, rows);
  }

  lemma ParityFlip(a: int)
    ensures (a + 1) % 2 != a % 2
  {
  }

  /** Walls on distinct border cells below `n`, in increasing cell order. */
  predicate WallsInOrder(columns: int, rows: int, walls: seq<PropData>, n: int)
    requires columns > 0
  {
    (forall k :: 0 <= k < |walls| ==>
       walls[k] == Wall(walls[k].tileIndex) && 0 <= walls[k].tileIndex < n && IsBorder(columns, rows, walls[k].tileIndex)) &&
    (forall i, j :: 0 <= i < j < |walls| ==> walls[i].tileIndex < walls[j].tileIndex)
  }

  /** The collected walls are one per border cell, in cell order. */
  lemma {:induction false} BorderWallsOrdered(columns: int, rows: int, n: int)
    requires columns > 0
    ensures WallsInOrder(columns, rows, BorderWalls(columns, rows, n), n)
    decreases n
  {
    if n > 0 {
      var w := BorderWalls(columns, rows, n - 1);
      BorderWallsOrdered(columns, rows, n - 1);
      if IsBorder(columns, rows, n - 1) {
        var w' := w + [Wall(n - 1)];
        assert BorderWalls(columns, rows, n) == w';
        assert forall k :: 0 <= k < |w| ==> w'[k] == w[k];
        assert w'[|w|] == Wall(n - 1);
      } else {
        assert BorderWalls(columns, rows, n) == w;
      }
    }
  }

  /** Cell `u` carries exactly one wall when it is a border cell below `n`,
      and none otherwise. */
  lemma {:induction false} BorderWallsOn(columns: int, rows: int, n: int, u: int)
    requires columns > 0
    ensures PropsOn(BorderWalls(columns, rows, n), u) ==
              if 0 <= u < n && IsBorder(columns, rows, u) then [Wall(u)] else []
    decreases n
  {
    if n > 0 {
      var w := BorderWalls(columns, rows, n - 1);
      BorderWallsOn(columns, rows, n - 1, u);
      if IsBorder(columns, rows, n - 1) {
        assert BorderWalls(columns, rows, n) == w + [Wall(n - 1)];
        PropsOnConcat(w, [Wall(n - 1)], u);
        assert [Wall(n - 1)][1..] == [];
      } else {
        assert BorderWalls(columns, rows, n) == w;
      }
    }
  }

  /** The win cell is an interior cell of a grid at least three by three. */
  lemma WinCellInterior(columns: int, rows: int)
    requires columns >= 3 && rows >= 3
    ensures 0 <= WinCell(columns, rows) < columns * rows
    ensures WinCell(columns, rows) / columns == rows / 2
    ensures !IsBorder(columns, rows, WinCell(columns, rows))
  {
    CellCoordinates(columns, rows, columns / 2, rows / 2, WinCell(columns, rows));
  }

  /** Spawn slot `p` stands on an interior cell of the second row. */
  lemma SpawnInterior(columns: int, rows: int, p: int)
    requires rows >= 3 && 0 <= p && p + 3 <= columns
    ensures 0 <= Spawn(columns, p).tileIndex < columns * rows
    ensures Spawn(columns, p).tileIndex / columns == 1
    ensures !IsBorder(columns, rows, Spawn(columns, p).tileIndex)
  {
    CellCoordinates(columns, rows, p + 1, 1, Spawn(columns, p).tileIndex);
  }

  /** Every cell of a new stage carries exactly the props the generator
      meant for it: a wall on each border cell, the win prop on the middle
      cell, nothing elsewhere. */
  lemma NewStagePropsOn(stageID: string, columns: int, rows: int, playerSlots: nat, u: int)
    requires columns >= 3 && rows >= 3
    ensures var props := NewStage(stageID, columns, rows, playerSlots).props.value;
            PropsOn(props, u) ==
              if 0 <= u < columns * rows && IsBorder(columns, rows, u) then [Wall(u)]
              else if u == WinCell(columns, rows) then [WinProp(columns, rows)]
              else []
  {
    var w := BorderWalls(columns, rows, rows * columns);
    assert rows * columns == columns * rows;
    BorderWallsOn(columns, rows, rows * columns, u);
    PropsOnConcat(w, [WinProp(columns, rows)], u);
    WinCellInterior(columns, rows);
    assert [WinProp(columns, rows)][1..] == [];
  }

  /** A new stage on a grid of at least three columns and four rows, with
      room for its spawn slots in the second row, is sound and passes the
      validator. */
  lemma NewStageValid(stageID: string, columns: int, rows: int, playerSlots: nat)
    requires columns >= 3 && rows >= 4 && playerSlots + 2 <= columns
    ensures Sound(NewStage(stageID, columns, rows, playerSlots))
    ensures ValidStage(Some(NewStage(stageID, columns, rows, playerSlots)))
    ensures CheckStage(Some(NewStage(stageID, columns, rows, playerSlots))) == Valid
  {
    var s := NewStage(stageID, columns, rows, playerSlots);
    var w := BorderWalls(columns, rows, rows * columns);
    var props, players := s.props.value, s.players.value;
    assert rows * columns == columns * rows;
    BorderWallsOrdered(columns, rows, rows * columns);
    WinCellInterior(columns, rows);
    assert forall k :: 0 <= k < |w| ==> props[k] == w[k];
    assert props[|w|] == WinProp(columns, rows);
    forall q | 0 <= q < |players|
      ensures InGrid(s, players[q].tileIndex)
      ensures !IsBorder(columns, rows, players[q].tileIndex)
      ensures players[q].tileIndex != WinCell(columns, rows)
    {
      SpawnInterior(columns, rows, q);
    }
    assert HasWinProp(props);
    CheckStageAccepts(Some(s));
  }
}
