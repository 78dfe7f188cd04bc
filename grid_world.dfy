/** The live grid while a stage is played: the tile dictionary keyed by
    tile index, each tile holding at most one occupant (`movable`), and the
    items standing on tiles — props, obstacles and characters. An item is
    identified by its position in the item table; a tile by its key. */
module GridWorld {
  import opened StageRecords

  /** A two-component offset, in tiles. */
  datatype Vec = Vec(x: real, y: real)

  const Zero: Vec := Vec(0.0, 0.0)

  /** A prop's per-direction push locks. */
  datatype Locks = Locks(down: bool, up: bool, left: bool, right: bool)

  /** The character state machine. `Unset` is the value a character holds
      from creation until it is first placed (the cast of -1). */
  datatype CharacterState = Unset | Idle | Walking | Pushing | Stunned

  /** A character's tuning, fixed per character prefab. */
  datatype CharacterConfig = CharacterConfig(
    axisMin: real,
    acceleration: real,
    maxVelocity: real,
    stunTime: real,
    stunInvulnerable: real,
    immovableSpawnTime: real)

  /** The fields a character adds to an item. */
  datatype Mover = Mover(
    playerIndex: int,
    canControl: bool,
    config: CharacterConfig,
    direction: Direction,
    velocity: real,
    state: CharacterState,
    stunElapsed: real,
    immovableElapsed: real)

  /** What kind of item it is, with that kind's own fields. */
  datatype Role =
    | Prop(data: PropData, locks: Locks)
    | Obstacle(data: PropData, locks: Locks, pushByChar: bool, isBeingPushed: bool)
    | Character(mover: Mover)

  /** An item: the tile index it was last given, whether that index named a
      tile (its `tile` reference is then that tile), its push offset and the
      direction it was pushed in this frame, its variant switches. */
  datatype GridItem = GridItem(
    tileIndex: int,
    onTile: bool,
    pushOffset: Vec,
    pushDirection: Direction,
    variants: seq<bool>,
    role: Role)

  /** A tile: its record, its variant switches and its occupant. */
  datatype GridTile = GridTile(data: TileData, variants: seq<bool>, movable: Nullable<int>)

  datatype World = World(tiles: map<int, GridTile>, items: seq<GridItem>)

  /** What the grid reports to the rest of the game: a win (a call of
      `WinStage`), a hit between two characters, and a character state
      change notification. */
  datatype Event =
    | Won(playerIndex: int)
    | Hit(target: int, pusher: int)
    | StateChanged(item: int, state: CharacterState)

  /** `Mathf.Abs`. */
  function Abs(x: real): (r: real)
    ensures r >= 0.0 && (r == x || r == -x)
  {
    if x < 0.0 then -x else x
  }

  predicate ValidItem(w: World, id: int)
  {
    0 <= id < |w.items|
  }

  /** Every tile is stored under its own index. */
  predicate Keyed(w: World)
  {
    forall k :: k in w.tiles ==> w.tiles[k].data.tileIndex == k
  }

  /** An item on a tile refers to a tile of the dictionary. */
  predicate Placed(w: World)
  {
    forall i :: 0 <= i < |w.items| && w.items[i].onTile ==> w.items[i].tileIndex in w.tiles
  }

  /** A tile's occupant is an item standing on that tile. */
  predicate Occupied(w: World)
  {
    forall k :: k in w.tiles && w.tiles[k].movable.Some? ==>
      var i := w.tiles[k].movable.value;
      0 <= i < |w.items| && w.items[i].onTile && w.items[i].tileIndex == k
  }

  /** The links the grid keeps between tiles and items. */
  predicate Consistent(w: World)
  {
    Keyed(w) && Placed(w) && Occupied(w)
  }

  /** Every item on a tile is that tile's occupant. */
  predicate Exclusive(w: World)
  {
    Consistent(w) &&
    forall i :: 0 <= i < |w.items| && w.items[i].onTile ==> w.tiles[w.items[i].tileIndex].movable == Some(i)
  }

  /** With every item its tile's occupant, no two items share a tile. */
  lemma ExclusiveOnePerTile(w: World, i: int, j: int)
    requires Exclusive(w) && ValidItem(w, i) && ValidItem(w, j) && i != j
    requires w.items[i].onTile && w.items[j].onTile
    ensures w.items[i].tileIndex != w.items[j].tileIndex
  {
  }

  /** `GridManager.GetTile`: the tile stored under an index, or null. */
  function GetTile(w: World, tileIndex: int): (r: Nullable<int>)
    ensures r.Some? <==> tileIndex in w.tiles
    ensures r.Some? ==> r.value == tileIndex
  {
    if tileIndex in w.tiles then Some(tileIndex) else Null
  }

  /** `GridTile.GetAdjacentTile`: the tile named by the stored neighbour
      index for the direction; null for `None`, for an unnamed direction
      and for an index with no tile. */
  function GetAdjacentTile(w: World, tile: int, d: Direction): (r: Nullable<int>)
    requires tile in w.tiles
    ensures r.Some? ==> r.value in w.tiles
  {
    var n := Neighbour(w.tiles[tile].data, d);
    if n.Null? then Null else GetTile(w, n.value)
  }

  /** Moving follows the stored neighbour indices only: the tile reached is
      the one whose record carries the neighbour index, and there is one
      exactly when the direction is a movement direction whose neighbour
      index is in the dictionary. */
  lemma AdjacentTileFollowsData(w: World, tile: int, d: Direction)
    requires Keyed(w) && tile in w.tiles
    ensures var r := GetAdjacentTile(w, tile, d);
            var data := w.tiles[tile].data;
            (r.Some? <==> IsCardinal(d) && Neighbour(data, d).value in w.tiles) &&
            (r.Some? ==> w.tiles[r.value].data.tileIndex == Neighbour(data, d).value) &&
            (d == Down && r.Some? ==> r.value == data.tileDown) &&
            (d == Up && r.Some? ==> r.value == data.tileUp) &&
            (d == Left && r.Some? ==> r.value == data.tileLeft) &&
            (d == Right && r.Some? ==> r.value == data.tileRight)
  {
  }

  /** `SetTileIndex`: leave the old tile if this item is its occupant,
      take the new index, and become the new tile's occupant if there is
      one; `reset` also clears the push offset and direction. */
  function SetTileIndex(w: World, id: int, newIndex: int, reset: bool): World
    requires Placed(w) && ValidItem(w, id)
  {
    var it := w.items[id];
    var tiles1 :=
      if it.onTile && w.tiles[it.tileIndex].movable == Some(id) then
        w.tiles[it.tileIndex := w.tiles[it.tileIndex].(movable := Null)]
      else w.tiles;
    var onNew := newIndex in tiles1;
    var tiles2 := if onNew then tiles1[newIndex := tiles1[newIndex].(movable := Some(id))] else tiles1;
    var moved := it.(tileIndex := newIndex, onTile := onNew);
    World(tiles2, w.items[id := if reset then moved.(pushOffset := Zero, pushDirection := None) else moved])
  }

  /** What `SetTileIndex` changes: the item takes the index (on a tile
      exactly when the index names one) and becomes that tile's occupant;
      its old tile is vacated only if it was the occupant; no other tile or
      item changes; the offset and push direction are cleared on reset and
      kept otherwise. */
  lemma SetTileIndexEffect(w: World, id: int, newIndex: int, reset: bool)
    requires Placed(w) && ValidItem(w, id)
    ensures var r := SetTileIndex(w, id, newIndex, reset);
            var it := w.items[id];
            r.tiles.Keys == w.tiles.Keys && |r.items| == |w.items| &&
            r.items[id].tileIndex == newIndex &&
            (r.items[id].onTile <==> newIndex in w.tiles) &&
            r.items[id].role == it.role && r.items[id].variants == it.variants &&
            (reset ==> r.items[id].pushOffset == Zero && r.items[id].pushDirection == None) &&
            (!reset ==> r.items[id].pushOffset == it.pushOffset && r.items[id].pushDirection == it.pushDirection) &&
            (forall i :: 0 <= i < |w.items| && i != id ==> r.items[i] == w.items[i]) &&
            (newIndex in w.tiles ==> r.tiles[newIndex].movable == Some(id)) &&
            (forall k :: k in w.tiles ==> r.tiles[k].data == w.tiles[k].data && r.tiles[k].variants == w.tiles[k].variants) &&
            (forall k :: k in w.tiles && k != newIndex ==>
               r.tiles[k].movable == (if it.onTile && k == it.tileIndex && w.tiles[k].movable == Some(id) then Null else w.tiles[k].movable))
  {
  }

  /** `SetTileIndex` keeps the grid's links. */
  lemma SetTileIndexConsistent(w: World, id: int, newIndex: int, reset: bool)
    requires Consistent(w) && ValidItem(w, id)
    ensures Consistent(SetTileIndex(w, id, newIndex, reset))
  {
    SetTileIndexEffect(w, id, newIndex, reset);
  }

  /** Moving an item onto a free tile (or nowhere) keeps every item its
      tile's occupant. */
  lemma SetTileIndexExclusive(w: World, id: int, newIndex: int, reset: bool)
    requires Exclusive(w) && ValidItem(w, id)
    requires newIndex in w.tiles ==> w.tiles[newIndex].movable.Null? || w.tiles[newIndex].movable == Some(id)
    ensures Exclusive(SetTileIndex(w, id, newIndex, reset))
  {
    SetTileIndexEffect(w, id, newIndex, reset);
    SetTileIndexConsistent(w, id, newIndex, reset);
  }

  /** `SetVariant` / the variant loop of `GridTile.LoadData`: switch on the
      variant at the chosen position and every other one off. */
  function SetVariant(count: nat, chosen: int): (r: seq<bool>)
    ensures |r| == count
  {
    seq(count, v => v == chosen)
  }

  /** Exactly one variant is on when the chosen position exists, and none
      otherwise. */
  lemma SetVariantExactlyOne(count: nat, chosen: int)
    ensures var r := SetVariant(count, chosen);
            (forall u, v :: 0 <= u < count && 0 <= v < count && r[u] && r[v] ==> u == v) &&
            ((exists v :: 0 <= v < count && r[v]) <==> 0 <= chosen < count) &&
            (0 <= chosen < count ==> r[chosen])
  {
    var r := SetVariant(count, chosen);
    if 0 <= chosen < count {
      assert r[chosen];
    }
  }

  /** `GridTile.LoadData`: take the record, no occupant, pick the variant. */
  function LoadTile(data: TileData, variantCount: nat): (t: GridTile)
  {
    GridTile(data, SetVariant(variantCount, data.tilePrefabVariant), Null)
  }

  lemma LoadTileEffect(data: TileData, variantCount: nat)
    ensures var t := LoadTile(data, variantCount);
            t.data == data && t.movable.Null? && |t.variants| == variantCount &&
            forall v :: 0 <= v < variantCount ==> (t.variants[v] <==> v == data.tilePrefabVariant)
  {
  }
}
