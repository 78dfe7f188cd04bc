/** `GridManager.Load(StageData)`: building the live grid from a stage
    record — the tile dictionary first, then the props, then one character
    per joined player. Prefabs appear only as what the load reads of them;
    a load that throws is `Null`. */
module GridLoad {
  import opened StageRecords
  import opened GridWorld
  import opened GridCharacters

  /** A prop prefab: its variant count, whether it is an obstacle, and its
      lock switches. */
  datatype PropPrefab = PropPrefab(variantCount: nat, obstacle: bool, locks: Locks)

  /** A character prefab: its variant count, whether its player controls
      it, and its tuning. */
  datatype CharacterPrefab = CharacterPrefab(variantCount: nat, canControl: bool, config: CharacterConfig)

  /** What the load takes for one joined player: the prefab found for the
      player's character (null when there are no character prefabs), the
      character's variant, and the random value for the facing draw. */
  datatype Cast = Cast(prefab: Nullable<CharacterPrefab>, variant: int, draw: nat)

  // ---------------------------------------------------------------------
  // Tiles.

  /** The tile prefab a record names, as its variant count; null when the
      index is out of range or the entry is empty. */
  function TilePrefab(prefabs: seq<Nullable<nat>>, d: TileData): Nullable<nat>
  {
    if 0 <= d.tilePrefab < |prefabs| then prefabs[d.tilePrefab] else Null
  }

  predicate Loadable(d: TileData, prefabs: seq<Nullable<nat>>)
  {
    TilePrefab(prefabs, d).Some?
  }

  /** One pass of the tile loop: a record whose index already has a tile,
      or whose prefab is missing, is skipped. */
  function AddTile(tiles: map<int, GridTile>, d: TileData, prefabs: seq<Nullable<nat>>): map<int, GridTile>
  {
    if d.tileIndex in tiles then tiles
    else match TilePrefab(prefabs, d)
      case Null => tiles
      case Some(n) => tiles[d.tileIndex := LoadTile(d, n)]
  }

  /** The tile dictionary after the loop has seen the records `ds`. */
  function LoadTiles(ds: seq<TileData>, prefabs: seq<Nullable<nat>>): map<int, GridTile>
  {
    if ds == [] then map[] else AddTile(LoadTiles(ds[..|ds| - 1], prefabs), ds[|ds| - 1], prefabs)
  }

  /** Record `i` is the first loadable record for its index. */
  predicate FirstFor(ds: seq<TileData>, prefabs: seq<Nullable<nat>>, i: int)
    requires 0 <= i < |ds|
  {
    Loadable(ds[i], prefabs) &&
    forall j :: 0 <= j < i ==> !(Loadable(ds[j], prefabs) && ds[j].tileIndex == ds[i].tileIndex)
  }

  /** The dictionary has a tile for exactly the indices of the loadable
      records, and the tile under an index is the one loaded from the first
      loadable record for it: later duplicates never replace it. */
  lemma {:induction false} LoadTilesFirst(ds: seq<TileData>, prefabs: seq<Nullable<nat>>)
    ensures forall k :: k in LoadTiles(ds, prefabs) <==>
              exists i :: 0 <= i < |ds| && Loadable(ds[i], prefabs) && ds[i].tileIndex == k
    ensures forall i :: 0 <= i < |ds| && FirstFor(ds, prefabs, i) ==>
              LoadTiles(ds, prefabs)[ds[i].tileIndex] == LoadTile(ds[i], TilePrefab(prefabs, ds[i]).value)
  {
    if ds != [] {
      var init, last := ds[..|ds| - 1], ds[|ds| - 1];
      LoadTilesFirst(init, prefabs);
      var m := LoadTiles(init, prefabs);
      forall k
        ensures k in LoadTiles(ds, prefabs) <==>
                exists i :: 0 <= i < |ds| && Loadable(ds[i], prefabs) && ds[i].tileIndex == k
      {
        if k in LoadTiles(ds, prefabs) && k != last.tileIndex {
          var i :| 0 <= i < |init| && Loadable(init[i], prefabs) && init[i].tileIndex == k;
          assert ds[i] == init[i];
        }
        if exists i :: 0 <= i < |ds| && Loadable(ds[i], prefabs) && ds[i].tileIndex == k {
          var i :| 0 <= i < |ds| && Loadable(ds[i], prefabs) && ds[i].tileIndex == k;
          if i < |init| {
            assert init[i] == ds[i];
          }
        }
      }
      forall i | 0 <= i < |ds| && FirstFor(ds, prefabs, i)
        ensures LoadTiles(ds, prefabs)[ds[i].tileIndex] == LoadTile(ds[i], TilePrefab(prefabs, ds[i]).value)
      {
        if i < |init| {
          assert init[i] == ds[i];
          assert FirstFor(init, prefabs, i) by {
            forall j | 0 <= j < i
              ensures !(Loadable(init[j], prefabs) && init[j].tileIndex == init[i].tileIndex)
            {
              assert init[j] == ds[j];
            }
          }
        }
      }
    }
  }

  /** Every tile is stored under its own index and starts with no
      occupant. */
  lemma {:induction false} LoadTilesEmpty(ds: seq<TileData>, prefabs: seq<Nullable<nat>>)
    ensures forall k :: k in LoadTiles(ds, prefabs) ==>
              LoadTiles(ds, prefabs)[k].data.tileIndex == k && LoadTiles(ds, prefabs)[k].movable.Null?
  {
    if ds != [] {
      LoadTilesEmpty(ds[..|ds| - 1], prefabs);
    }
  }

  /** The grid before any item is placed. */
  function TileGrid(ds: seq<TileData>, prefabs: seq<Nullable<nat>>): (w: World)
    ensures Consistent(w) && Exclusive(w) && w.items == []
    ensures w.tiles == LoadTiles(ds, prefabs)
  {
    LoadTilesEmpty(ds, prefabs);
    World(LoadTiles(ds, prefabs), [])
  }

  // ---------------------------------------------------------------------
  // Props.

  /** The prop prefab used for a record: the one it names when that entry
      exists, or else prefab 0; null, where the load throws, when there is
      no prefab 0. */
  function PropPrefabFor(prefabs: seq<Nullable<PropPrefab>>, d: PropData): Nullable<PropPrefab>
  {
    if 0 <= d.propPrefab < |prefabs| && prefabs[d.propPrefab].Some? then prefabs[d.propPrefab]
    else if |prefabs| > 0 then prefabs[0]
    else Null
  }

  /** `GridProp.LoadData` on a fresh instance: the record, the prefab's
      locks and kind, the chosen variant, no offset, on no tile yet. */
  function NewProp(d: PropData, pp: PropPrefab): GridItem
  {
    GridItem(-1, false, Zero, None, SetVariant(pp.variantCount, d.propPrefabVariant),
             if pp.obstacle then Obstacle(d, pp.locks, false, false) else Prop(d, pp.locks))
  }

  /** One pass of the prop loop: a record whose tile is missing or already
      occupied is skipped; otherwise the prop joins the item table and is
      moved onto its tile. */
  function AddProp(w: World, d: PropData, prefabs: seq<Nullable<PropPrefab>>): (r: Nullable<World>)
    requires Consistent(w)
    ensures r.Some? ==> Consistent(r.value)
  {
    if d.tileIndex !in w.tiles || w.tiles[d.tileIndex].movable.Some? then Some(w)
    else match PropPrefabFor(prefabs, d)
      case Null => Null
      case Some(pp) =>
        var w1 := w.(items := w.items + [NewProp(d, pp)]);
        assert Consistent(w1);
        SetTileIndexConsistent(w1, |w.items|, d.tileIndex, true);
        Some(SetTileIndex(w1, |w.items|, d.tileIndex, true))
  }

  /** A prop on a missing or occupied tile is skipped; any other joins the
      table as its tile's occupant, with the record, the prefab's locks and
      kind — a missing prefab falling back to prefab 0 rather than skipping
      the prop — and the chosen variant. Nothing else changes, and every
      item stays its tile's only occupant. */
  lemma AddPropEffect(w: World, d: PropData, prefabs: seq<Nullable<PropPrefab>>)
    requires Consistent(w)
    ensures var r := AddProp(w, d, prefabs);
            var skip := d.tileIndex !in w.tiles || w.tiles[d.tileIndex].movable.Some?;
            (skip ==> r == Some(w)) &&
            (!skip ==> (r.Null? <==> PropPrefabFor(prefabs, d).Null?)) &&
            (!skip && r.Some? ==>
               var pp := PropPrefabFor(prefabs, d).value;
               var it := r.value.items[|w.items|];
               |r.value.items| == |w.items| + 1 &&
               r.value.items[..|w.items|] == w.items &&
               it == NewProp(d, pp).(tileIndex := d.tileIndex, onTile := true) &&
               r.value.tiles == w.tiles[d.tileIndex := w.tiles[d.tileIndex].(movable := Some(|w.items|))]) &&
            (Exclusive(w) && r.Some? ==> Exclusive(r.value))
  {
    var r := AddProp(w, d, prefabs);
    if !(d.tileIndex !in w.tiles || w.tiles[d.tileIndex].movable.Some?) && r.Some? {
      var pp := PropPrefabFor(prefabs, d).value;
      var w1 := w.(items := w.items + [NewProp(d, pp)]);
      SetTileIndexEffect(w1, |w.items|, d.tileIndex, true);
      assert r.value.items[..|w.items|] == w.items by {
        assert forall i :: 0 <= i < |w.items| ==> r.value.items[i] == w1.items[i] == w.items[i];
      }
      assert r.value.tiles == w.tiles[d.tileIndex := w.tiles[d.tileIndex].(movable := Some(|w.items|))];
      if Exclusive(w) {
        assert Exclusive(w1);
        SetTileIndexExclusive(w1, |w.items|, d.tileIndex, true);
      }
    }
  }

  /** An out-of-range or empty prefab index uses prefab 0. */
  lemma PropPrefabFallback(prefabs: seq<Nullable<PropPrefab>>, d: PropData)
    requires !(0 <= d.propPrefab < |prefabs|) || prefabs[d.propPrefab].Null?
    requires |prefabs| > 0 && prefabs[0].Some?
    ensures PropPrefabFor(prefabs, d) == prefabs[0]
  {
  }

  /** The world after the prop loop has seen the records `ps`. */
  function LoadProps(w: World, ps: seq<PropData>, prefabs: seq<Nullable<PropPrefab>>): (r: Nullable<World>)
    requires Consistent(w)
    ensures r.Some? ==> Consistent(r.value)
  {
    if ps == [] then Some(w)
    else match LoadProps(w, ps[..|ps| - 1], prefabs)
      case Null => Null
      case Some(w1) => AddProp(w1, ps[|ps| - 1], prefabs)
  }

  /** A throw ends the prop loop: once a prefix of the records throws, the
      whole load does. */
  lemma {:induction false} LoadPropsThrowStays(w: World, ps: seq<PropData>, prefabs: seq<Nullable<PropPrefab>>, n: nat)
    requires Consistent(w) && n <= |ps| && LoadProps(w, ps[..n], prefabs).Null?
    ensures LoadProps(w, ps, prefabs).Null?
    decreases |ps|
  {
    if n < |ps| {
      var init := ps[..|ps| - 1];
      assert init[..n] == ps[..n];
      LoadPropsThrowStays(w, init, prefabs, n);
    } else {
      assert ps[..n] == ps;
    }
  }

  /** Every item standing on a tile stands on one of `allowed`. */
  predicate ItemsWithin(w: World, allowed: set<int>)
  {
    forall i :: 0 <= i < |w.items| && w.items[i].onTile ==> w.items[i].tileIndex in allowed
  }

  /** The tiles the prop records name. */
  function PropTiles(ps: seq<PropData>): (r: set<int>)
    ensures forall j :: 0 <= j < |ps| ==> ps[j].tileIndex in r
    ensures forall k :: k in r ==> exists j :: 0 <= j < |ps| && ps[j].tileIndex == k
  {
    set j | 0 <= j < |ps| :: ps[j].tileIndex
  }

  /** The prop loop keeps every item its tile's only occupant (so no tile
      ends with two props), keeps the tile dictionary's keys and records,
      and puts items only on tiles some record names. */
  lemma {:induction false} LoadPropsExclusive(w: World, ps: seq<PropData>, prefabs: seq<Nullable<PropPrefab>>)
    requires Exclusive(w) && w.items == []
    requires LoadProps(w, ps, prefabs).Some?
    ensures var r := LoadProps(w, ps, prefabs).value;
            Exclusive(r) && ItemsWithin(r, PropTiles(ps)) &&
            r.tiles.Keys == w.tiles.Keys &&
            (forall k :: k in w.tiles ==> r.tiles[k].data == w.tiles[k].data)
  {
    if ps != [] {
      var init := ps[..|ps| - 1];
      LoadPropsExclusive(w, init, prefabs);
      var w1 := LoadProps(w, init, prefabs).value;
      AddPropEffect(w1, ps[|ps| - 1], prefabs);
      var r := LoadProps(w, ps, prefabs).value;
      forall i | 0 <= i < |r.items| && r.items[i].onTile
        ensures r.items[i].tileIndex in PropTiles(ps)
      {
        if i < |w1.items| {
          assert r.items[i] == w1.items[i];
          var j :| 0 <= j < |init| && init[j].tileIndex == r.items[i].tileIndex;
          assert ps[j] == init[j];
        }
      }
    }
  }

  // ---------------------------------------------------------------------
  // Characters.

  /** A fresh character instance after `Awake` and the player index
      assignment: no stun time, the unset state, no facing, on no tile. */
  function Awake(p: int, prefab: CharacterPrefab): GridItem
  {
    GridItem(0, false, Zero, None, SetVariant(prefab.variantCount, -1),
             Character(Mover(p, prefab.canControl, prefab.config, None, 0.0, Unset, 0.0, 0.0)))
  }

  /** One pass of the character loop for player `p`: reading the spawn
      slot throws when there is none, and a missing prefab throws; then the
      character joins the table and is placed on its spawn slot. */
  function AddCharacter(w: World, p: nat, spawns: seq<PlayerData>, c: Cast): (r: Nullable<World>)
    requires Consistent(w)
    ensures r.Some? ==> Consistent(r.value)
  {
    if p >= |spawns| || c.prefab.Null? then Null
    else
      var w1 := w.(items := w.items + [Awake(p, c.prefab.value)]);
      assert Consistent(w1);
      Some(Place(w1, |w.items|, c.variant, spawns[p].tileIndex, spawns[p].direction, c.draw).world)
  }

  /** The world after the character loop has placed the players of `cast`. */
  function CastCharacters(w: World, spawns: seq<PlayerData>, cast: seq<Cast>): (r: Nullable<World>)
    requires Consistent(w)
    ensures r.Some? ==> Consistent(r.value)
  {
    if cast == [] then Some(w)
    else match CastCharacters(w, spawns, cast[..|cast| - 1])
      case Null => Null
      case Some(w1) => AddCharacter(w1, |cast| - 1, spawns, cast[|cast| - 1])
  }

  /** A throw ends the character loop too. */
  lemma {:induction false} CastCharactersThrowStays(w: World, spawns: seq<PlayerData>, cast: seq<Cast>, n: nat)
    requires Consistent(w) && n <= |cast| && CastCharacters(w, spawns, cast[..n]).Null?
    ensures CastCharacters(w, spawns, cast).Null?
    decreases |cast|
  {
    if n < |cast| {
      var init := cast[..|cast| - 1];
      assert init[..n] == cast[..n];
      CastCharactersThrowStays(w, spawns, init, n);
    } else {
      assert cast[..n] == cast;
    }
  }

  /** The character part of the load: nothing without players; with some,
      a null spawn table throws. */
  function LoadCharacters(w: World, spawns: Nullable<seq<PlayerData>>, cast: seq<Cast>): (r: Nullable<World>)
    requires Consistent(w)
    ensures r.Some? ==> Consistent(r.value)
  {
    if cast == [] then Some(w)
    else if spawns.Null? then Null
    else CastCharacters(w, spawns.value, cast)
  }

  /** The whole load; a null prop table throws. */
  function Load(data: StageData, tilePrefabs: seq<Nullable<nat>>, propPrefabs: seq<Nullable<PropPrefab>>, cast: seq<Cast>): (r: Nullable<World>)
    ensures r.Some? ==> Consistent(r.value)
  {
    if data.props.Null? then Null
    else match LoadProps(TileGrid(data.tiles, tilePrefabs), data.props.value, propPrefabs)
      case Null => Null
      case Some(w) => LoadCharacters(w, data.players, cast)
  }

  /** The spawn slots of the first `n` players. */
  function SpawnTiles(spawns: seq<PlayerData>, n: nat): (r: set<int>)
    requires n <= |spawns|
    ensures forall q :: 0 <= q < n ==> spawns[q].tileIndex in r
    ensures forall k :: k in r ==> exists q :: 0 <= q < n && spawns[q].tileIndex == k
  {
    set q | 0 <= q < n :: spawns[q].tileIndex
  }

  /** Placing player `p` keeps the earlier items, appends the player's
      character on its spawn slot (on a tile exactly when the slot names
      one), idle, ready to be stunned and facing the slot's direction or a
      drawn movement direction. */
  lemma AddCharacterEffect(w: World, p: nat, spawns: seq<PlayerData>, c: Cast)
    requires Consistent(w) && p < |spawns| && c.prefab.Some?
    ensures var r := AddCharacter(w, p, spawns, c).value;
            var it := r.items[|w.items|];
            var d := spawns[p].direction;
            |r.items| == |w.items| + 1 &&
            r.items[..|w.items|] == w.items &&
            r.tiles.Keys == w.tiles.Keys &&
            (forall k :: k in w.tiles ==> r.tiles[k].data == w.tiles[k].data) &&
            it.tileIndex == spawns[p].tileIndex && (it.onTile <==> spawns[p].tileIndex in w.tiles) &&
            it.role.Character? && it.role.mover.playerIndex == p && it.role.mover.state == Idle &&
            it.role.mover.config == c.prefab.value.config &&
            (d != None ==> it.role.mover.direction == d) &&
            (d == None ==> IsCardinal(it.role.mover.direction))
  {
    var w1 := w.(items := w.items + [Awake(p, c.prefab.value)]);
    PlaceFacingEffect(w1, |w.items|, c.variant, spawns[p].tileIndex, spawns[p].direction, DrawnFacing(c.draw));
    var r := AddCharacter(w, p, spawns, c).value;
    assert r.items[..|w.items|] == w.items by {
      assert forall i :: 0 <= i < |w.items| ==> r.items[i] == w1.items[i] == w.items[i];
    }
  }

  /** A spawn slot on a tile no item stands on keeps every item its tile's
      only occupant. */
  lemma AddCharacterExclusive(w: World, p: nat, spawns: seq<PlayerData>, c: Cast, allowed: set<int>)
    requires Exclusive(w) && p < |spawns| && c.prefab.Some?
    requires ItemsWithin(w, allowed) && spawns[p].tileIndex !in allowed
    ensures var r := AddCharacter(w, p, spawns, c).value;
            Exclusive(r) && ItemsWithin(r, allowed + {spawns[p].tileIndex})
  {
    var w1 := w.(items := w.items + [Awake(p, c.prefab.value)]);
    var k := spawns[p].tileIndex;
    assert Exclusive(w1);
    PlaceFacingExclusive(w1, |w.items|, c.variant, k, spawns[p].direction, DrawnFacing(c.draw));
    AddCharacterEffect(w, p, spawns, c);
    var r := AddCharacter(w, p, spawns, c).value;
    assert forall i :: 0 <= i < |w.items| ==> r.items[i] == w.items[i];
  }

  /** Players on distinct spawn slots, none on a tile holding an item, keep
      every item its tile's only occupant. */
  lemma {:induction false} CastCharactersExclusive(w: World, spawns: seq<PlayerData>, cast: seq<Cast>, allowed: set<int>)
    requires Exclusive(w) && ItemsWithin(w, allowed) && |cast| <= |spawns|
    requires forall q :: 0 <= q < |cast| ==> spawns[q].tileIndex !in allowed
    requires forall q, q' :: 0 <= q < q' < |cast| ==> spawns[q].tileIndex != spawns[q'].tileIndex
    requires CastCharacters(w, spawns, cast).Some?
    ensures var r := CastCharacters(w, spawns, cast).value;
            Exclusive(r) && ItemsWithin(r, allowed + SpawnTiles(spawns, |cast|))
  {
    if cast != [] {
      var n := |cast| - 1;
      var init := cast[..n];
      CastCharactersExclusive(w, spawns, init, allowed);
      var w1 := CastCharacters(w, spawns, init).value;
      assert spawns[n].tileIndex !in allowed + SpawnTiles(spawns, n);
      AddCharacterExclusive(w1, n, spawns, cast[n], allowed + SpawnTiles(spawns, n));
      assert allowed + SpawnTiles(spawns, n) + {spawns[n].tileIndex} == allowed + SpawnTiles(spawns, |cast|);
    }
  }

  /** A stage whose players stand on distinct slots, none on a tile some
      prop record names — what stage validation demands — loads with every
      item its tile's only occupant. */
  lemma LoadExclusive(data: StageData, tilePrefabs: seq<Nullable<nat>>, propPrefabs: seq<Nullable<PropPrefab>>, cast: seq<Cast>)
    requires Load(data, tilePrefabs, propPrefabs, cast).Some?
    requires cast != [] ==> data.players.Some? && |cast| <= |data.players.value|
    requires cast != [] ==> forall q, j :: 0 <= q < |cast| && 0 <= j < |data.props.value| ==>
                              data.players.value[q].tileIndex != data.props.value[j].tileIndex
    requires cast != [] ==> forall q, q' :: 0 <= q < q' < |cast| ==>
                              data.players.value[q].tileIndex != data.players.value[q'].tileIndex
    ensures Exclusive(Load(data, tilePrefabs, propPrefabs, cast).value)
  {
    var w0 := TileGrid(data.tiles, tilePrefabs);
    var ps := data.props.value;
    LoadPropsExclusive(w0, ps, propPrefabs);
    if cast != [] {
      var w := LoadProps(w0, ps, propPrefabs).value;
      CastCharactersExclusive(w, data.players.value, cast, PropTiles(ps));
    }
  }

  /** More joined players than spawn slots (or a null spawn table) always
      throws, once the props have loaded. */
  lemma TooFewSpawnsThrows(w: World, spawns: Nullable<seq<PlayerData>>, cast: seq<Cast>)
    requires Consistent(w)
    requires |cast| > (if spawns.Null? then 0 else |spawns.value|)
    ensures LoadCharacters(w, spawns, cast).Null?
  {
  }

  /** Item `it` is player `q`'s character placed on its spawn slot: idle,
      with the chosen character's settings, facing the slot's direction or
      else a drawn movement direction. */
  predicate Spawned(it: GridItem, q: nat, spawn: PlayerData, c: Cast)
  {
    it.role.Character? && it.role.mover.playerIndex == q && it.tileIndex == spawn.tileIndex &&
    it.role.mover.state == Idle && c.prefab.Some? && it.role.mover.config == c.prefab.value.config &&
    (spawn.direction != None ==> it.role.mover.direction == spawn.direction) &&
    (spawn.direction == None ==> IsCardinal(it.role.mover.direction))
  }

  /** With a slot for every player and a prefab for every character, the
      character loop never throws, and it places player `q` as the item
      right after the items it started with plus `q`. */
  lemma {:induction false} CastCharactersPlaces(w: World, spawns: seq<PlayerData>, cast: seq<Cast>)
    requires Consistent(w) && |cast| <= |spawns|
    requires forall q :: 0 <= q < |cast| ==> cast[q].prefab.Some?
    ensures CastCharacters(w, spawns, cast).Some?
    ensures var r := CastCharacters(w, spawns, cast).value;
            |r.items| == |w.items| + |cast| && r.items[..|w.items|] == w.items &&
            forall q :: 0 <= q < |cast| ==> Spawned(r.items[|w.items| + q], q, spawns[q], cast[q])
  {
    if cast != [] {
      var n := |cast| - 1;
      var init := cast[..n];
      assert forall q :: 0 <= q < n ==> init[q] == cast[q];
      CastCharactersPlaces(w, spawns, init);
      var w1 := CastCharacters(w, spawns, init).value;
      AddCharacterEffect(w1, n, spawns, cast[n]);
      var r := CastCharacters(w, spawns, cast).value;
      forall q | 0 <= q < |cast|
        ensures Spawned(r.items[|w.items| + q], q, spawns[q], cast[q])
      {
        if q < n {
          assert r.items[|w.items| + q] == r.items[..|w1.items|][|w.items| + q];
        }
      }
      assert r.items[..|w.items|] == w.items by {
        assert forall i :: 0 <= i < |w.items| ==> r.items[i] == r.items[..|w1.items|][i] == w.items[i];
      }
    }
  }
}
