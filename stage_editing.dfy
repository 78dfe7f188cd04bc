/** The stage editor's authoring operations: adjacency recompute after an
    edit, the item lookups and edits on props and players, the tile
    add/remove of the tile palette and the stage validator. */
module StageEditing {
  import opened StageRecords
  import opened GridTopology
  import opened StageAdjacency
  import opened Lists

  /** One step of the backward scan from a populated cell `i` whose next
      cell is a hole, with the `m` cells behind `i` known to be populated:
      either the cell one further back is a hole, and the scan has reached
      the start of `i`'s run, or it is populated and the scan goes on. */
  lemma {:induction false} ScanBack(pop: seq<bool>, i: int, m: int)
    requires 0 <= i < |pop| && pop[i] && !pop[Wrap(i + 1, |pop|)]
    requires 0 <= m && m + 2 <= |pop|
    requires forall j :: 0 < j <= m ==> Behind(pop, i, j)
    ensures Iterate(Wrap(i - m, |pop|), |pop|, false) == Wrap(i - (m + 1), |pop|)
    ensures Iterate(Wrap(i - (m + 1), |pop|), |pop|, true) == Wrap(i - m, |pop|)
    ensures !pop[Wrap(i - (m + 1), |pop|)] ==> Next(pop, i) == Wrap(i - m, |pop|) && pop[Wrap(i - m, |pop|)]
    ensures pop[Wrap(i - (m + 1), |pop|)] ==> m + 3 <= |pop| && forall j :: 0 < j <= m + 1 ==> Behind(pop, i, j)
  {
    var n := |pop|;
    assert Iterate(i, n, true) == Wrap(i + 1, n);
    if !pop[Wrap(i - (m + 1), n)] {
      assert !Behind(pop, i, m + 1);
      StepsBackExact(pop, i, m);
      assert pop[Wrap(i - m, n)] by {
        if m > 0 {
          assert Behind(pop, i, m);
        }
      }
    } else {
      assert Behind(pop, i, m + 1);
      assert Behind(pop, i, n - 1) == pop[Wrap(i + 1, n)];
    }
  }

  /** The spawn slots' tile indices, in order. */
  function PlayerIndices(players: seq<PlayerData>): (r: seq<int>)
    ensures |r| == |players| && forall k :: 0 <= k < |r| ==> r[k] == players[k].tileIndex
  {
    seq(|players|, k requires 0 <= k < |players| => players[k].tileIndex)
  }

  /** Position of the first player spawn on a tile, or -1. */
  function FirstPlayer(players: seq<PlayerData>, tileIndex: int): (r: int)
    ensures -1 <= r < |players|
    ensures r == -1 <==> forall k :: 0 <= k < |players| ==> players[k].tileIndex != tileIndex
    ensures r >= 0 ==> players[r].tileIndex == tileIndex
    ensures r >= 0 ==> forall k :: 0 <= k < r ==> players[k].tileIndex != tileIndex
  {
    IndexOf(PlayerIndices(players), tileIndex)
  }

  /** The props' tile indices, in order. */
  function PropIndices(props: seq<PropData>): (r: seq<int>)
    ensures |r| == |props| && forall k :: 0 <= k < |r| ==> r[k] == props[k].tileIndex
  {
    seq(|props|, k requires 0 <= k < |props| => props[k].tileIndex)
  }

  /** Position of the first prop on a tile, or -1. */
  function FirstProp(props: seq<PropData>, tileIndex: int): (r: int)
    ensures -1 <= r < |props|
    ensures r == -1 <==> forall k :: 0 <= k < |props| ==> props[k].tileIndex != tileIndex
    ensures r >= 0 ==> props[r].tileIndex == tileIndex
    ensures r >= 0 ==> forall k :: 0 <= k < r ==> props[k].tileIndex != tileIndex
  {
    IndexOf(PropIndices(props), tileIndex)
  }

  /** `HasPlayer`: linear scan of the spawn slots; the array must exist. */
  method HasPlayer(stage: StageData, tileIndex: int) returns (r: int)
    requires stage.players.Some?
    ensures r == FirstPlayer(stage.players.value, tileIndex)
  {
    var players := stage.players.value;
    var p := 0;
    while p < |players|
      invariant 0 <= p <= |players|
      invariant forall k :: 0 <= k < p ==> players[k].tileIndex != tileIndex
    {
      if players[p].tileIndex == tileIndex {
        return p;
      }
      p := p + 1;
    }
    return -1;
  }

  /** `HasProp`: linear scan of the props; the array must exist. */
  method HasProp(stage: StageData, tileIndex: int) returns (r: int)
    requires stage.props.Some?
    ensures r == FirstProp(stage.props.value, tileIndex)
  {
    var props := stage.props.value;
    var p := 0;
    while p < |props|
      invariant 0 <= p <= |props|
      invariant forall k :: 0 <= k < p ==> props[k].tileIndex != tileIndex
    {
      if props[p].tileIndex == tileIndex {
        return p;
      }
      p := p + 1;
    }
    return -1;
  }

  /** Both item arrays exist, as every item edit needs. */
  predicate HasItemArrays(s: StageData)
  {
    s.props.Some? && s.players.Some?
  }

  /** `props` without its first prop on `tileIndex`. */
  function WithoutFirstProp(props: seq<PropData>, tileIndex: int): seq<PropData>
  {
    var r := FirstProp(props, tileIndex);
    if r == -1 then props else props[..r] + props[r + 1..]
  }

  /** `players` with its first slot on `tileIndex` marked unplaced. */
  function WithFirstPlayerUnplaced(players: seq<PlayerData>, tileIndex: int): seq<PlayerData>
  {
    var q := FirstPlayer(players, tileIndex);
    if q == -1 then players else players[q := players[q].(tileIndex := Unplaced)]
  }

  /** The stage after `RemoveItems(tileIndex)`. */
  function RemovedItems(s: StageData, tileIndex: int): StageData
    requires HasItemArrays(s)
  {
    s.(players := Some(WithFirstPlayerUnplaced(s.players.value, tileIndex)),
       props := Some(WithoutFirstProp(s.props.value, tileIndex)))
  }

  /** The new prop record that `AddProp` appends. */
  function NewProp(tileIndex: int, direction: Direction, propPrefab: int, propVariant: int, isWinner: bool): PropData
  {
    PropData(tileIndex, direction, propPrefab, propVariant, isWinner)
  }

  /** The stage after `AddProp`: the tile is cleared, then the prop is
      appended. */
  function AddedProp(s: StageData, tileIndex: int, direction: Direction, propPrefab: int, propVariant: int, isWinner: bool): StageData
    requires HasItemArrays(s)
  {
    var c := RemovedItems(s, tileIndex);
    c.(props := Some(c.props.value + [NewProp(tileIndex, direction, propPrefab, propVariant, isWinner)]))
  }

  /** The stage after `AddPlayer`: the tile is cleared, then the chosen
      spawn slot moves there with the chosen facing. */
  function AddedPlayer(s: StageData, tileIndex: int, direction: Direction, playerIndex: int): StageData
    requires HasItemArrays(s) && 0 <= playerIndex < |s.players.value|
  {
    var c := RemovedItems(s, tileIndex);
    c.(players := Some(c.players.value[playerIndex := PlayerData(tileIndex, direction)]))
  }

  /** The tile list after a press of the tile palette on `tileIndex` with
      palette entry `tileType` (0 erases), before adjacency is recomputed. */
  function EditedTiles(s: StageData, tileIndex: int, tileType: int): StageData
    requires tileType == 0 && Populated(s.tiles, tileIndex) ==> HasItemArrays(s)
  {
    var index := FirstTile(s.tiles, tileIndex);
    if tileType == 0 && index != -1 then
      RemovedItems(s, tileIndex).(tiles := s.tiles[..index] + s.tiles[index + 1..])
    else if tileType > 0 then
      if index == -1 then s.(tiles := s.tiles + [TileData(tileIndex, tileType - 1, 0, 0, 0, 0, 0)])
      else s.(tiles := s.tiles[index := s.tiles[index].(tilePrefab := tileType - 1)])
    else s
  }

  // ---------------------------------------------------------------------
  // What the item edits keep and change.

  /** The props standing on tile `u`, in array order. */
  function PropsOn(props: seq<PropData>, u: int): (r: seq<PropData>)
    ensures |r| <= |props|
    ensures forall k :: 0 <= k < |r| ==> r[k].tileIndex == u
  {
    if |props| == 0 then []
    else (if props[0].tileIndex == u then [props[0]] else []) + PropsOn(props[1..], u)
  }

  /** How many spawn slots sit on tile `u`. */
  function PlayersOn(players: seq<PlayerData>, u: int): (n: nat)
    ensures n <= |players|
  {
    if |players| == 0 then 0
    else (if players[0].tileIndex == u then 1 else 0) + PlayersOn(players[1..], u)
  }

  lemma {:induction false} PropsOnConcat(a: seq<PropData>, b: seq<PropData>, u: int)
    ensures PropsOn(a + b, u) == PropsOn(a, u) + PropsOn(b, u)
  {
    if |a| > 0 {
      assert (a + b)[1..] == a[1..] + b;
      assert (a + b)[0] == a[0];
      PropsOnConcat(a[1..], b, u);
      var h := if a[0].tileIndex == u then [a[0]] else [];
      assert PropsOn(a + b, u) == h + PropsOn(a[1..] + b, u);
      assert PropsOn(a, u) == h + PropsOn(a[1..], u);
    } else {
      assert a + b == b;
    }
  }

  /** Nothing on `u` before position `r` means the props on `u` are those
      from `r` on. */
  lemma {:induction false} PropsOnFrom(props: seq<PropData>, r: int, u: int)
    requires 0 <= r <= |props|
    requires forall k :: 0 <= k < r ==> props[k].tileIndex != u
    ensures PropsOn(props, u) == PropsOn(props[r..], u)
  {
    if r > 0 {
      PropsOnFrom(props[1..], r - 1, u);
      assert props[1..][r - 1..] == props[r..];
    }
  }

  /** Re-placing one slot moves one count from its old tile to its new one. */
  lemma {:induction false} PlayersOnUpdate(players: seq<PlayerData>, q: int, d: PlayerData, u: int)
    requires 0 <= q < |players|
    ensures PlayersOn(players[q := d], u) + (if players[q].tileIndex == u then 1 else 0)
            == PlayersOn(players, u) + (if d.tileIndex == u then 1 else 0)
  {
    if q > 0 {
      assert players[q := d][1..] == players[1..][q - 1 := d];
      PlayersOnUpdate(players[1..], q - 1, d, u);
    } else {
      assert players[q := d][1..] == players[1..];
    }
  }

  /** `RemoveItems` deletes exactly the first prop on the tile and keeps the
      props of every other tile, in order. */
  lemma {:induction false} RemovedPropEffect(props: seq<PropData>, t: int, u: int)
    requires u != t
    ensures PropsOn(WithoutFirstProp(props, t), u) == PropsOn(props, u)
    ensures PropsOn(WithoutFirstProp(props, t), t) == (if PropsOn(props, t) == [] then [] else PropsOn(props, t)[1..])
    ensures |WithoutFirstProp(props, t)| == |props| - (if PropsOn(props, t) == [] then 0 else 1)
  {
    var r := FirstProp(props, t);
    if r != -1 {
      RemovedPropAt(props, r, t, u);
    } else {
      PropsOnFrom(props, |props|, t);
      assert props[|props|..] == [];
    }
  }

  lemma {:induction false} RemovedPropAt(props: seq<PropData>, r: int, t: int, u: int)
    requires u != t && 0 <= r < |props| && props[r].tileIndex == t
    requires forall k :: 0 <= k < r ==> props[k].tileIndex != t
    ensures PropsOn(props[..r] + props[r + 1..], u) == PropsOn(props, u)
    ensures PropsOn(props, t) != [] && PropsOn(props[..r] + props[r + 1..], t) == PropsOn(props, t)[1..]
  {
    SplitAround(props, r);
    PropsOnAround(props, r, u);
    PropsOnAround(props, r, t);
    PropsOnFrom(props[..r], r, t);
    assert props[..r][r..] == [];
  }

  lemma SplitAround(props: seq<PropData>, r: int)
    requires 0 <= r < |props|
    ensures props == props[..r] + [props[r]] + props[r + 1..]
  {
  }

  /** The props on `u` around position `r`. */
  lemma PropsOnAround(props: seq<PropData>, r: int, u: int)
    requires 0 <= r < |props| && props == props[..r] + [props[r]] + props[r + 1..]
    ensures PropsOn(props, u) == PropsOn(props[..r], u) + PropsOn([props[r]], u) + PropsOn(props[r + 1..], u)
    ensures PropsOn(props[..r] + props[r + 1..], u) == PropsOn(props[..r], u) + PropsOn(props[r + 1..], u)
  {
    PropsOnConcat(props[..r], props[r + 1..], u);
    PropsOnConcat(props[..r] + [props[r]], props[r + 1..], u);
    PropsOnConcat(props[..r], [props[r]], u);
  }

  /** `RemoveItems` takes exactly one spawn off the tile when there is one
      and changes the count of no other placed tile. */
  lemma {:induction false} RemovedPlayerEffect(players: seq<PlayerData>, t: int, u: int)
    requires u != t && t != Unplaced
    ensures |WithFirstPlayerUnplaced(players, t)| == |players|
    ensures PlayersOn(WithFirstPlayerUnplaced(players, t), t) ==
              (if PlayersOn(players, t) == 0 then 0 else PlayersOn(players, t) - 1)
    ensures u != Unplaced ==> PlayersOn(WithFirstPlayerUnplaced(players, t), u) == PlayersOn(players, u)
  {
    var q := FirstPlayer(players, t);
    if q != -1 {
      PlayersOnUpdate(players, q, players[q].(tileIndex := Unplaced), t);
      PlayersOnUpdate(players, q, players[q].(tileIndex := Unplaced), u);
    } else {
      PlayersNoneOn(players, t);
    }
  }

  lemma {:induction false} PlayersNoneOn(players: seq<PlayerData>, t: int)
    requires forall k :: 0 <= k < |players| ==> players[k].tileIndex != t
    ensures PlayersOn(players, t) == 0
  {
    if |players| > 0 {
      PlayersNoneOn(players[1..], t);
    }
  }

  /** The editor's bookkeeping invariant: both item arrays exist, no two
      props share a tile, no two placed spawns share a tile and no placed
      spawn shares a tile with a prop. */
  predicate Sound(s: StageData)
  {
    HasItemArrays(s) &&
    var props, players := s.props.value, s.players.value;
    (forall i, j :: 0 <= i < j < |props| ==> props[i].tileIndex != props[j].tileIndex) &&
    (forall i, j :: 0 <= i < j < |players| && players[i].tileIndex != Unplaced ==>
       players[i].tileIndex != players[j].tileIndex) &&
    (forall i, j :: 0 <= i < |players| && 0 <= j < |props| && players[i].tileIndex != Unplaced ==>
       players[i].tileIndex != props[j].tileIndex)
  }

  /** On a sound stage `RemoveItems` empties the tile and keeps soundness. */
  lemma {:induction false} RemovedItemsSound(s: StageData, t: int)
    requires Sound(s) && t != Unplaced
    ensures Sound(RemovedItems(s, t))
    ensures FirstProp(RemovedItems(s, t).props.value, t) == -1
    ensures FirstPlayer(RemovedItems(s, t).players.value, t) == -1
  {
    var props, players := s.props.value, s.players.value;
    var s' := RemovedItems(s, t);
    var props', players' := s'.props.value, s'.players.value;
    var r := FirstProp(props, t);
    var q := FirstPlayer(players, t);
    if r != -1 {
      forall k | 0 <= k < |props'|
        ensures props'[k] == props[if k < r then k else k + 1]
      {
      }
    }
    forall i, j | 0 <= i < |players'| && 0 <= j < |props'| && players'[i].tileIndex != Unplaced
      ensures players'[i].tileIndex != props'[j].tileIndex
    {
      assert players'[i] == players[i];
    }
  }

  /** `AddProp` on a sound stage leaves exactly the new prop on the tile,
      last in the array, with no spawn there, and keeps soundness. */
  lemma {:induction false} AddedPropSound(s: StageData, t: int, direction: Direction, propPrefab: int, propVariant: int, isWinner: bool)
    requires Sound(s) && t != Unplaced
    ensures var s' := AddedProp(s, t, direction, propPrefab, propVariant, isWinner);
            Sound(s') &&
            FirstProp(s'.props.value, t) == |s'.props.value| - 1 &&
            s'.props.value[|s'.props.value| - 1] == NewProp(t, direction, propPrefab, propVariant, isWinner) &&
            FirstPlayer(s'.players.value, t) == -1
  {
    RemovedItemsSound(s, t);
    var c := RemovedItems(s, t);
    var x := NewProp(t, direction, propPrefab, propVariant, isWinner);
    FirstPropAppend(c.props.value, x);
    SoundAppendProp(c, x);
  }

  lemma SoundAppendProp(c: StageData, x: PropData)
    requires Sound(c)
    requires FirstProp(c.props.value, x.tileIndex) == -1 && FirstPlayer(c.players.value, x.tileIndex) == -1
    ensures Sound(c.(props := Some(c.props.value + [x])))
  {
    var props := c.props.value + [x];
    assert forall k :: 0 <= k < |c.props.value| ==> props[k] == c.props.value[k];
  }

  /** Appending a prop on a tile no prop stands on makes it the tile's
      first prop. */
  lemma FirstPropAppend(props: seq<PropData>, x: PropData)
    requires FirstProp(props, x.tileIndex) == -1
    ensures FirstProp(props + [x], x.tileIndex) == |props|
  {
    var r := FirstProp(props + [x], x.tileIndex);
    assert (props + [x])[|props|] == x;
    assert forall k :: 0 <= k < |props| ==> (props + [x])[k] == props[k];
  }

  /** `AddPlayer` on a sound stage puts the chosen slot on the tile with no
      prop there, and keeps soundness; no other slot moves except one that
      stood on the tile. */
  lemma {:induction false} AddedPlayerSound(s: StageData, t: int, direction: Direction, playerIndex: int)
    requires Sound(s) && t != Unplaced && 0 <= playerIndex < |s.players.value|
    ensures var s' := AddedPlayer(s, t, direction, playerIndex);
            Sound(s') &&
            s'.players.value[playerIndex] == PlayerData(t, direction) &&
            FirstPlayer(s'.players.value, t) == playerIndex &&
            FirstProp(s'.props.value, t) == -1 &&
            forall k :: 0 <= k < |s.players.value| && k != playerIndex && s.players.value[k].tileIndex != t ==>
              s'.players.value[k] == s.players.value[k]
  {
    RemovedItemsSound(s, t);
    var c := RemovedItems(s, t);
    var ps, props := c.players.value, c.props.value;
    var ps' := ps[playerIndex := PlayerData(t, direction)];
    assert AddedPlayer(s, t, direction, playerIndex) == c.(players := Some(ps'));
    SlotOnFreeTileSound(c, playerIndex, PlayerData(t, direction));
    assert forall k :: 0 <= k < |ps| && s.players.value[k].tileIndex != t ==> ps[k] == s.players.value[k];
  }

  /** Moving a slot onto a tile no slot and no prop uses keeps soundness. */
  lemma SlotOnFreeTileSound(c: StageData, i: int, x: PlayerData)
    requires Sound(c) && 0 <= i < |c.players.value|
    requires FirstPlayer(c.players.value, x.tileIndex) == -1 && FirstProp(c.props.value, x.tileIndex) == -1
    ensures Sound(c.(players := Some(c.players.value[i := x])))
  {
  }

  /** The recompute after an edit keeps every record's identity and prefab
      and the item arrays. */
  lemma RecalculateKeepsRecords(s: StageData, t: int)
    requires s.columns > 0
    ensures var s' := Recalculate(s, t);
            SameIndices(s'.tiles, s.tiles) && s'.props == s.props && s'.players == s.players &&
            s'.columns == s.columns && s'.rows == s.rows &&
            forall p :: 0 <= p < |s.tiles| ==> s'.tiles[p].tilePrefab == s.tiles[p].tilePrefab
  {
    var (column, row) := GetPath(Some(s), t);
    forall p | 0 <= p < |s.tiles|
      ensures Recalculate(s, t).tiles[p].tileIndex == s.tiles[p].tileIndex
      ensures Recalculate(s, t).tiles[p].tilePrefab == s.tiles[p].tilePrefab
    {
      RecalculateLocal(s, t, p);
    }
  }

  /** No two tile records share an index. */
  predicate UniqueTiles(tiles: seq<TileData>)
  {
    forall i, j :: 0 <= i < j < |tiles| ==> tiles[i].tileIndex != tiles[j].tileIndex
  }

  /** What the recompute keeps of the tile list: which cells are populated,
      by which record, with which prefab, and unique indices. */
  lemma RecalculateKeepsLookup(e: StageData, t: int, x: int)
    requires e.columns > 0
    ensures var s' := Recalculate(e, t);
            |s'.tiles| == |e.tiles| && FirstTile(s'.tiles, x) == FirstTile(e.tiles, x) &&
            (FirstTile(e.tiles, x) != -1 ==>
               s'.tiles[FirstTile(e.tiles, x)].tilePrefab == e.tiles[FirstTile(e.tiles, x)].tilePrefab) &&
            (UniqueTiles(e.tiles) ==> UniqueTiles(s'.tiles)) &&
            s'.props == e.props && s'.players == e.players
  {
    RecalculateKeepsRecords(e, t);
    FirstTileSameIndices(Recalculate(e, t).tiles, e.tiles, x);
  }

  /** Before the recompute: a positive palette entry leaves the pressed
      cell's first record with prefab `tileType - 1`. */
  lemma {:induction false} EditedAddsTile(s: StageData, t: int, tileType: int)
    requires tileType > 0
    ensures var e := EditedTiles(s, t, tileType);
            Populated(e.tiles, t) &&
            e.tiles[FirstTile(e.tiles, t)].tilePrefab == tileType - 1 &&
            |e.tiles| == |s.tiles| + (if Populated(s.tiles, t) then 0 else 1) &&
            e.props == s.props && e.players == s.players &&
            (UniqueTiles(s.tiles) ==> UniqueTiles(e.tiles))
  {
    var e := EditedTiles(s, t, tileType);
    if FirstTile(s.tiles, t) == -1 {
      FirstTileAppend(s.tiles, TileData(t, tileType - 1, 0, 0, 0, 0, 0));
    } else {
      FirstTileSameIndices(e.tiles, s.tiles, t);
    }
  }

  /** Appending a record for an absent index makes it that index's first
      record, keeping indices unique. */
  lemma FirstTileAppend(tiles: seq<TileData>, x: TileData)
    requires FirstTile(tiles, x.tileIndex) == -1
    ensures FirstTile(tiles + [x], x.tileIndex) == |tiles|
    ensures UniqueTiles(tiles) ==> UniqueTiles(tiles + [x])
  {
    assert (tiles + [x])[|tiles|] == x;
    assert forall k :: 0 <= k < |tiles| ==> (tiles + [x])[k] == tiles[k];
  }

  /** A positive palette entry leaves a tile of prefab `tileType - 1` on the
      pressed cell, adding a record only when there was none, and keeps
      record indices unique. */
  lemma {:induction false} EditAddsTile(s: StageData, t: int, tileType: int)
    requires s.columns > 0 && tileType > 0
    ensures var s' := Recalculate(EditedTiles(s, t, tileType), t);
            Populated(s'.tiles, t) &&
            s'.tiles[FirstTile(s'.tiles, t)].tilePrefab == tileType - 1 &&
            |s'.tiles| == |s.tiles| + (if Populated(s.tiles, t) then 0 else 1) &&
            s'.props == s.props && s'.players == s.players &&
            (UniqueTiles(s.tiles) ==> UniqueTiles(s'.tiles))
  {
    EditedAddsTile(s, t, tileType);
    RecalculateKeepsLookup(EditedTiles(s, t, tileType), t, t);
  }

  /** Before the recompute: palette entry 0 deletes the first record. */
  lemma {:induction false} EditedErasesTile(s: StageData, t: int)
    requires Populated(s.tiles, t) && HasItemArrays(s)
    ensures var e := EditedTiles(s, t, 0);
            |e.tiles| == |s.tiles| - 1 &&
            e.props == RemovedItems(s, t).props && e.players == RemovedItems(s, t).players &&
            (UniqueTiles(s.tiles) ==> UniqueTiles(e.tiles) && !Populated(e.tiles, t))
  {
    var e := EditedTiles(s, t, 0);
    var index := FirstTile(s.tiles, t);
    assert forall k :: 0 <= k < |e.tiles| ==> e.tiles[k] == s.tiles[if k < index then k else k + 1];
  }

  /** Palette entry 0 on a tile deletes its first record, clears its items
      as `RemoveItems` does, and with unique indices leaves the cell empty. */
  lemma {:induction false} EditErasesTile(s: StageData, t: int)
    requires s.columns > 0 && Populated(s.tiles, t) && HasItemArrays(s)
    ensures var s' := Recalculate(EditedTiles(s, t, 0), t);
            |s'.tiles| == |s.tiles| - 1 &&
            s'.props == RemovedItems(s, t).props && s'.players == RemovedItems(s, t).players &&
            (UniqueTiles(s.tiles) ==> UniqueTiles(s'.tiles) && !Populated(s'.tiles, t))
  {
    EditedErasesTile(s, t);
    RecalculateKeepsLookup(EditedTiles(s, t, 0), t, t);
  }

  /** The editor window; `stage` is the stage being edited, which the
      static helpers of the editor change in place. */
  class StageEditor {
    var stage: StageData

    constructor(s: StageData)
      ensures stage == s
    {
      stage := s;
    }

    /** `RecalculateAdjacents(stage, horizontal, v)`: relink every populated
        cell of row (`horizontal`) or column `v` to its successor, scanning
        backwards to the start of the cell's run when the next cell is a
        hole. */
    method RecalculateLine(horizontal: bool, v: int)
      modifies this
      ensures stage == RecalcLine(old(stage), horizontal, v)
    {
      ghost var s0 := stage;
      var total := if horizontal then stage.columns else stage.rows;
      var i := 0;
      while i < total
        invariant 0 <= i <= LineSize(s0, horizontal)
        invariant stage == s0.(tiles := RecalcPrefix(s0, horizontal, v, i))
      {
        RecalculateCell(horizontal, v, i, total, s0);
        i := i + 1;
      }
    }

    /** One cell of the recompute: a populated cell links to its
        successor, and the successor back to it. */
    method RecalculateCell(horizontal: bool, v: int, i: int, total: int, ghost s0: StageData)
      requires total == LineSize(s0, horizontal) && 0 <= i < total
      requires stage == s0.(tiles := RecalcPrefix(s0, horizontal, v, i))
      modifies this
      ensures stage == s0.(tiles := RecalcPrefix(s0, horizontal, v, i + 1))
    {
      ghost var pop := Pattern(s0, horizontal, v);
      RecalcPrefixSameIndices(s0, horizontal, v, i);
      var thisTileIndex := GetTileIndex(stage, if horizontal then i else v, if horizontal then v else i);
      var thisLookup := HasTile(Some(stage), thisTileIndex);
      FirstTileSameIndices(stage.tiles, s0.tiles, thisTileIndex);
      PatternAt(s0, horizontal, v, i);
      if thisLookup == -1 {
        return;
      }
      var nextTileIndex, nextLookup := FindNext(horizontal, v, i, total, s0);
      var thisTile := stage.tiles[thisLookup];
      stage := stage.(tiles := stage.tiles[thisLookup := SetForward(thisTile, horizontal, nextTileIndex)]);
      var nextTile := stage.tiles[nextLookup];
      stage := stage.(tiles := stage.tiles[nextLookup := SetBackward(nextTile, horizontal, thisTileIndex)]);
    }

    /** The inner scan of the recompute at a populated cell `i`: the next
        cell when it is populated, otherwise the first cell of `i`'s run,
        found by walking backwards until the cell before is a hole. */
    method FindNext(horizontal: bool, v: int, i: int, total: int, ghost s0: StageData)
      returns (nextTileIndex: int, nextLookup: int)
      requires stage.columns == s0.columns && stage.rows == s0.rows && SameIndices(stage.tiles, s0.tiles)
      requires total == LineSize(s0, horizontal) && 0 <= i < total
      requires Pattern(s0, horizontal, v)[i]
      ensures nextTileIndex == LineCell(s0, horizontal, v, Next(Pattern(s0, horizontal, v), i))
      ensures 0 <= nextLookup && nextLookup == FirstTile(s0.tiles, nextTileIndex)
    {
      ghost var pop := Pattern(s0, horizontal, v);
      NextPrevInverse(pop, i);
      var i2 := Iterate(i, total, true);
      nextTileIndex := GetTileIndex(stage, if horizontal then i2 else v, if horizontal then v else i2);
      nextLookup := HasTile(Some(stage), nextTileIndex);
      FirstTileSameIndices(stage.tiles, s0.tiles, nextTileIndex);
      PatternAt(s0, horizontal, v, i2);
      var i3 := i;
      ghost var m := 0;
      while nextLookup == -1
        invariant nextLookup == -1 ==>
                    !pop[Wrap(i + 1, total)] && m + 2 <= total && i3 == Wrap(i - m, total) &&
                    forall j :: 0 < j <= m ==> Behind(pop, i, j)
        invariant nextLookup != -1 ==>
                    nextTileIndex == LineCell(s0, horizontal, v, Next(pop, i)) &&
                    nextLookup == FirstTile(s0.tiles, nextTileIndex)
        decreases nextLookup == -1, total - m
      {
        i3, nextTileIndex, nextLookup := ScanStep(horizontal, v, i, total, s0, i3, m);
        m := m + 1;
      }
    }

    /** One step of the backward scan, from `i3`, the cell `m` steps
        behind `i`: either the cell before `i3` is a hole and the scan
        stops at `i3`, the first cell of the run, or it goes on from the
        cell before. */
    method ScanStep(horizontal: bool, v: int, i: int, total: int, ghost s0: StageData, i3: int, ghost m: nat)
      returns (i3': int, nextTileIndex: int, nextLookup: int)
      requires stage.columns == s0.columns && stage.rows == s0.rows && SameIndices(stage.tiles, s0.tiles)
      requires total == LineSize(s0, horizontal) && 0 <= i < total
      requires Pattern(s0, horizontal, v)[i] && !Pattern(s0, horizontal, v)[Wrap(i + 1, total)]
      requires m + 2 <= total && i3 == Wrap(i - m, total)
      requires forall j :: 0 < j <= m ==> Behind(Pattern(s0, horizontal, v), i, j)
      ensures nextLookup == -1 ==>
                m + 3 <= total && i3' == Wrap(i - (m + 1), total) &&
                forall j :: 0 < j <= m + 1 ==> Behind(Pattern(s0, horizontal, v), i, j)
      ensures nextLookup != -1 ==>
                nextTileIndex == LineCell(s0, horizontal, v, Next(Pattern(s0, horizontal, v), i)) &&
                nextLookup == FirstTile(s0.tiles, nextTileIndex)
    {
      ghost var pop := Pattern(s0, horizontal, v);
      ScanBack(pop, i, m);
      i3' := Iterate(i3, total, false);
      var checkTileIndex := GetTileIndex(stage, if horizontal then i3' else v, if horizontal then v else i3');
      var checkLookup := HasTile(Some(stage), checkTileIndex);
      FirstTileSameIndices(stage.tiles, s0.tiles, checkTileIndex);
      PatternAt(s0, horizontal, v, i3');
      nextTileIndex, nextLookup := 0, -1;
      if checkLookup == -1 {
        i3' := Iterate(i3', total, true);
        nextTileIndex := GetTileIndex(stage, if horizontal then i3' else v, if horizontal then v else i3');
        nextLookup := HasTile(Some(stage), nextTileIndex);
        FirstTileSameIndices(stage.tiles, s0.tiles, nextTileIndex);
        PatternAt(s0, horizontal, v, i3');
      }
    }

    /** `RecalculateAdjacents(stage, tileIndex)`: recompute the edited
        tile's row, then its column; an index whose path is (-1, -1) leaves
        the stage as it is. */
    method RecalculateAdjacents(tileIndex: int)
      requires stage.columns > 0
      modifies this
      ensures stage == Recalculate(old(stage), tileIndex)
    {
      var (column, row) := GetPath(Some(stage), tileIndex);
      if column == -1 || row == -1 {
        return;
      }
      RecalculateLine(true, row);
      RecalculateLine(false, column);
    }

    /** `RemoveItems`: unplace the first spawn on the tile and delete the
        first prop on it. */
    method RemoveItems(tileIndex: int)
      requires HasItemArrays(stage)
      modifies this
      ensures stage == RemovedItems(old(stage), tileIndex)
    {
      var playerIndex := HasPlayer(stage, tileIndex);
      if playerIndex != -1 {
        var players := stage.players.value;
        stage := stage.(players := Some(players[playerIndex := players[playerIndex].(tileIndex := Unplaced)]));
      }
      var propIndex := HasProp(stage, tileIndex);
      if propIndex != -1 {
        var props := stage.props.value;
        stage := stage.(props := Some(props[..propIndex] + props[propIndex + 1..]));
      }
    }

    /** `AddProp`: clear the tile, then append a new prop on it. */
    method AddProp(tileIndex: int, direction: Direction, propPrefab: int, propVariant: int, isWinner: bool)
      requires HasItemArrays(stage)
      modifies this
      ensures stage == AddedProp(old(stage), tileIndex, direction, propPrefab, propVariant, isWinner)
    {
      RemoveItems(tileIndex);
      var prop := NewProp(tileIndex, direction, propPrefab, propVariant, isWinner);
      var props: seq<PropData> := [];
      if stage.props.Some? {
        props := props + stage.props.value;
        assert props == stage.props.value;
      }
      props := props + [prop];
      stage := stage.(props := Some(props));
    }

    /** `AddPlayer`: clear the tile, then move spawn slot `playerIndex`
        onto it with the given facing. */
    method AddPlayer(tileIndex: int, direction: Direction, playerIndex: int)
      requires HasItemArrays(stage) && 0 <= playerIndex < |stage.players.value|
      modifies this
      ensures stage == AddedPlayer(old(stage), tileIndex, direction, playerIndex)
    {
      RemoveItems(tileIndex);
      var players := stage.players.value;
      stage := stage.(players := Some(players[playerIndex := PlayerData(tileIndex, direction)]));
    }

    /** A press of the tile palette on `tileIndex` (lines 770-804 of the
        editor's tile UI): palette entry 0 erases an existing tile with its
        items, a positive entry adds a tile of prefab `tileType - 1` or
        changes the existing one's prefab; then adjacency is recomputed. */
    method EditTile(tileIndex: int, tileType: int)
      requires stage.columns > 0
      requires tileType == 0 && Populated(stage.tiles, tileIndex) ==> HasItemArrays(stage)
      modifies this
      ensures stage == Recalculate(EditedTiles(old(stage), tileIndex, tileType), tileIndex)
    {
      ghost var edited := EditedTiles(stage, tileIndex, tileType);
      var index := HasTile(Some(stage), tileIndex);
      if tileType == 0 && index != -1 {
        var tiles := stage.tiles;
        RemoveItems(tileIndex);
        stage := stage.(tiles := tiles[..index] + tiles[index + 1..]);
      } else if tileType > 0 {
        if index == -1 {
          var newTile := TileData(tileIndex, tileType - 1, 0, 0, 0, 0, 0);
          stage := stage.(tiles := stage.tiles + [newTile]);
        } else {
          stage := stage.(tiles := stage.tiles[index := stage.tiles[index].(tilePrefab := tileType - 1)]);
        }
      }
      assert stage == edited;
      RecalculateAdjacents(tileIndex);
    }
  }
}
