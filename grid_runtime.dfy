/** The live grid as the game holds it: the grid manager's tile dictionary
    and its items, whose fields the item methods update in place. Each
    method is proved to leave the grid as the matching function on `World`
    values says; the properties are proved about those functions. */
module GridRuntime {
  import opened StageRecords
  import opened GridWorld
  import opened CharacterRules
  import opened GridPush
  import opened GridMotion
  import opened GridCharacters
  import opened GridLoad
  import opened GridTick
  import opened GameFlow

  /** The grid manager with the tiles it loaded and the items standing on
      them. An item's methods are the manager's methods on that item's
      row: the items and tiles refer to each other by index. */
  class GridManager {
    var tiles: map<int, GridTile>
    var items: seq<GridItem>

    /** The fields as a value. */
    function State(): World
      reads this
    {
      World(tiles, items)
    }

    /** An unloaded grid. */
    constructor ()
      ensures State() == World(map[], [])
    {
      tiles := map[];
      items := [];
    }

    // -------------------------------------------------------------------
    // `GridItem`.

    /** `GridItem.SetTileIndex`. */
    method SetTileIndex(id: int, newIndex: int, reset: bool)
      requires Placed(State()) && ValidItem(State(), id)
      modifies this
      ensures State() == GridWorld.SetTileIndex(old(State()), id, newIndex, reset)
    {
      var it := items[id];
      if it.onTile && tiles[it.tileIndex].movable == Some(id) {
        tiles := tiles[it.tileIndex := tiles[it.tileIndex].(movable := Null)];
      }
      var onNew := newIndex in tiles;
      if onNew {
        tiles := tiles[newIndex := tiles[newIndex].(movable := Some(id))];
      }
      var moved := it.(tileIndex := newIndex, onTile := onNew);
      if reset {
        moved := moved.(pushOffset := Zero, pushDirection := None);
      }
      items := items[id := moved];
    }

    /** `GridItem.Push`: push the next occupant first, then commit into the
        next tile or hold, and record the push. */
    method Push(id: int, d: Direction, offset: real, allowPush: bool, fuel: nat)
      requires Pushable(State(), id)
      modifies this
      ensures State() == GridPush.Push(old(State()), id, d, offset, allowPush, fuel)
      decreases fuel
    {
      ghost var w := State();
      var next := GetAdjacentTile(State(), items[id].tileIndex, d);
      if next.Null? {
        return;
      }
      var n := next.value;
      if allowPush && tiles[n].movable.Some? && fuel > 0 {
        Push(tiles[n].movable.value, d, offset, true, fuel - 1);
      }
      ghost var w1 := State();
      PushUnfold(w, id, d, offset, allowPush, fuel, n, w1);
      var over := Abs(offset) > PushMax;
      var newOffset := offset;
      if over && tiles[n].movable.Null? {
        SetTileIndexConsistent(w1, id, tiles[n].data.tileIndex, false);
        SetTileIndex(id, tiles[n].data.tileIndex, false);
        newOffset := Commit(offset);
      } else if over {
        newOffset := 0.0;
      }
      var it := items[id];
      items := items[id := it.(pushDirection := d, pushOffset := WithAxis(it.pushOffset, d, newOffset))];
    }

    /** `GridItem.Update`: slide each offset component not pushed this
        frame, then clear the push direction. */
    method ItemUpdate(id: int)
      requires ValidItem(State(), id)
      modifies this
      ensures State() == GridMotion.ItemUpdate(old(State()), id)
    {
      var it := items[id];
      if !it.onTile {
        return;
      }
      var newOffset := it.pushOffset;
      if newOffset.x != 0.0 && it.pushDirection != Left && it.pushDirection != Right {
        newOffset := newOffset.(x := SlideComponent(newOffset.x));
      }
      if newOffset.y != 0.0 && it.pushDirection != Up && it.pushDirection != Down {
        newOffset := newOffset.(y := SlideComponent(newOffset.y));
      }
      items := items[id := it.(pushOffset := newOffset, pushDirection := None)];
    }

    /** `Obstacle.LateUpdate`: the same slide, then the push flags. */
    method ObstacleLateUpdate(id: int)
      requires ValidItem(State(), id) && items[id].role.Obstacle?
      modifies this
      ensures State() == GridMotion.ObstacleLateUpdate(old(State()), id)
    {
      var it := items[id];
      if !it.onTile {
        return;
      }
      var newOffset := it.pushOffset;
      if newOffset.x != 0.0 && it.pushDirection != Left && it.pushDirection != Right {
        newOffset := newOffset.(x := SlideComponent(newOffset.x));
      }
      if newOffset.y != 0.0 && it.pushDirection != Up && it.pushDirection != Down {
        newOffset := newOffset.(y := SlideComponent(newOffset.y));
      }
      var o := it.role;
      if it.pushDirection != None {
        it := it.(role := o.(isBeingPushed := true), pushDirection := None);
      } else {
        it := it.(role := o.(isBeingPushed := false, pushByChar := false));
      }
      items := items[id := it.(pushOffset := newOffset)];
    }

    /** `PrePush` on `target` by `pusher`, per kind of item; returns what
        it reported. */
    method PrePush(target: int, pusher: int) returns (events: seq<Event>)
      requires ValidItem(State(), target) && ValidItem(State(), pusher)
      modifies this
      ensures var r := GridPush.PrePush(old(State()), target, pusher);
              State() == r.world && events == r.events
    {
      var it := items[target];
      var byCharacter := items[pusher].role.Character?;
      events := [];
      match it.role
      case Prop(data, _) =>
        if data.isWinProp && byCharacter {
          events := [Won(items[pusher].role.mover.playerIndex)];
        }
      case Obstacle(data, locks, _, isBeingPushed) =>
        if byCharacter {
          items := items[target := it.(role := Obstacle(data, locks, true, isBeingPushed))];
        }
      case Character(m) =>
        if byCharacter && pusher != target && m.state != Stunned &&
           m.stunElapsed >= m.config.stunTime + m.config.stunInvulnerable {
          var s := SetState(target, m.(stunElapsed := 0.0), Stunned);
          items := items[target := it.(role := Character(s.mover))];
          events := [Hit(target, pusher)] + s.events;
        }
    }

    // -------------------------------------------------------------------
    // `GridCharacter`.

    /** Writes a character's own fields. */
    method SetMover(id: int, m: Mover)
      requires ValidItem(State(), id)
      modifies this
      ensures State() == WithMover(old(State()), id, m)
    {
      items := items[id := items[id].(role := Character(m))];
    }

    /** The walking state from the velocity, then the base
        `GridItem.Update` (lines 289-302). */
    method Finish(id: int, before: seq<Event>) returns (events: seq<Event>)
      requires Consistent(State()) && IsCharacter(State(), id)
      modifies this
      ensures var r := GridCharacters.Finish(old(State()), id, before);
              State() == r.world && events == r.events
    {
      var m := items[id].role.mover;
      var walking := Abs(m.velocity) > 0.0;
      var s := MoverStep(m, []);
      if walking && m.state == Idle {
        s := SetState(id, m, Walking);
      } else if !walking && (m.state == Walking || m.state == Pushing) {
        s := SetState(id, m, Idle);
      }
      SetMover(id, s.mover);
      events := before + s.events;
      ItemUpdate(id);
    }

    /** Lines 248-281: accelerate, start pushing when leaning into an
        occupied tile ahead, and push by the offset. */
    method Shove(id: int, occupied: bool, inputVal: real, dt: real, fuel: nat) returns (events: seq<Event>)
      requires Consistent(State()) && IsCharacter(State(), id) && items[id].onTile
      modifies this
      ensures var r := GridCharacters.Shove(old(State()), id, occupied, inputVal, dt, fuel);
              State() == r.world && events == r.events
    {
      ghost var w := State();
      var d := items[id].role.mover.direction;
      var offset, s := LeanIn(id, occupied, inputVal, dt);
      events := s.events;
      SetMover(id, s.mover);
      assert Pushable(State(), id);
      Push(id, d, offset, s.mover.state == Pushing, fuel);
    }

    /** Lines 248-278: the new velocity, the offset it reaches along the
        facing, and the push state taken when that offset leans into an
        occupied tile ahead. */
    method LeanIn(id: int, occupied: bool, inputVal: real, dt: real) returns (offset: real, s: MoverStep)
      requires IsCharacter(State(), id)
      ensures var m := items[id].role.mover;
              offset == LeanOffset(m, items[id].pushOffset, inputVal, dt) &&
              s == Lean(id, m, occupied, inputVal, offset)
    {
      var m := items[id].role.mover;
      var d := m.direction;
      var v := m.velocity + inputVal * m.config.acceleration;
      if m.config.maxVelocity > 0.0 {
        v := Clamp(v, -m.config.maxVelocity, m.config.maxVelocity);
      }
      offset := AxisOf(items[id].pushOffset, d) + v * dt;
      s := MoverStep(m.(velocity := v), []);
      if m.state != Pushing && occupied && Leaning(d, offset) {
        s := SetState(id, m.(velocity := v), Pushing);
      }
      assert v == Accelerate(m, inputVal);
      LeanOffsetOf(m, items[id].pushOffset, inputVal, dt, v);
    }

    method Press(id: int, occupied: bool, inputVal: real, dt: real, fuel: nat, before: seq<Event>) returns (events: seq<Event>)
      requires Consistent(State()) && IsCharacter(State(), id) && items[id].onTile
      modifies this
      ensures var r := GridCharacters.Press(old(State()), id, occupied, inputVal, dt, fuel, before);
              State() == r.world && events == r.events
    {
      var pushed := Shove(id, occupied, inputVal, dt, fuel);
      events := Finish(id, before + pushed);
    }

    /** Lines 227-230: the push attempt on the occupant ahead. */
    method Attempt(id: int, n: int) returns (events: seq<Event>)
      requires Consistent(State()) && IsCharacter(State(), id) && n in tiles
      modifies this
      ensures var r := GridCharacters.Attempt(old(State()), id, n);
              State() == r.world && events == r.events
    {
      var occ := tiles[n].movable;
      events := [];
      if occ.Some? && items[id].role.mover.state != Pushing {
        events := PrePush(occ.value, id);
      }
    }

    /** Lines 227-243: the attempt, then stop against an occupant that
        cannot be pushed, or press on. */
    method Advance(id: int, n: int, inputVal: real, dt: real, fuel: nat, before: seq<Event>) returns (events: seq<Event>)
      requires Consistent(State()) && IsCharacter(State(), id) && items[id].onTile && n in tiles
      modifies this
      ensures var r := GridCharacters.Advance(old(State()), id, n, inputVal, dt, fuel, before);
              State() == r.world && events == r.events
    {
      ghost var w := State();
      var occ := tiles[n].movable;
      var attempted := Attempt(id, n);
      ghost var w1 := State();
      assert w1 == GridCharacters.Attempt(w, id, n).world;
      if occ.Some? && !CanPush(State(), occ.value, items[id].role.mover.direction, items[id].tileIndex, fuel) {
        var m := items[id].role.mover;
        if m.immovableElapsed > 0.0 {
          m := m.(immovableElapsed := m.immovableElapsed - dt);
        } else {
          m := m.(immovableElapsed := m.config.immovableSpawnTime);
        }
        assert m == Immovable(w1.items[id].role.mover, dt);
        SetMover(id, m);
        events := Finish(id, before + attempted);
      } else {
        events := Press(id, occ.Some?, inputVal, dt, fuel, before + attempted);
      }
    }

    /** `GridCharacter.Update` for the character `id`: returns what it
        reported and whether it stopped on the null reference. */
    method CharacterUpdate(id: int, gamePlay: bool, raw: Stick, dt: real, fuel: nat) returns (events: seq<Event>, crashed: bool)
      requires Consistent(State()) && IsCharacter(State(), id)
      modifies this
      ensures var r := GridCharacters.CharacterUpdate(old(State()), id, gamePlay, raw, dt, fuel);
              State() == r.world && events == r.events && crashed == r.crashed
    {
      events, crashed := [], false;
      var it := items[id];
      if !gamePlay || !it.onTile {
        return;
      }
      var m := it.role.mover;
      // The stick, then the stun timer.
      var input := Still;
      if m.canControl {
        input := ReadInput(m, raw);
      }
      if m.state == Stunned {
        input := Still;
        m := m.(stunElapsed := m.stunElapsed + dt);
        if m.stunElapsed >= m.config.stunTime {
          var s := SetState(id, m, Idle);
          m := s.mover;
          events := s.events;
        }
      } else if m.stunElapsed < m.config.stunTime + m.config.stunInvulnerable {
        m := m.(stunElapsed := m.stunElapsed + dt);
      }
      // The facing.
      var turned := UpdateDirection(id, m, NewFacing(m.direction, input.x, input.y));
      m := turned.mover;
      events := events + turned.events;
      assert Turned(m, input, events) == Turn(id, it.role.mover, raw, dt);
      // Moving.
      var inputVal := Parallel(m.direction, input.x, input.y);
      if Abs(inputVal) > 0.0 {
        var next := GetAdjacentTile(State(), it.tileIndex, m.direction);
        SetMover(id, m);
        if next.Null? {
          crashed := true;
          return;
        }
        events := Advance(id, next.value, inputVal, dt, fuel, events);
      } else {
        SetMover(id, m.(velocity := 0.0));
        events := Finish(id, events);
      }
    }

    /** `GridItem.SetVariant`: the variant loop switches on the chosen one
        and every other one off. */
    method SetVariant(id: int, chosen: int)
      requires ValidItem(State(), id)
      modifies this
      ensures State() == old(State()).(items := old(items)[id := old(items)[id].(variants := GridWorld.SetVariant(|old(items)[id].variants|, chosen))])
    {
      var vs := items[id].variants;
      var v := 0;
      while v < |vs|
        invariant 0 <= v <= |vs| == |items[id].variants|
        invariant forall u :: 0 <= u < v ==> vs[u] == (u == chosen)
      {
        vs := vs[v := v == chosen];
        v := v + 1;
      }
      assert vs == GridWorld.SetVariant(|items[id].variants|, chosen);
      items := items[id := items[id].(variants := vs)];
    }

    /** The first half of `Place`: the variant, then the tile. */
    method Relocate(id: int, newVariant: int, newTile: int)
      requires Consistent(State()) && IsCharacter(State(), id)
      modifies this
      ensures State() == GridCharacters.Relocate(old(State()), id, newVariant, newTile)
    {
      ghost var w := State();
      SetVariant(id, newVariant);
      assert forall i :: 0 <= i < |w.items| ==> items[i].onTile == w.items[i].onTile && items[i].tileIndex == w.items[i].tileIndex;
      SetTileIndex(id, newTile, true);
    }

    /** `GridCharacter.Place`, drawing only movement directions when no
        facing is given; returns the state notifications. */
    method Place(id: int, newVariant: int, newTile: int, newDirection: Direction, draw: nat) returns (events: seq<Event>)
      requires Consistent(State()) && IsCharacter(State(), id)
      modifies this
      ensures var r := GridCharacters.Place(old(State()), id, newVariant, newTile, newDirection, draw);
              State() == r.world && events == r.events
    {
      Relocate(id, newVariant, newTile);
      var m := items[id].role.mover;
      m := m.(stunElapsed := m.config.stunTime + m.config.stunInvulnerable);
      var s1 := UpdateDirection(id, m, None);
      var d := newDirection;
      if d == None {
        d := DrawnFacing(draw);
      }
      var s2 := UpdateDirection(id, s1.mover, d);
      assert MoverStep(s2.mover, s1.events + s2.events) == Ready(id, items[id].role.mover, newDirection, DrawnFacing(draw));
      SetMover(id, s2.mover);
      events := s1.events + s2.events;
    }

    // -------------------------------------------------------------------
    // `GridManager.Load`.

    /** The tile loop: the first record for an index with a prefab gets a
        tile; the items are unloaded. */
    method GenerateTiles(ds: seq<TileData>, prefabs: seq<Nullable<nat>>)
      modifies this
      ensures State() == TileGrid(ds, prefabs)
    {
      tiles, items := map[], [];
      var i := 0;
      while i < |ds|
        invariant 0 <= i <= |ds|
        invariant tiles == LoadTiles(ds[..i], prefabs) && items == []
      {
        var d := ds[i];
        assert ds[..i + 1][..i] == ds[..i];
        if d.tileIndex !in tiles {
          var prefab := if 0 <= d.tilePrefab < |prefabs| then prefabs[d.tilePrefab] else Null;
          if prefab.Some? {
            tiles := tiles[d.tileIndex := LoadTile(d, prefab.value)];
          }
        }
        i := i + 1;
      }
      assert ds[..i] == ds;
    }

    /** The prop loop; false where it throws. */
    method GenerateProps(ps: seq<PropData>, prefabs: seq<Nullable<PropPrefab>>) returns (ok: bool)
      requires Consistent(State())
      modifies this
      ensures ok <==> LoadProps(old(State()), ps, prefabs).Some?
      ensures ok ==> State() == LoadProps(old(State()), ps, prefabs).value
    {
      ghost var w := State();
      var p := 0;
      while p < |ps|
        invariant 0 <= p <= |ps|
        invariant Consistent(State()) && LoadProps(w, ps[..p], prefabs) == Some(State())
      {
        assert ps[..p + 1][..p] == ps[..p];
        ok := GenerateProp(ps[p], prefabs);
        if !ok {
          LoadPropsThrowStays(w, ps, prefabs, p + 1);
          return;
        }
        p := p + 1;
      }
      assert ps[..p] == ps;
      return true;
    }

    /** One pass of the prop loop; false where it throws. */
    method GenerateProp(d: PropData, prefabs: seq<Nullable<PropPrefab>>) returns (ok: bool)
      requires Consistent(State())
      modifies this
      ensures ok <==> AddProp(old(State()), d, prefabs).Some?
      ensures ok ==> State() == AddProp(old(State()), d, prefabs).value && Consistent(State())
    {
      if d.tileIndex !in tiles || tiles[d.tileIndex].movable.Some? {
        return true;
      }
      var prefab: Nullable<PropPrefab> := Null;
      if 0 <= d.propPrefab < |prefabs| {
        prefab := prefabs[d.propPrefab];
      }
      if prefab.Null? && |prefabs| > 0 {
        prefab := prefabs[0];
      }
      if prefab.Null? {
        return false;
      }
      items := items + [NewProp(d, prefab.value)];
      SetTileIndex(|items| - 1, d.tileIndex, true);
      return true;
    }

    /** The character loop over the joined players; false where it
        throws. */
    method GenerateCharacters(spawns: seq<PlayerData>, cast: seq<Cast>) returns (ok: bool)
      requires Consistent(State())
      modifies this
      ensures ok <==> CastCharacters(old(State()), spawns, cast).Some?
      ensures ok ==> State() == CastCharacters(old(State()), spawns, cast).value
    {
      ghost var w := State();
      var q := 0;
      while q < |cast|
        invariant 0 <= q <= |cast|
        invariant Consistent(State()) && CastCharacters(w, spawns, cast[..q]) == Some(State())
      {
        assert cast[..q + 1][..q] == cast[..q];
        ok := GenerateCharacter(q, spawns, cast[q]);
        if !ok {
          CastCharactersThrowStays(w, spawns, cast, q + 1);
          return;
        }
        q := q + 1;
      }
      assert cast[..q] == cast;
      return true;
    }

    /** One pass of the character loop, for player `p`; false where it
        throws. */
    method GenerateCharacter(p: nat, spawns: seq<PlayerData>, c: Cast) returns (ok: bool)
      requires Consistent(State())
      modifies this
      ensures ok <==> AddCharacter(old(State()), p, spawns, c).Some?
      ensures ok ==> State() == AddCharacter(old(State()), p, spawns, c).value && Consistent(State())
    {
      if p >= |spawns| || c.prefab.Null? {
        return false;
      }
      items := items + [Awake(p, c.prefab.value)];
      var _ := Place(|items| - 1, c.variant, spawns[p].tileIndex, spawns[p].direction, c.draw);
      return true;
    }

    /** Loads a stage: the tiles, the props, one character per joined
        player as `cast` chooses them, and then the game intro. Returns
        false where the load throws, which leaves the game manager as it
        was. */
    method Load(gm: GameManager, data: StageData, tilePrefabs: seq<Nullable<nat>>,
                propPrefabs: seq<Nullable<PropPrefab>>, cast: seq<Cast>) returns (ok: bool)
      requires |cast| == |gm.players|
      modifies this, gm
      ensures ok <==> GridLoad.Load(data, tilePrefabs, propPrefabs, cast).Some?
      ensures ok ==> State() == GridLoad.Load(data, tilePrefabs, propPrefabs, cast).value
      ensures ok ==> gm.State() == AfterSetState(old(gm.State()), GameIntro)
      ensures !ok ==> gm.State() == old(gm.State())
    {
      GenerateTiles(data.tiles, tilePrefabs);
      if data.props.Null? {
        return false;
      }
      ok := GenerateProps(data.props.value, propPrefabs);
      if !ok {
        return;
      }
      if |cast| > 0 {
        if data.players.Null? {
          return false;
        }
        ok := GenerateCharacters(data.players.value, cast);
        if !ok {
          return;
        }
      }
      gm.SetState(GameIntro);
    }

    // -------------------------------------------------------------------
    // A frame.

    /** The `Update` of item `i`, a character's wins reaching the game
        manager as they are reported. */
    method UpdateItem(gm: GameManager, inputs: map<int, Stick>, dt: real, i: int) returns (events: seq<Event>, faults: seq<int>)
      requires Consistent(State()) && ValidItem(State(), i)
      modifies this, gm
      ensures var r := GridTick.UpdateItem(Scene(old(State()), old(gm.State())), gm.data, inputs, dt, i);
              State() == r.scene.world && gm.State() == r.scene.manager && events == r.events && faults == r.faults
    {
      match items[i].role
      case Character(m) =>
        var crashed;
        events, crashed := CharacterUpdate(i, gm.gameState == GamePlay, InputOf(inputs, m.playerIndex), dt, |tiles|);
        faults := if crashed then [i] else [];
        Deliver(gm, events);
      case _ =>
        ItemUpdate(i);
        events, faults := [], [];
    }

    /** The `Update` of item `i` as the next step of the phase that
        started from `s0`. */
    method UpdateStep(gm: GameManager, inputs: map<int, Stick>, dt: real, i: nat,
                      ghost s0: Scene, ghost before: seq<Event>, ghost faultsBefore: seq<int>)
        returns (events: seq<Event>, faults: seq<int>)
      requires Consistent(s0.world) && i < |s0.world.items|
      requires Ticked(Scene(State(), gm.State()), before, faultsBefore) == UpdatePass(s0, gm.data, inputs, dt, i)
      modifies this, gm
      ensures Ticked(Scene(State(), gm.State()), before + events, faultsBefore + faults) == UpdatePass(s0, gm.data, inputs, dt, i + 1)
    {
      events, faults := UpdateItem(gm, inputs, dt, i);
    }

    /** The `Update` phase: every item in table order. */
    method UpdatePhase(gm: GameManager, inputs: map<int, Stick>, dt: real) returns (events: seq<Event>, faults: seq<int>)
      requires Consistent(State())
      modifies this, gm
      ensures var r := UpdatePass(Scene(old(State()), old(gm.State())), gm.data, inputs, dt, |old(items)|);
              State() == r.scene.world && gm.State() == r.scene.manager && events == r.events && faults == r.faults
    {
      ghost var s0 := Scene(State(), gm.State());
      events, faults := [], [];
      var n := |items|;
      var i := 0;
      while i < n
        invariant 0 <= i <= n == |s0.world.items|
        invariant Ticked(Scene(State(), gm.State()), events, faults) == UpdatePass(s0, gm.data, inputs, dt, i)
      {
        var e, f := UpdateStep(gm, inputs, dt, i, s0, events, faults);
        events, faults := events + e, faults + f;
        i := i + 1;
      }
    }

    /** The `LateUpdate` phase: every obstacle on a tile settles. */
    method LatePhase()
      requires Consistent(State())
      modifies this
      ensures State() == LatePass(old(State()), |old(items)|)
    {
      ghost var w := State();
      var n := |items|;
      var j := 0;
      while j < n
        invariant 0 <= j <= n == |w.items|
        invariant State() == LatePass(w, j)
      {
        LateStep(j, w);
        j := j + 1;
      }
    }

    /** The `LateUpdate` of item `j` as the next step of the phase that
        started from `w`. */
    method LateStep(j: int, ghost w: World)
      requires Consistent(w) && 0 <= j < |w.items| && State() == LatePass(w, j)
      modifies this
      ensures State() == LatePass(w, j + 1)
    {
      ghost var before := State();
      if items[j].role.Obstacle? && items[j].onTile {
        ObstacleLateUpdate(j);
      }
      assert State() == LateItem(before, j);
    }

    /** One frame: every item's `Update` in table order, then every
        obstacle's `LateUpdate`. */
    method Tick(gm: GameManager, inputs: map<int, Stick>, dt: real) returns (events: seq<Event>, faults: seq<int>)
      requires Consistent(State())
      modifies this, gm
      ensures var r := GridTick.Tick(Scene(old(State()), old(gm.State())), gm.data, inputs, dt);
              State() == r.scene.world && gm.State() == r.scene.manager && events == r.events && faults == r.faults
    {
      events, faults := UpdatePhase(gm, inputs, dt);
      LatePhase();
    }
  }

  /** The game manager's side of the notifications: each win calls
      `GameManager.WinStage` in the order reported. */
  method Deliver(gm: GameManager, events: seq<Event>)
    modifies gm
    ensures gm.State() == ApplyEvents(old(gm.State()), gm.data, events)
  {
    var k := 0;
    while k < |events|
      invariant 0 <= k <= |events|
      invariant gm.State() == ApplyEvents(old(gm.State()), gm.data, events[..k])
    {
      assert events[..k + 1][..k] == events[..k];
      if events[k].Won? {
        gm.WinStage(events[k].playerIndex);
      }
      k := k + 1;
    }
    assert events[..k] == events;
  }
}
