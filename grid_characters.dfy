/** A grid character's frame (`GridCharacter.Update`): read the stick, run
    the stun timer, turn to face the input, then try to walk into the tile
    ahead — raising the push attempt on its occupant, stopping against an
    item that cannot give way, or accelerating and pushing the chain — and
    finally settle the walking state and slide the offset. Also the
    character's placement on a stage (`GridCharacter.Place`). */
module GridCharacters {
  import opened StageRecords
  import opened GridWorld
  import opened CharacterRules
  import opened GridPush
  import opened GridMotion

  /** The raw stick axes of one player for one frame, before clamping. */
  datatype Stick = Stick(x: real, y: real)

  const Still: Stick := Stick(0.0, 0.0)

  /** A frame's result: the world, the notifications in the order they
      were raised, and whether the frame stopped on a null reference (Unity
      logs the exception and keeps what was already written). */
  datatype Outcome = Outcome(world: World, events: seq<Event>, crashed: bool)

  predicate IsCharacter(w: World, id: int)
  {
    ValidItem(w, id) && w.items[id].role.Character?
  }

  // ---------------------------------------------------------------------
  // What a frame keeps.

  /** Every item keeps its kind. */
  predicate SameKinds(w: World, r: World)
  {
    |r.items| == |w.items| &&
    forall i :: 0 <= i < |w.items| ==>
      (r.items[i].role.Prop? <==> w.items[i].role.Prop?) &&
      (r.items[i].role.Obstacle? <==> w.items[i].role.Obstacle?) &&
      (r.items[i].role.Character? <==> w.items[i].role.Character?)
  }

  /** A frame keeps the tiles' keys, records and variants, the item table's
      length, every item's kind, and one item per tile. */
  predicate Keeps(w: World, r: World)
  {
    r.tiles.Keys == w.tiles.Keys &&
    (forall k :: k in w.tiles ==> r.tiles[k].data == w.tiles[k].data && r.tiles[k].variants == w.tiles[k].variants) &&
    SameKinds(w, r) && (Exclusive(w) ==> Exclusive(r))
  }

  /** Every item keeps its place. */
  predicate Placement(w: World, r: World)
  {
    |r.items| == |w.items| &&
    forall i :: 0 <= i < |w.items| ==> r.items[i].tileIndex == w.items[i].tileIndex && r.items[i].onTile == w.items[i].onTile
  }

  lemma PlacementTrans(a: World, b: World, c: World)
    requires Placement(a, b) && Placement(b, c)
    ensures Placement(a, c)
  {
  }

  /** Writes a character's own fields back into the world. */
  function WithMover(w: World, id: int, m: Mover): (r: World)
    requires ValidItem(w, id)
    ensures IsCharacter(r, id) && r.items[id].role.mover == m
    ensures SameShape(w, r) && r.tiles == w.tiles
    ensures Consistent(w) ==> Consistent(r)
    ensures Exclusive(w) ==> Exclusive(r)
    ensures w.items[id].role.Character? ==> Keeps(w, r)
    ensures Placement(w, r)
    ensures forall i :: 0 <= i < |w.items| && i != id ==> r.items[i] == w.items[i]
  {
    var r := w.(items := w.items[id := w.items[id].(role := Character(m))]);
    assert forall i :: 0 <= i < |w.items| ==> r.items[i].onTile == w.items[i].onTile && r.items[i].tileIndex == w.items[i].tileIndex;
    r
  }

  /** The input a character reads (`GridCharacter.cs` lines 137-158): each
      axis clamped and put through the dead zone, or nothing at all for a
      character the player does not control. */
  function ReadInput(m: Mover, raw: Stick): (r: Stick)
    ensures r.x == 0.0 || r.x == 1.0 || r.x == -1.0
    ensures r.y == 0.0 || r.y == 1.0 || r.y == -1.0
    ensures !m.canControl ==> r == Still
  {
    if m.canControl then
      QuantizeValues(PlayerAxis(raw.x), m.config.axisMin);
      QuantizeValues(PlayerAxis(raw.y), m.config.axisMin);
      Stick(Quantize(PlayerAxis(raw.x), m.config.axisMin), Quantize(PlayerAxis(raw.y), m.config.axisMin))
    else Still
  }

  /** The stun timer (lines 160-179): a stunned character counts up and
      recovers to Idle once the stun time has passed; any other character
      counts up only while still invulnerable. */
  function StunTick(id: int, m: Mover, dt: real): MoverStep
  {
    if m.state == Stunned then
      var m1 := m.(stunElapsed := m.stunElapsed + dt);
      if m1.stunElapsed >= m.config.stunTime then SetState(id, m1, Idle) else MoverStep(m1, [])
    else if m.stunElapsed < m.config.stunTime + m.config.stunInvulnerable then
      MoverStep(m.(stunElapsed := m.stunElapsed + dt), [])
    else MoverStep(m, [])
  }

  /** Pressing against an item that will not give way (lines 234-242):
      count the immovable timer down, or restart it once it has run out. */
  function Immovable(m: Mover, dt: real): Mover
  {
    if m.immovableElapsed > 0.0 then m.(immovableElapsed := m.immovableElapsed - dt)
    else m.(immovableElapsed := m.config.immovableSpawnTime)
  }

  /** The velocity after a frame of input along the facing (lines
      248-253), clamped when a maximum is set. */
  function Accelerate(m: Mover, inputVal: real): real
  {
    var v := m.velocity + inputVal * m.config.acceleration;
    if m.config.maxVelocity > 0.0 then Clamp(v, -m.config.maxVelocity, m.config.maxVelocity) else v
  }

  /** The offset points into the tile ahead (lines 270-277). */
  predicate Leaning(d: Direction, offset: real)
  {
    (offset > 0.0 && (d == Up || d == Right)) || (offset < 0.0 && (d == Down || d == Left))
  }

  /** The walking state from the velocity (lines 289-299): an idle
      character that moves starts walking; a walking or pushing one that
      has stopped becomes idle. */
  function Walk(id: int, m: Mover): MoverStep
  {
    var walking := Abs(m.velocity) > 0.0;
    if walking && m.state == Idle then SetState(id, m, Walking)
    else if !walking && (m.state == Walking || m.state == Pushing) then SetState(id, m, Idle)
    else MoverStep(m, [])
  }

  lemma KeepsRefl(w: World)
    ensures Keeps(w, w)
  {
  }

  lemma KeepsTrans(a: World, b: World, c: World)
    requires Keeps(a, b) && Keeps(b, c)
    ensures Keeps(a, c)
  {
  }

  lemma PrePushKeeps(w: World, target: int, pusher: int)
    requires ValidItem(w, target) && ValidItem(w, pusher)
    ensures Keeps(w, PrePush(w, target, pusher).world)
  {
    PrePushFrame(w, target, pusher);
  }

  lemma PushKeeps(w: World, id: int, d: Direction, offset: real, allowPush: bool, fuel: nat, r: World)
    requires Pushable(w, id) && r == Push(w, id, d, offset, allowPush, fuel)
    ensures Keeps(w, r)
  {
    PushFrame(w, id, d, offset, allowPush, fuel, r);
    if Exclusive(w) {
      PushExclusive(w, id, d, offset, allowPush, fuel, r);
    }
  }

  /** The end of every completed frame: the walking state, then the base
      `GridItem.Update`. */
  function Finish(w: World, id: int, events: seq<Event>): (r: Outcome)
    requires Consistent(w) && IsCharacter(w, id)
    ensures Consistent(r.world) && SameShape(w, r.world) && !r.crashed
    ensures Keeps(w, r.world) && IsCharacter(r.world, id)
    ensures r.world.tiles == w.tiles && Placement(w, r.world)
    ensures forall i :: 0 <= i < |w.items| && i != id ==> r.world.items[i] == w.items[i]
    ensures var m := w.items[id].role.mover;
            r.world.items[id].role.mover == m.(state := Walk(id, m).mover.state)
    ensures events <= r.events
  {
    var s := Walk(id, w.items[id].role.mover);
    var w1 := WithMover(w, id, s.mover);
    ItemUpdateEffect(w1, id);
    Outcome(ItemUpdate(w1, id), events + s.events, false)
  }

  /** Lines 248-281, once the way ahead is open: accelerate, start pushing
      when the offset leans into an occupied tile ahead, and push by the
      offset (pushing the chain ahead only in the Pushing state). */
  function Shove(w: World, id: int, occupied: bool, inputVal: real, dt: real, fuel: nat): (r: Reaction)
    requires Consistent(w) && IsCharacter(w, id) && w.items[id].onTile
    ensures Consistent(r.world) && SameShape(w, r.world)
    ensures Keeps(w, r.world) && IsCharacter(r.world, id)
    ensures forall i :: 0 <= i < |w.items| && i != id ==> r.world.items[i].role == w.items[i].role
    ensures var m := w.items[id].role.mover;
            r.world.items[id].role.mover == m.(velocity := Accelerate(m, inputVal), state := r.world.items[id].role.mover.state)
  {
    var m := w.items[id].role.mover;
    var offset := LeanOffset(m, w.items[id].pushOffset, inputVal, dt);
    var s := Lean(id, m, occupied, inputVal, offset);
    var w1 := WithMover(w, id, s.mover);
    var w2 := Push(w1, id, m.direction, offset, s.mover.state == Pushing, fuel);
    PushKeeps(w1, id, m.direction, offset, s.mover.state == Pushing, fuel, w2);
    PushFrame(w1, id, m.direction, offset, s.mover.state == Pushing, fuel, w2);
    KeepsTrans(w, w1, w2);
    Reaction(w2, s.events)
  }

  /** The offset along the facing that this frame's velocity reaches
      (lines 256-265). */
  function LeanOffset(m: Mover, pushOffset: Vec, inputVal: real, dt: real): real
  {
    AxisOf(pushOffset, m.direction) + Accelerate(m, inputVal) * dt
  }

  lemma LeanOffsetOf(m: Mover, pushOffset: Vec, inputVal: real, dt: real, v: real)
    requires v == Accelerate(m, inputVal)
    ensures LeanOffset(m, pushOffset, inputVal, dt) == AxisOf(pushOffset, m.direction) + v * dt
  {
  }

  /** The character's own fields after lines 248-278: the new velocity, and
      the push state taken when it leans into an occupied tile ahead. */
  function Lean(id: int, m: Mover, occupied: bool, inputVal: real, offset: real): (r: MoverStep)
    ensures r.mover == m.(velocity := Accelerate(m, inputVal), state := r.mover.state)
    ensures r.mover.state == Pushing <==> m.state == Pushing || (occupied && Leaning(m.direction, offset))
  {
    var v := Accelerate(m, inputVal);
    if m.state != Pushing && occupied && Leaning(m.direction, offset) then SetState(id, m.(velocity := v), Pushing)
    else MoverStep(m.(velocity := v), [])
  }

  /** The push, then the end of the frame. */
  function Press(w: World, id: int, occupied: bool, inputVal: real, dt: real, fuel: nat, events: seq<Event>): (r: Outcome)
    requires Consistent(w) && IsCharacter(w, id) && w.items[id].onTile
    ensures Consistent(r.world) && SameShape(w, r.world) && !r.crashed
    ensures Keeps(w, r.world) && IsCharacter(r.world, id)
    ensures forall i :: 0 <= i < |w.items| && i != id ==> r.world.items[i].role == w.items[i].role
    ensures var m := w.items[id].role.mover;
            r.world.items[id].role.mover == m.(velocity := Accelerate(m, inputVal), state := r.world.items[id].role.mover.state)
    ensures events <= r.events
  {
    var sh := Shove(w, id, occupied, inputVal, dt, fuel);
    var r := Finish(sh.world, id, events + sh.events);
    KeepsTrans(w, sh.world, r.world);
    r
  }

  /** Line 232: after the attempt, the tile ahead holds an item that
      cannot be pushed. */
  predicate Blocked(w: World, id: int, n: int, fuel: nat)
    requires Consistent(w) && IsCharacter(w, id) && n in w.tiles
  {
    var a := Attempt(w, id, n).world;
    var occ := w.tiles[n].movable;
    occ.Some? && !CanPush(a, occ.value, w.items[id].role.mover.direction, w.items[id].tileIndex, fuel)
  }

  /** Lines 227-230: a character not already pushing raises the push
      attempt on the occupant of the tile ahead. The attempt leaves the
      tiles and the character itself alone. */
  function Attempt(w: World, id: int, n: int): (r: Reaction)
    requires Consistent(w) && IsCharacter(w, id) && n in w.tiles
    ensures Consistent(r.world) && Keeps(w, r.world) && r.world.tiles == w.tiles
    ensures r.world.items[id] == w.items[id] && Placement(w, r.world)
    ensures var occ := w.tiles[n].movable;
            r == if occ.Some? && w.items[id].role.mover.state != Pushing then PrePush(w, occ.value, id) else Reaction(w, [])
  {
    var occ := w.tiles[n].movable;
    if occ.Some? && w.items[id].role.mover.state != Pushing then
      PrePushFrame(w, occ.value, id);
      PrePushKeeps(w, occ.value, id);
      PrePushKeepsPusher(w, occ.value, id);
      PrePush(w, occ.value, id)
    else
      KeepsRefl(w);
      Reaction(w, [])
  }

  /** Lines 232-243, once the attempt is made: stop against an occupant
      that cannot be pushed, running the immovable timer; otherwise
      `Press`. */
  function Advance(w: World, id: int, n: int, inputVal: real, dt: real, fuel: nat, events: seq<Event>): (r: Outcome)
    requires Consistent(w) && IsCharacter(w, id) && w.items[id].onTile && n in w.tiles
    ensures Consistent(r.world) && SameShape(w, r.world) && !r.crashed
    ensures Keeps(w, r.world) && IsCharacter(r.world, id)
    ensures var a := Attempt(w, id, n);
            events + a.events <= r.events &&
            forall i :: 0 <= i < |w.items| && i != id ==> r.world.items[i].role == a.world.items[i].role
    ensures var m := w.items[id].role.mover;
            var m1 := r.world.items[id].role.mover;
            m1.config == m.config && m1.direction == m.direction &&
            (m1.velocity == m.velocity || m1.velocity == Accelerate(m, inputVal))
    ensures Blocked(w, id, n, fuel) ==> r.world.tiles == w.tiles && Placement(w, r.world)
  {
    var occ := w.tiles[n].movable;
    var pre := Attempt(w, id, n);
    var w1 := pre.world;
    if occ.Some? && !CanPush(w1, occ.value, w.items[id].role.mover.direction, w.items[id].tileIndex, fuel) then
      var w2 := WithMover(w1, id, Immovable(w1.items[id].role.mover, dt));
      var r := Finish(w2, id, events + pre.events);
      KeepsTrans(w, w1, w2);
      KeepsTrans(w, w2, r.world);
      PlacementTrans(w, w1, w2);
      PlacementTrans(w, w2, r.world);
      r
    else
      var r := Press(w1, id, occ.Some?, inputVal, dt, fuel, events + pre.events);
      KeepsTrans(w, w1, r.world);
      r
  }

  /** The character after lines 137-219: its input for the frame (none
      while stunned), the stun timer run and the facing resolved. */
  datatype Turned = Turned(mover: Mover, input: Stick, events: seq<Event>)

  function Turn(id: int, m: Mover, raw: Stick, dt: real): (r: Turned)
    ensures r.mover.config == m.config && r.mover.playerIndex == m.playerIndex && r.mover.canControl == m.canControl
    ensures r.mover.velocity == m.velocity || r.mover.velocity == 0.0
    ensures IsCardinal(m.direction) ==> IsCardinal(r.mover.direction)
    ensures !IsCardinal(m.direction) ==> r.mover.direction == m.direction
    ensures r.input == if m.state == Stunned then Still else ReadInput(m, raw)
  {
    NewFacingRule(m.direction, if m.state == Stunned then 0.0 else ReadInput(m, raw).x, if m.state == Stunned then 0.0 else ReadInput(m, raw).y);
    var input := if m.state == Stunned then Still else ReadInput(m, raw);
    var s1 := StunTick(id, m, dt);
    var s2 := UpdateDirection(id, s1.mover, NewFacing(s1.mover.direction, input.x, input.y));
    Turned(s2.mover, input, s1.events + s2.events)
  }

  /** `GridCharacter.Update` for the character `id`. Nothing happens out of
      play or off the grid. `raw` is the player's stick, `dt` the frame
      time and `fuel` the bound on the push recursion. A frame with input
      along a facing that has no tile ahead stops at the null reference of
      line 227 after the timer and the turn were written. Every frame keeps
      the tiles, the item kinds and one item per tile. */
  function CharacterUpdate(w: World, id: int, gamePlay: bool, raw: Stick, dt: real, fuel: nat): (r: Outcome)
    requires Consistent(w) && IsCharacter(w, id)
    ensures Consistent(r.world) && SameShape(w, r.world)
    ensures Keeps(w, r.world) && IsCharacter(r.world, id)
  {
    var it := w.items[id];
    if !gamePlay || !it.onTile then Outcome(w, [], false)
    else
      var t := Turn(id, it.role.mover, raw, dt);
      var inputVal := Parallel(t.mover.direction, t.input.x, t.input.y);
      var w1 := WithMover(w, id, t.mover);
      var r :=
        if Abs(inputVal) > 0.0 then
          var next := GetAdjacentTile(w, it.tileIndex, t.mover.direction);
          if next.Null? then Outcome(w1, t.events, true)
          else Advance(w1, id, next.value, inputVal, dt, fuel, t.events)
        else
          Finish(WithMover(w, id, t.mover.(velocity := 0.0)), id, t.events);
      KeepsTrans(w, w1, r.world);
      r
  }

  /** A push attempt never changes the pusher when it is a character. */
  lemma PrePushKeepsPusher(w: World, target: int, pusher: int)
    requires ValidItem(w, target) && IsCharacter(w, pusher)
    ensures PrePush(w, target, pusher).world.items[pusher] == w.items[pusher]
  {
    if target == pusher {
      PrePushStuns(w, target, pusher);
    }
  }

  // ---------------------------------------------------------------------
  // What a frame does.

  /** A stunned character, and one its player does not control, does the
      same whatever the stick says: its input is zeroed before use. */
  lemma StunnedIgnoresInput(w: World, id: int, gamePlay: bool, a: Stick, b: Stick, dt: real, fuel: nat)
    requires Consistent(w) && IsCharacter(w, id)
    requires w.items[id].role.mover.state == Stunned || !w.items[id].role.mover.canControl
    ensures CharacterUpdate(w, id, gamePlay, a, dt, fuel) == CharacterUpdate(w, id, gamePlay, b, dt, fuel)
  {
    var m := w.items[id].role.mover;
    assert Turn(id, m, a, dt) == Turn(id, m, b, dt);
  }

  /** With a maximum velocity set, a character whose speed is within it
      stays within it, whatever the frame does; its tuning never changes. */
  lemma VelocityStaysBounded(w: World, id: int, gamePlay: bool, raw: Stick, dt: real, fuel: nat)
    requires Consistent(w) && IsCharacter(w, id)
    requires var m := w.items[id].role.mover;
             m.config.maxVelocity > 0.0 && Abs(m.velocity) <= m.config.maxVelocity
    ensures var m := w.items[id].role.mover;
            var m1 := CharacterUpdate(w, id, gamePlay, raw, dt, fuel).world.items[id].role.mover;
            m1.config == m.config && Abs(m1.velocity) <= m.config.maxVelocity
  {
    var it := w.items[id];
    if gamePlay && it.onTile {
      var t := Turn(id, it.role.mover, raw, dt);
      var inputVal := Parallel(t.mover.direction, t.input.x, t.input.y);
      var w1 := WithMover(w, id, t.mover);
      if Abs(inputVal) > 0.0 {
        var next := GetAdjacentTile(w, it.tileIndex, t.mover.direction);
        if next.Some? {
          assert Abs(Accelerate(t.mover, inputVal)) <= t.mover.config.maxVelocity;
        }
      }
    }
  }

  /** Every tile has a tile on each of its four sides. */
  ghost predicate CompleteGrid(w: World)
  {
    forall k, d {:trigger GetAdjacentTile(w, k, d)} :: k in w.tiles && IsCardinal(d) ==> GetAdjacentTile(w, k, d).Some?
  }

  /** On a grid with no edge, a character facing a movement direction
      never reaches the null reference. */
  lemma NoCrashOnCompleteGrid(w: World, id: int, gamePlay: bool, raw: Stick, dt: real, fuel: nat)
    requires Consistent(w) && IsCharacter(w, id) && CompleteGrid(w)
    requires IsCardinal(w.items[id].role.mover.direction)
    ensures !CharacterUpdate(w, id, gamePlay, raw, dt, fuel).crashed
  {
    var it := w.items[id];
    if gamePlay && it.onTile {
      var t := Turn(id, it.role.mover, raw, dt);
      assert GetAdjacentTile(w, it.tileIndex, t.mover.direction).Some?;
    }
  }

  /** A character facing no movement direction stops at the null reference
      as soon as its player pushes the stick up or down past the dead zone. */
  lemma NonCardinalFacingCrashes(w: World, id: int, raw: Stick, dt: real, fuel: nat)
    requires Consistent(w) && IsCharacter(w, id) && w.items[id].onTile
    requires var m := w.items[id].role.mover;
             !IsCardinal(m.direction) && m.state != Stunned && m.canControl &&
             Abs(PlayerAxis(raw.y)) >= m.config.axisMin
    ensures CharacterUpdate(w, id, true, raw, dt, fuel).crashed
  {
    var m := w.items[id].role.mover;
    QuantizeValues(PlayerAxis(raw.y), m.config.axisMin);
  }

  /** The player holds the stick along the character's facing `d`, a
      movement direction, past the dead zone; the character is neither
      stunned nor out of the player's control. */
  predicate PressesToward(m: Mover, raw: Stick, d: Direction)
  {
    var input := ReadInput(m, raw);
    m.state != Stunned && m.canControl && m.direction == d && IsCardinal(d) &&
    Parallel(d, input.x, input.y) != 0.0 && Toward(IsHorizontal(d), Parallel(d, input.x, input.y)) == d
  }

  /** Pressing toward the facing keeps it, and the frame goes on to the
      tile ahead with the character otherwise as it was. */
  lemma PressesUnfold(w: World, id: int, raw: Stick, dt: real, fuel: nat, n: int)
    requires Consistent(w) && IsCharacter(w, id) && w.items[id].onTile
    requires var m := w.items[id].role.mover;
             PressesToward(m, raw, m.direction) &&
             GetAdjacentTile(w, w.items[id].tileIndex, m.direction) == Some(n)
    ensures var m := w.items[id].role.mover;
            var t := Turn(id, m, raw, dt);
            var input := ReadInput(m, raw);
            t.mover.state == m.state && t.mover.direction == m.direction && t.mover.playerIndex == m.playerIndex &&
            CharacterUpdate(w, id, true, raw, dt, fuel) ==
              Advance(WithMover(w, id, t.mover), id, n, Parallel(m.direction, input.x, input.y), dt, fuel, t.events)
  {
    var m := w.items[id].role.mover;
    var input := ReadInput(m, raw);
    NewFacingRule(m.direction, input.x, input.y);
  }

  lemma InPrefix<T>(x: T, a: seq<T>, b: seq<T>)
    requires x in a && a <= b
    ensures x in b
  {
    var k :| 0 <= k < |a| && a[k] == x;
    assert b[k] == x;
  }

  /** A prop locked in the direction a character presses stops it: no
      item changes place and no tile changes occupant. */
  lemma LockedPropStops(w: World, id: int, raw: Stick, dt: real, fuel: nat, n: int)
    requires Consistent(w) && IsCharacter(w, id) && w.items[id].onTile
    requires var m := w.items[id].role.mover;
             PressesToward(m, raw, m.direction) &&
             GetAdjacentTile(w, w.items[id].tileIndex, m.direction) == Some(n)
    requires var occ := w.tiles[n].movable;
             occ.Some? && w.items[occ.value].role.Prop? &&
             !Unlocked(w.items[occ.value].role.locks, w.items[id].role.mover.direction)
    ensures var r := CharacterUpdate(w, id, true, raw, dt, fuel);
            !r.crashed && r.world.tiles == w.tiles && Placement(w, r.world)
  {
    var m := w.items[id].role.mover;
    var t := Turn(id, m, raw, dt);
    PressesUnfold(w, id, raw, dt, fuel, n);
    var w1 := WithMover(w, id, t.mover);
    var j := w.tiles[n].movable.value;
    assert Attempt(w1, id, n).world == w1;
    assert Blocked(w1, id, n, fuel);
    var input := ReadInput(m, raw);
    var r := Advance(w1, id, n, Parallel(m.direction, input.x, input.y), dt, fuel, t.events);
    PlacementTrans(w, w1, r.world);
  }

  /** A character pressing into a win prop, when not already pushing,
      reports its player's win. */
  lemma WinPropWins(w: World, id: int, raw: Stick, dt: real, fuel: nat, n: int)
    requires Consistent(w) && IsCharacter(w, id) && w.items[id].onTile
    requires var m := w.items[id].role.mover;
             PressesToward(m, raw, m.direction) && m.state != Pushing &&
             GetAdjacentTile(w, w.items[id].tileIndex, m.direction) == Some(n)
    requires var occ := w.tiles[n].movable;
             occ.Some? && w.items[occ.value].role.Prop? && w.items[occ.value].role.data.isWinProp
    ensures Won(w.items[id].role.mover.playerIndex) in CharacterUpdate(w, id, true, raw, dt, fuel).events
  {
    var m := w.items[id].role.mover;
    var t := Turn(id, m, raw, dt);
    PressesUnfold(w, id, raw, dt, fuel, n);
    var w1 := WithMover(w, id, t.mover);
    var j := w.tiles[n].movable.value;
    var a := Attempt(w1, id, n);
    assert a.events == [Won(m.playerIndex)];
    var input := ReadInput(m, raw);
    var r := Advance(w1, id, n, Parallel(m.direction, input.x, input.y), dt, fuel, t.events);
    InPrefix(Won(m.playerIndex), t.events + a.events, r.events);
  }

  /** A character pressing into another character that is neither stunned
      nor invulnerable, when not already pushing, stuns it: the hit is
      reported and the other character ends the frame stunned with its
      stun timer restarted. */
  lemma ContactStuns(w: World, id: int, raw: Stick, dt: real, fuel: nat, n: int)
    requires Consistent(w) && IsCharacter(w, id) && w.items[id].onTile
    requires var m := w.items[id].role.mover;
             PressesToward(m, raw, m.direction) && m.state != Pushing &&
             GetAdjacentTile(w, w.items[id].tileIndex, m.direction) == Some(n)
    requires var occ := w.tiles[n].movable;
             occ.Some? && occ.value != id && w.items[occ.value].role.Character? &&
             var o := w.items[occ.value].role.mover;
             o.state != Stunned && o.stunElapsed >= o.config.stunTime + o.config.stunInvulnerable
    ensures var j := w.tiles[n].movable.value;
            var r := CharacterUpdate(w, id, true, raw, dt, fuel);
            Hit(j, id) in r.events &&
            r.world.items[j].role.Character? &&
            r.world.items[j].role.mover == w.items[j].role.mover.(stunElapsed := 0.0, state := Stunned)
  {
    var m := w.items[id].role.mover;
    var t := Turn(id, m, raw, dt);
    PressesUnfold(w, id, raw, dt, fuel, n);
    var w1 := WithMover(w, id, t.mover);
    var j := w.tiles[n].movable.value;
    var a := Attempt(w1, id, n);
    PrePushStuns(w1, j, id);
    assert a.events == [Hit(j, id), StateChanged(j, Stunned)];
    var input := ReadInput(m, raw);
    var r := Advance(w1, id, n, Parallel(m.direction, input.x, input.y), dt, fuel, t.events);
    InPrefix(Hit(j, id), t.events + a.events, r.events);
  }

  /** The facing `Place` draws when given none, as written:
      `Random.Range(0, 5) + 1` cast to a direction, with the random value
      a parameter. Code 5 names no direction. */
  function DrawnFacingAsWritten(draw: nat): (d: Direction)
    ensures d == FromCode(draw % 5 + 1)
  {
    FromCode(draw % 5 + 1)
  }

  /** The evidently intended draw: one of the four movement directions. */
  function DrawnFacing(draw: nat): (d: Direction)
    ensures IsCardinal(d)
  {
    FromCode(draw % 4 + 1)
  }

  /** The corrected draw agrees with the program's on the four draws
      `Random.Range(0, 5)` shares with `Random.Range(0, 4)`; only the
      program's fifth draw, 4, is not reproduced. */
  lemma DrawnFacingMatchesBelowFour(draw: nat)
    requires draw < 4
    ensures DrawnFacing(draw) == DrawnFacingAsWritten(draw)
    ensures IsCardinal(DrawnFacingAsWritten(draw))
  {
    assert draw % 4 == draw && draw % 5 == draw;
  }

  /** Every movement direction can be drawn, and only those. */
  lemma DrawnFacingCovers(d: Direction)
    ensures IsCardinal(d) <==> exists draw: nat :: DrawnFacing(draw) == d
  {
    if IsCardinal(d) {
      CodeRoundTrip(d);
      assert DrawnFacing((Code(d) - 1) as nat) == d;
    }
  }

  /** The as-written draw can yield a facing that is no movement
      direction. */
  lemma DrawnFacingAsWrittenUnnamed()
    ensures DrawnFacingAsWritten(4) == Unnamed(5)
    ensures !IsCardinal(DrawnFacingAsWritten(4))
  {
  }

  /** The first half of `GridCharacter.Place`: pick the variant and move
      to the tile, resetting the push offset. */
  function Relocate(w: World, id: int, newVariant: int, newTile: int): (r: World)
    requires Consistent(w) && IsCharacter(w, id)
    ensures Consistent(r) && SameKinds(w, r) && IsCharacter(r, id)
    ensures r.tiles.Keys == w.tiles.Keys
    ensures forall k :: k in w.tiles ==> r.tiles[k].data == w.tiles[k].data
    ensures forall i :: 0 <= i < |w.items| && i != id ==> r.items[i] == w.items[i]
    ensures r.items[id].tileIndex == newTile && (r.items[id].onTile <==> newTile in w.tiles)
    ensures newTile in w.tiles ==> r.tiles[newTile].movable == Some(id)
    ensures r.items[id].variants == SetVariant(|w.items[id].variants|, newVariant)
    ensures r.items[id].pushOffset == Zero && r.items[id].pushDirection == None
    ensures r.items[id].role == w.items[id].role
    ensures Exclusive(w) && (newTile in w.tiles ==> w.tiles[newTile].movable.Null? || w.tiles[newTile].movable == Some(id))
            ==> Exclusive(r)
  {
    var it := w.items[id];
    var w1 := w.(items := w.items[id := it.(variants := SetVariant(|it.variants|, newVariant))]);
    assert forall i :: 0 <= i < |w.items| ==> w1.items[i].onTile == w.items[i].onTile && w1.items[i].tileIndex == w.items[i].tileIndex;
    SetTileIndexConsistent(w1, id, newTile, true);
    SetTileIndexEffect(w1, id, newTile, true);
    var r := SetTileIndex(w1, id, newTile, true);
    if Exclusive(w1) && (newTile in w.tiles ==> w.tiles[newTile].movable.Null? || w.tiles[newTile].movable == Some(id)) then
      SetTileIndexExclusive(w1, id, newTile, true); r
    else r
  }

  /** The second half: become ready to be stunned, then face no direction
      and turn to the given facing or else the drawn one. Unless both are
      `None`, the character ends idle and still, with a fresh immovable
      timer, whatever state it was in. */
  function Ready(id: int, m: Mover, newDirection: Direction, drawn: Direction): (r: MoverStep)
    ensures var d := if newDirection == None then drawn else newDirection;
            d != None ==>
              r.mover == m.(direction := d, velocity := 0.0, immovableElapsed := 0.0, state := Idle,
                            stunElapsed := m.config.stunTime + m.config.stunInvulnerable)
  {
    var m1 := m.(stunElapsed := m.config.stunTime + m.config.stunInvulnerable);
    UpdateDirectionEffect(id, m1, None);
    var s1 := UpdateDirection(id, m1, None);
    var d := if newDirection == None then drawn else newDirection;
    UpdateDirectionEffect(id, s1.mover, d);
    var s2 := UpdateDirection(id, s1.mover, d);
    MoverStep(s2.mover, s1.events + s2.events)
  }

  /** `GridCharacter.Place` with the facing used when none is given. */
  function PlaceFacing(w: World, id: int, newVariant: int, newTile: int, newDirection: Direction, drawn: Direction): (r: Reaction)
    requires Consistent(w) && IsCharacter(w, id)
    ensures Consistent(r.world) && SameKinds(w, r.world) && IsCharacter(r.world, id)
  {
    var w2 := Relocate(w, id, newVariant, newTile);
    var s := Ready(id, w2.items[id].role.mover, newDirection, drawn);
    Reaction(WithMover(w2, id, s.mover), s.events)
  }

  /** `Place` as written. */
  function PlaceAsWritten(w: World, id: int, newVariant: int, newTile: int, newDirection: Direction, draw: nat): (r: Reaction)
    requires Consistent(w) && IsCharacter(w, id)
    ensures Consistent(r.world) && IsCharacter(r.world, id)
  {
    PlaceFacing(w, id, newVariant, newTile, newDirection, DrawnFacingAsWritten(draw))
  }

  /** `Place` drawing only movement directions. */
  function Place(w: World, id: int, newVariant: int, newTile: int, newDirection: Direction, draw: nat): (r: Reaction)
    requires Consistent(w) && IsCharacter(w, id)
    ensures Consistent(r.world) && IsCharacter(r.world, id)
  {
    PlaceFacing(w, id, newVariant, newTile, newDirection, DrawnFacing(draw))
  }

  /** A placed character stands on the tile it was given (on a tile
      exactly when the index names one), that tile's occupant, with exactly
      its chosen variant on, no push offset, idle, still, ready to be
      stunned and facing the given direction or else the drawn one; no
      other item and no tile record changes. */
  lemma PlaceFacingEffect(w: World, id: int, newVariant: int, newTile: int, newDirection: Direction, drawn: Direction)
    requires Consistent(w) && IsCharacter(w, id) && drawn != None
    ensures var r := PlaceFacing(w, id, newVariant, newTile, newDirection, drawn).world;
            var it := r.items[id];
            var m := w.items[id].role.mover;
            r.tiles.Keys == w.tiles.Keys &&
            (forall k :: k in w.tiles ==> r.tiles[k].data == w.tiles[k].data) &&
            (forall i :: 0 <= i < |w.items| && i != id ==> r.items[i] == w.items[i]) &&
            it.tileIndex == newTile && (it.onTile <==> newTile in w.tiles) &&
            (newTile in w.tiles ==> r.tiles[newTile].movable == Some(id)) &&
            it.variants == SetVariant(|w.items[id].variants|, newVariant) &&
            it.pushOffset == Zero && it.pushDirection == None &&
            it.role.mover == m.(direction := if newDirection == None then drawn else newDirection,
                                velocity := 0.0, immovableElapsed := 0.0, state := Idle,
                                stunElapsed := m.config.stunTime + m.config.stunInvulnerable)
  {
    var w2 := Relocate(w, id, newVariant, newTile);
  }

  /** Moving onto a free tile keeps every item its tile's occupant. */
  lemma PlaceFacingExclusive(w: World, id: int, newVariant: int, newTile: int, newDirection: Direction, drawn: Direction)
    requires Exclusive(w) && IsCharacter(w, id)
    requires newTile in w.tiles ==> w.tiles[newTile].movable.Null? || w.tiles[newTile].movable == Some(id)
    ensures Exclusive(PlaceFacing(w, id, newVariant, newTile, newDirection, drawn).world)
  {
    var w2 := Relocate(w, id, newVariant, newTile);
  }

  /** As written, a character placed with no given facing and the draw 4
      faces no movement direction, and its first frame with vertical input
      reaches the null reference. */
  lemma PlaceAsWrittenCrashes(w: World, id: int, newVariant: int, newTile: int, raw: Stick, dt: real, fuel: nat)
    requires Consistent(w) && IsCharacter(w, id) && newTile in w.tiles
    requires var m := w.items[id].role.mover;
             m.canControl && Abs(PlayerAxis(raw.y)) >= m.config.axisMin
    ensures var r := PlaceAsWritten(w, id, newVariant, newTile, None, 4).world;
            CharacterUpdate(r, id, true, raw, dt, fuel).crashed
  {
    PlaceFacingEffect(w, id, newVariant, newTile, None, Unnamed(5));
    var r := PlaceAsWritten(w, id, newVariant, newTile, None, 4).world;
    NonCardinalFacingCrashes(r, id, raw, dt, fuel);
  }

  /** The tile records alone decide whether a grid is complete. */
  lemma CompleteGridSameTiles(w: World, r: World)
    requires r.tiles.Keys == w.tiles.Keys
    requires forall k :: k in w.tiles ==> r.tiles[k].data == w.tiles[k].data
    requires CompleteGrid(w)
    ensures CompleteGrid(r)
  {
    forall k, d | k in r.tiles && IsCardinal(d)
      ensures GetAdjacentTile(r, k, d).Some?
    {
      assert GetAdjacentTile(w, k, d).Some?;
    }
  }

  /** With the corrected draw, a placed character always faces a movement
      direction (unless given some other facing), so on a grid with no edge
      its next frame never reaches a null reference. */
  lemma PlaceNeverCrashes(w: World, id: int, newVariant: int, newTile: int, newDirection: Direction, draw: nat,
                          gamePlay: bool, raw: Stick, dt: real, fuel: nat)
    requires Consistent(w) && IsCharacter(w, id) && CompleteGrid(w)
    requires newDirection == None || IsCardinal(newDirection)
    ensures var r := Place(w, id, newVariant, newTile, newDirection, draw).world;
            IsCardinal(r.items[id].role.mover.direction) &&
            !CharacterUpdate(r, id, gamePlay, raw, dt, fuel).crashed
  {
    PlaceFacingEffect(w, id, newVariant, newTile, newDirection, DrawnFacing(draw));
    var r := Place(w, id, newVariant, newTile, newDirection, draw).world;
    CompleteGridSameTiles(w, r);
    NoCrashOnCompleteGrid(r, id, gamePlay, raw, dt, fuel);
  }
}

