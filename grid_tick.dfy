/** One frame of the running stage: every item's `Update` in item-table
    order (props and obstacles before the characters, in load order), the
    game manager taking each character's win as it is reported, then every
    obstacle's `LateUpdate`. */
module GridTick {
  import opened StageRecords
  import opened GridWorld
  import opened GridPush
  import opened GridMotion
  import opened GridCharacters
  import opened GameFlow

  /** The grid and the game manager, which a frame reads and changes. */
  datatype Scene = Scene(world: World, manager: Manager)

  /** A frame's result: the scene, the notifications in order, and the
      items whose `Update` stopped on a null reference. */
  datatype Ticked = Ticked(scene: Scene, events: seq<Event>, faults: seq<int>)

  /** `GameManager.GetPlayerAxis`' source: a player with no input device
      reads a still stick. */
  function InputOf(inputs: map<int, Stick>, playerIndex: int): Stick
  {
    if playerIndex in inputs then inputs[playerIndex] else Still
  }

  /** What the game manager does with the notifications: a win calls
      `WinStage`; hits and state changes only drive presentation. */
  function ApplyEvents(m: Manager, data: GameData, events: seq<Event>): Manager
  {
    if events == [] then m
    else
      var m1 := ApplyEvents(m, data, events[..|events| - 1]);
      match events[|events| - 1]
      case Won(p) => AfterWinStage(m1, data, p)
      case _ => m1
  }

  /** Either nothing was scored, or exactly one point was scored during
      play and the round is over. */
  predicate AtMostOneWin(m: Manager, r: Manager)
  {
    r == m ||
    (m.gameState == GamePlay && r.gameState == RoundComplete &&
     |r.players| == |m.players| && TotalScore(r.players) == TotalScore(m.players) + 1)
  }

  lemma AtMostOneWinTrans(a: Manager, b: Manager, c: Manager)
    requires AtMostOneWin(a, b) && AtMostOneWin(b, c)
    ensures AtMostOneWin(a, c)
  {
  }

  /** However many wins a batch of notifications reports, the first
      accepted one ends the round, so the total score rises by at most one;
      without a win the manager is untouched. */
  lemma {:induction false} ApplyEventsOnce(m: Manager, data: GameData, events: seq<Event>)
    ensures AtMostOneWin(m, ApplyEvents(m, data, events))
    ensures (forall p :: Won(p) !in events) ==> ApplyEvents(m, data, events) == m
  {
    if events != [] {
      var init := events[..|events| - 1];
      ApplyEventsOnce(m, data, init);
      var m1 := ApplyEvents(m, data, init);
      match events[|events| - 1]
      case Won(p) =>
        WinStageEffect(m1, data, p);
        AtMostOneWinTrans(m, m1, AfterWinStage(m1, data, p));
      case _ =>
    }
  }

  /** Out of play: no notification, the same game manager and tiles, every
      item in its place and every character exactly as it was. */
  predicate Quiet(s: Scene, r: Ticked)
  {
    r.scene.manager == s.manager && r.events == [] && Placement(s.world, r.scene.world) &&
    r.scene.world.tiles == s.world.tiles &&
    forall j :: 0 <= j < |s.world.items| && s.world.items[j].role.Character? ==>
      r.scene.world.items[j] == s.world.items[j]
  }

  lemma QuietTrans(s: Scene, t: Ticked, u: Ticked)
    requires Quiet(s, t) && Quiet(t.scene, u)
    ensures Quiet(s, Ticked(u.scene, t.events + u.events, t.faults + u.faults))
  {
    PlacementTrans(s.world, t.scene.world, u.scene.world);
  }

  /** The `Update` of item `i`: a character's frame, in play only while
      the game is in play, its wins then reaching the game manager; any
      other item's offset slide. */
  function UpdateItem(s: Scene, data: GameData, inputs: map<int, Stick>, dt: real, i: int): (r: Ticked)
    requires Consistent(s.world) && ValidItem(s.world, i)
    ensures Consistent(r.scene.world) && SameShape(s.world, r.scene.world) && Keeps(s.world, r.scene.world)
    ensures AtMostOneWin(s.manager, r.scene.manager)
    ensures s.manager.gameState != GamePlay ==> Quiet(s, r)
  {
    match s.world.items[i].role
    case Character(m) =>
      var o := CharacterUpdate(s.world, i, s.manager.gameState == GamePlay, InputOf(inputs, m.playerIndex), dt, |s.world.tiles|);
      ApplyEventsOnce(s.manager, data, o.events);
      Ticked(Scene(o.world, ApplyEvents(s.manager, data, o.events)), o.events, if o.crashed then [i] else [])
    case _ =>
      ItemUpdateEffect(s.world, i);
      Ticked(Scene(ItemUpdate(s.world, i), s.manager), [], [])
  }

  /** The `Update` phase over the first `n` items. */
  function UpdatePass(s: Scene, data: GameData, inputs: map<int, Stick>, dt: real, n: nat): (r: Ticked)
    requires Consistent(s.world) && n <= |s.world.items|
    ensures Consistent(r.scene.world) && SameShape(s.world, r.scene.world) && Keeps(s.world, r.scene.world)
    ensures AtMostOneWin(s.manager, r.scene.manager)
  {
    if n == 0 then KeepsRefl(s.world); Ticked(s, [], [])
    else
      var t := UpdatePass(s, data, inputs, dt, n - 1);
      var u := UpdateItem(t.scene, data, inputs, dt, n - 1);
      KeepsTrans(s.world, t.scene.world, u.scene.world);
      AtMostOneWinTrans(s.manager, t.scene.manager, u.scene.manager);
      Ticked(u.scene, t.events + u.events, t.faults + u.faults)
  }

  /** The `LateUpdate` of item `i`: an obstacle settles its flags and
      offset; the other kinds only place their transform. */
  function LateItem(w: World, i: int): (r: World)
    requires Consistent(w) && ValidItem(w, i)
    ensures Consistent(r) && Keeps(w, r) && Placement(w, r) && r.tiles == w.tiles
    ensures forall j :: 0 <= j < |w.items| && j != i ==> r.items[j] == w.items[j]
    ensures !w.items[i].role.Obstacle? ==> r == w
    ensures r.items[i].role.Obstacle? && r.items[i].onTile ==> r.items[i].pushDirection == None
  {
    if w.items[i].role.Obstacle? && w.items[i].onTile then
      ObstacleLateUpdateEffect(w, i);
      ObstacleLateUpdate(w, i)
    else w
  }

  /** The `LateUpdate` phase over the first `n` items. */
  function LatePass(w: World, n: nat): (r: World)
    requires Consistent(w) && n <= |w.items|
    ensures Consistent(r) && Keeps(w, r) && Placement(w, r) && r.tiles == w.tiles
    ensures forall j :: 0 <= j < |w.items| && !w.items[j].role.Obstacle? ==> r.items[j] == w.items[j]
  {
    if n == 0 then KeepsRefl(w); w
    else
      var w1 := LatePass(w, n - 1);
      var r := LateItem(w1, n - 1);
      KeepsTrans(w, w1, r);
      PlacementTrans(w, w1, r);
      r
  }

  /** Out of play the `Update` phase over the first `n` items is quiet. */
  lemma {:induction false} UpdatePassQuiet(s: Scene, data: GameData, inputs: map<int, Stick>, dt: real, n: nat)
    requires Consistent(s.world) && n <= |s.world.items| && s.manager.gameState != GamePlay
    ensures Quiet(s, UpdatePass(s, data, inputs, dt, n))
  {
    if n == 0 {
      assert UpdatePass(s, data, inputs, dt, n) == Ticked(s, [], []);
    } else {
      UpdatePassQuiet(s, data, inputs, dt, n - 1);
      var t := UpdatePass(s, data, inputs, dt, n - 1);
      var u := UpdateItem(t.scene, data, inputs, dt, n - 1);
      QuietTrans(s, t, u);
      assert UpdatePass(s, data, inputs, dt, n) == Ticked(u.scene, t.events + u.events, t.faults + u.faults);
    }
  }

  /** A whole frame. The push recursion is bounded by the tile count. */
  function Tick(s: Scene, data: GameData, inputs: map<int, Stick>, dt: real): (r: Ticked)
    requires Consistent(s.world)
    ensures Consistent(r.scene.world) && Keeps(s.world, r.scene.world)
    ensures AtMostOneWin(s.manager, r.scene.manager)
  {
    var t := UpdatePass(s, data, inputs, dt, |s.world.items|);
    var w := LatePass(t.scene.world, |t.scene.world.items|);
    KeepsTrans(s.world, t.scene.world, w);
    Ticked(Scene(w, t.scene.manager), t.events, t.faults)
  }

  /** Out of play a frame reports nothing, leaves the game manager, the
      tiles, every item's place and every character exactly as they were:
      only the props' and obstacles' offsets settle. */
  lemma TickOutOfPlay(s: Scene, data: GameData, inputs: map<int, Stick>, dt: real)
    requires Consistent(s.world) && s.manager.gameState != GamePlay
    ensures var r := Tick(s, data, inputs, dt);
            r.scene.manager == s.manager && r.events == [] &&
            r.scene.world.tiles == s.world.tiles && Placement(s.world, r.scene.world) &&
            (forall j :: 0 <= j < |s.world.items| && s.world.items[j].role.Character? ==>
               r.scene.world.items[j] == s.world.items[j])
  {
    var t := UpdatePass(s, data, inputs, dt, |s.world.items|);
    UpdatePassQuiet(s, data, inputs, dt, |s.world.items|);
    var w := LatePass(t.scene.world, |t.scene.world.items|);
    PlacementTrans(s.world, t.scene.world, w);
  }

  /** After the `LateUpdate` phase over the first `n` items, every one of
      them that is an obstacle on a tile has no push direction left. */
  lemma {:induction false} LatePassSettles(w: World, n: nat)
    requires Consistent(w) && n <= |w.items|
    ensures var r := LatePass(w, n);
            (forall j :: 0 <= j < n && r.items[j].role.Obstacle? && r.items[j].onTile ==> r.items[j].pushDirection == None) &&
            (forall j :: n <= j < |w.items| ==> r.items[j] == w.items[j])
  {
    if n > 0 {
      LatePassSettles(w, n - 1);
      var w1 := LatePass(w, n - 1);
      LateItemSettles(w, w1, n - 1);
      assert LatePass(w, n) == LateItem(w1, n - 1);
    }
  }

  /** The step of `LatePassSettles`: item `k`'s `LateUpdate` extends the
      settled prefix by one and leaves the items after it alone. */
  lemma LateItemSettles(w: World, w1: World, k: nat)
    requires Consistent(w1) && k < |w1.items| == |w.items|
    requires forall j :: 0 <= j < k && w1.items[j].role.Obstacle? && w1.items[j].onTile ==> w1.items[j].pushDirection == None
    requires forall j :: k <= j < |w.items| ==> w1.items[j] == w.items[j]
    ensures var r := LateItem(w1, k);
            (forall j :: 0 <= j < k + 1 && r.items[j].role.Obstacle? && r.items[j].onTile ==> r.items[j].pushDirection == None) &&
            (forall j :: k + 1 <= j < |w.items| ==> r.items[j] == w.items[j])
  {
  }

  /** A frame ends with every obstacle on a tile free of a push direction,
      so the next frame sees only that frame's pushes. */
  lemma TickSettlesObstacles(s: Scene, data: GameData, inputs: map<int, Stick>, dt: real)
    requires Consistent(s.world)
    ensures var r := Tick(s, data, inputs, dt).scene.world;
            forall j :: 0 <= j < |r.items| && r.items[j].role.Obstacle? && r.items[j].onTile ==> r.items[j].pushDirection == None
  {
    var t := UpdatePass(s, data, inputs, dt, |s.world.items|);
    LatePassSettles(t.scene.world, |t.scene.world.items|);
    assert Tick(s, data, inputs, dt).scene.world == LatePass(t.scene.world, |t.scene.world.items|);
  }
}
