/** The editor's stage validator. It reports the first problem found, in a
    fixed order: the stage, the prop array, each prop in turn (tile out of
    range, then a spawn on the same tile), the win prop, the spawn array,
    each spawn in turn. */
module StageValidation {
  import opened StageRecords
  import opened StageEditing

  /** The validator's verdict; `Valid` stands for the empty message. Spawn
      numbers are positions in the array (the message shows them plus one).
      `NullDereference` is the exception raised when a prop is checked
      against a null spawn array. */
  datatype Verdict =
    | Valid
    | NullStage
    | NullProps
    | InvalidPropTile(tileIndex: int)
    | PropSharesTile(tileIndex: int, player: int)
    | NoWinProp
    | NullPlayers
    | InvalidPlayerTile(player: int)
    | NullDereference

  /** A tile index inside the `columns * rows` grid. */
  predicate InGrid(s: StageData, tileIndex: int)
  {
    0 <= tileIndex < s.rows * s.columns
  }

  /** The first problem among `props`, checked in order as the validator's
      prop loop does, or `Null` when the loop runs to its end. As written,
      the spawn lookup dereferences the spawn array even when it is null. */
  function PropProblem(s: StageData, props: seq<PropData>): Nullable<Verdict>
  {
    if |props| == 0 then Null
    else
      var t := props[0].tileIndex;
      if !InGrid(s, t) then Some(InvalidPropTile(t))
      else if s.players.Null? then Some(NullDereference)
      else if FirstPlayer(s.players.value, t) != -1 then Some(PropSharesTile(t, FirstPlayer(s.players.value, t)))
      else PropProblem(s, props[1..])
  }

  /** Position of the first spawn off the grid, or -1. */
  function FirstStrayPlayer(s: StageData, players: seq<PlayerData>): (r: int)
    ensures -1 <= r < |players|
    ensures r == -1 <==> forall k :: 0 <= k < |players| ==> InGrid(s, players[k].tileIndex)
    ensures r >= 0 ==> !InGrid(s, players[r].tileIndex)
    ensures r >= 0 ==> forall k :: 0 <= k < r ==> InGrid(s, players[k].tileIndex)
  {
    if |players| == 0 then -1
    else if !InGrid(s, players[0].tileIndex) then 0
    else
      var r := FirstStrayPlayer(s, players[1..]);
      if r == -1 then -1 else r + 1
  }

  /** Some prop is the win prop. */
  predicate HasWinProp(props: seq<PropData>)
  {
    exists k :: 0 <= k < |props| && props[k].isWinProp
  }

  /** `CheckStageValid` as written. */
  function CheckStage(stage: Nullable<StageData>): Verdict
  {
    match stage
    case Null => NullStage
    case Some(s) =>
      if s.props.Null? then NullProps
      else
        match PropProblem(s, s.props.value)
        case Some(v) => v
        case Null =>
          if !HasWinProp(s.props.value) then NoWinProp
          else if s.players.Null? then NullPlayers
          else
            var q := FirstStrayPlayer(s, s.players.value);
            if q != -1 then InvalidPlayerTile(q) else Valid
  }

  /** What a valid stage is: both item arrays exist, every prop stands on
      the grid on a tile no spawn uses, at least one prop is a win prop, and
      every spawn is on the grid. */
  predicate ValidStage(stage: Nullable<StageData>)
  {
    stage.Some? &&
    var s := stage.value;
    s.props.Some? && s.players.Some? &&
    (forall k :: 0 <= k < |s.props.value| ==>
       InGrid(s, s.props.value[k].tileIndex) &&
       forall q :: 0 <= q < |s.players.value| ==> s.players.value[q].tileIndex != s.props.value[k].tileIndex) &&
    HasWinProp(s.props.value) &&
    forall q :: 0 <= q < |s.players.value| ==> InGrid(s, s.players.value[q].tileIndex)
  }

  /** With a spawn array, the prop loop finds nothing exactly when every
      prop is on the grid and shares no tile with a spawn. */
  lemma {:induction false} PropProblemNone(s: StageData, props: seq<PropData>)
    requires s.players.Some?
    ensures PropProblem(s, props) == Null <==>
              forall k :: 0 <= k < |props| ==>
                InGrid(s, props[k].tileIndex) &&
                forall q :: 0 <= q < |s.players.value| ==> s.players.value[q].tileIndex != props[k].tileIndex
  {
    if |props| > 0 {
      PropProblemNone(s, props[1..]);
      assert forall k :: 1 <= k < |props| ==> props[k] == props[1..][k - 1];
    }
  }

  /** The validator accepts exactly the valid stages. */
  lemma CheckStageAccepts(stage: Nullable<StageData>)
    ensures CheckStage(stage) == Valid <==> ValidStage(stage)
  {
    if stage.Some? && stage.value.props.Some? {
      PropNeverValid(stage.value, stage.value.props.value);
      if stage.value.players.Some? {
        PropProblemNone(stage.value, stage.value.props.value);
      }
    }
  }

  /** The prop loop never reports success as a verdict. */
  lemma {:induction false} PropNeverValid(s: StageData, props: seq<PropData>)
    ensures PropProblem(s, props) != Some(Valid)
  {
    if |props| > 0 {
      PropNeverValid(s, props[1..]);
    }
  }

  /** `CheckStageValid`: the prop loop, the win check, the spawn loop. */
  method CheckStageValid(stage: Nullable<StageData>) returns (r: Verdict)
    ensures r == CheckStage(stage)
  {
    if stage.Null? {
      return NullStage;
    }
    var s := stage.value;
    if s.props.Null? {
      return NullProps;
    }
    var props := s.props.value;
    var foundWinner := false;
    var k := 0;
    while k < |props|
      invariant 0 <= k <= |props|
      invariant PropProblem(s, props) == PropProblem(s, props[k..])
      invariant foundWinner <==> exists j :: 0 <= j < k && props[j].isWinProp
    {
      assert props[k..][1..] == props[k + 1..];
      var prop := props[k];
      if prop.isWinProp {
        foundWinner := true;
      }
      if prop.tileIndex < 0 || prop.tileIndex >= s.rows * s.columns {
        return InvalidPropTile(prop.tileIndex);
      }
      if s.players.Null? {
        return NullDereference;
      }
      var playerIndex := HasPlayer(s, prop.tileIndex);
      if playerIndex != -1 {
        return PropSharesTile(prop.tileIndex, playerIndex);
      }
      k := k + 1;
    }
    assert props[k..] == [];
    if !foundWinner {
      return NoWinProp;
    }
    if s.players.Null? {
      return NullPlayers;
    }
    var players := s.players.value;
    var p := 0;
    while p < |players|
      invariant 0 <= p <= |players|
      invariant forall j :: 0 <= j < p ==> InGrid(s, players[j].tileIndex)
    {
      var player := players[p];
      if player.tileIndex < 0 || player.tileIndex >= s.rows * s.columns {
        return InvalidPlayerTile(p);
      }
      p := p + 1;
    }
    return Valid;
  }

  // ---------------------------------------------------------------------
  // The null spawn array.

  /** As written, the "players are null" verdict can never be reached: with
      a null spawn array the first in-grid prop dereferences it, no prop at
      all means no win prop, and an off-grid prop is reported first. */
  lemma {:induction false} NullPlayersUnreachable(s: StageData)
    requires s.players.Null?
    ensures CheckStage(Some(s)) != NullPlayers
  {
    if s.props.Some? && PropProblem(s, s.props.value) == Null {
      assert |s.props.value| == 0;
    }
  }

  /** A stage that shows it: one in-grid win prop and a null spawn array. */
  lemma NullPlayersCrashes()
    ensures CheckStage(Some(StageData("s", 10, 10, [], Some([PropData(0, Down, 1, 0, true)]), Null))) == NullDereference
  {
  }

  /** The evidently intended prop loop: the spawn lookup is skipped when
      there is no spawn array, so that its own verdict comes later. */
  function GuardedPropProblem(s: StageData, props: seq<PropData>): Nullable<Verdict>
  {
    if |props| == 0 then Null
    else
      var t := props[0].tileIndex;
      if !InGrid(s, t) then Some(InvalidPropTile(t))
      else if s.players.Some? && FirstPlayer(s.players.value, t) != -1 then
        Some(PropSharesTile(t, FirstPlayer(s.players.value, t)))
      else GuardedPropProblem(s, props[1..])
  }

  /** The validator with the guarded prop loop. */
  function CheckStageGuarded(stage: Nullable<StageData>): Verdict
  {
    match stage
    case Null => NullStage
    case Some(s) =>
      if s.props.Null? then NullProps
      else
        match GuardedPropProblem(s, s.props.value)
        case Some(v) => v
        case Null =>
          if !HasWinProp(s.props.value) then NoWinProp
          else if s.players.Null? then NullPlayers
          else
            var q := FirstStrayPlayer(s, s.players.value);
            if q != -1 then InvalidPlayerTile(q) else Valid
  }

  lemma {:induction false} GuardedPropAgrees(s: StageData, props: seq<PropData>)
    requires s.players.Some?
    ensures GuardedPropProblem(s, props) == PropProblem(s, props)
  {
    if |props| > 0 {
      GuardedPropAgrees(s, props[1..]);
    }
  }

  lemma {:induction false} GuardedPropNoCrash(s: StageData, props: seq<PropData>)
    ensures GuardedPropProblem(s, props) != Some(NullDereference)
    ensures GuardedPropProblem(s, props) != Some(Valid)
    ensures s.players.Null? ==> (GuardedPropProblem(s, props) == Null <==> forall k :: 0 <= k < |props| ==> InGrid(s, props[k].tileIndex))
  {
    if |props| > 0 {
      GuardedPropNoCrash(s, props[1..]);
      assert forall k :: 1 <= k < |props| ==> props[k] == props[1..][k - 1];
    }
  }

  /** The guarded validator never crashes, agrees with the original
      wherever a spawn array exists, accepts exactly the valid stages, and
      reports a null spawn array once the props are in order. */
  lemma CheckStageGuardedCorrect(stage: Nullable<StageData>)
    ensures CheckStageGuarded(stage) != NullDereference
    ensures stage.Some? && stage.value.players.Some? ==> CheckStageGuarded(stage) == CheckStage(stage)
    ensures CheckStageGuarded(stage) == Valid <==> ValidStage(stage)
    ensures stage.Some? && stage.value.players.Null? && stage.value.props.Some? &&
            HasWinProp(stage.value.props.value) &&
            (forall k :: 0 <= k < |stage.value.props.value| ==> InGrid(stage.value, stage.value.props.value[k].tileIndex)) ==>
              CheckStageGuarded(stage) == NullPlayers
  {
    if stage.Some? && stage.value.props.Some? {
      var s := stage.value;
      GuardedPropNoCrash(s, s.props.value);
      if s.players.Some? {
        GuardedPropAgrees(s, s.props.value);
        CheckStageAccepts(stage);
      }
    }
  }
}
