/** The game manager's round and roster bookkeeping: the game state, the
    player roster (with colour and character allocation), scoring a round,
    and choosing the next stage among those not yet played. */
module GameFlow {
  import opened StageRecords
  import opened Lists

  /** The game's screens. */
  datatype GameState =
    | Title
    | PlayerSetup
    | GameLoad
    | GameIntro
    | GamePlay
    | GamePause
    | InputFix
    | RoundComplete
    | MatchComplete

  /** A player's entry in the roster; an index of -1 means no colour. */
  datatype GamePlayer = GamePlayer(
    userName: string,
    colorIndex: int,
    characterIndex: int,
    inputIndex: int,
    ready: bool,
    score: int)

  /** A playable stage: its id and the round from which it may be chosen. */
  datatype GameStage = GameStage(stageID: string, stageComplexity: int)

  /** The game's configuration. The colour and character tables matter only
      through their lengths; an empty `debugStage` stands for a null or
      empty string. */
  datatype GameData = GameData(
    debugStage: string,
    maxPlayers: int,
    roundsPerMatch: int,
    colorCount: nat,
    characterCount: nat,
    stages: seq<GameStage>)

  /** The manager's mutable state, as a value. */
  datatype Manager = Manager(
    players: seq<GamePlayer>,
    gameState: GameState,
    currentRound: int,
    currentStage: string,
    playedStages: seq<string>,
    lastWinner: int,
    isEndOfMatch: bool)

  // ---------------------------------------------------------------------
  // The roster.

  /** Players may only be removed on the title and setup screens. */
  predicate CanEditRoster(s: GameState)
  {
    s == Title || s == PlayerSetup
  }

  /** `RemovePlayer`. */
  function AfterRemovePlayer(m: Manager, playerIndex: int): Manager
  {
    if !CanEditRoster(m.gameState) || playerIndex < 0 || playerIndex >= |m.players| then m
    else m.(players := m.players[..playerIndex] + m.players[playerIndex + 1..])
  }

  /** Removing a player is refused outside the title and setup screens and
      for an index off the roster; otherwise exactly that entry goes, the
      others keep their order, and nothing else changes. */
  lemma RemovePlayerEffect(m: Manager, playerIndex: int)
    ensures var r := AfterRemovePlayer(m, playerIndex);
            (r == m <==> !CanEditRoster(m.gameState) || playerIndex < 0 || playerIndex >= |m.players|) &&
            r == m.(players := r.players) &&
            (r != m ==>
               |r.players| == |m.players| - 1 &&
               forall k :: 0 <= k < |r.players| ==> r.players[k] == m.players[if k < playerIndex then k else k + 1])
  {
    var r := AfterRemovePlayer(m, playerIndex);
    if r != m {
      assert |r.players| != |m.players|;
    }
  }

  /** Some player has colour `c`. */
  predicate ColorUsed(players: seq<GamePlayer>, c: int)
  {
    exists k :: 0 <= k < |players| && players[k].colorIndex == c
  }

  /** Taking one more player into account adds that player's colour. */
  lemma ColorUsedNext(players: seq<GamePlayer>, k: int)
    requires 0 <= k < |players|
    ensures forall x :: ColorUsed(players[..k + 1], x) <==> ColorUsed(players[..k], x) || x == players[k].colorIndex
  {
    forall x
      ensures ColorUsed(players[..k + 1], x) <==> ColorUsed(players[..k], x) || x == players[k].colorIndex
    {
      if ColorUsed(players[..k + 1], x) {
        var j :| 0 <= j < k + 1 && players[..k + 1][j].colorIndex == x;
        if j < k {
          assert players[..k][j] == players[j];
        }
      }
      if ColorUsed(players[..k], x) {
        var j :| 0 <= j < k && players[..k][j].colorIndex == x;
        assert players[..k + 1][j] == players[j];
      }
      assert players[..k + 1][k] == players[k];
    }
  }

  /** Strictly ascending. */
  predicate Ascending(s: seq<int>)
  {
    forall i, j :: 0 <= i < j < |s| ==> s[i] < s[j]
  }

  /** Removing one entry of an ascending list keeps it ascending and loses
      exactly that value. */
  lemma RemoveAscending(s: seq<int>, i: int)
    requires Ascending(s) && 0 <= i < |s|
    ensures Ascending(s[..i] + s[i + 1..])
    ensures forall x :: x in s[..i] + s[i + 1..] <==> x in s && x != s[i]
  {
    var r := s[..i] + s[i + 1..];
    assert forall j :: 0 <= j < |r| ==> r[j] == s[if j < i then j else j + 1];
    forall x | x in s && x != s[i]
      ensures x in r
    {
      var j :| 0 <= j < |s| && s[j] == x;
      assert r[if j < i then j else j - 1] == x;
    }
  }

  /** The lowest colour at or above `from` that no player has, or -1. */
  function LowestUnusedColor(colorCount: int, players: seq<GamePlayer>, from: int): (r: int)
    requires 0 <= from
    ensures r == -1 <==> forall c :: from <= c < colorCount ==> ColorUsed(players, c)
    ensures r != -1 ==> from <= r < colorCount && !ColorUsed(players, r)
    ensures r != -1 ==> forall c :: from <= c < r ==> ColorUsed(players, c)
    decreases colorCount - from
  {
    if from >= colorCount then -1
    else if !ColorUsed(players, from) then from
    else LowestUnusedColor(colorCount, players, from + 1)
  }

  /** The colours the players have. */
  function Colors(players: seq<GamePlayer>): (r: set<int>)
    ensures |r| <= |players|
    ensures forall c :: c in r <==> ColorUsed(players, c)
  {
    if |players| == 0 then {}
    else
      var n := |players| - 1;
      assert forall k :: 0 <= k < n ==> players[..n][k] == players[k];
      Colors(players[..n]) + {players[n].colorIndex}
  }

  /** The colour indices of a table of `n` colours. */
  function ColorRange(n: nat): (r: set<int>)
    ensures |r| == n
    ensures forall c :: c in r <==> 0 <= c < n
  {
    if n == 0 then {} else ColorRange(n - 1) + {n - 1}
  }

  /** With fewer players than colours some colour is always free. */
  lemma FreeColorExists(colorCount: nat, players: seq<GamePlayer>)
    requires |players| < colorCount
    ensures LowestUnusedColor(colorCount, players, 0) != -1
  {
    var range, used := ColorRange(colorCount), Colors(players);
    if LowestUnusedColor(colorCount, players, 0) == -1 {
      var extra := used - range;
      var whole := range + extra;
      assert false;
    }
  }

  /** The entry `AddPlayer` creates. */
  function NewPlayer(m: Manager, data: GameData, inputIndex: int): GamePlayer
    requires data.characterCount > 0
  {
    GamePlayer("", LowestUnusedColor(data.colorCount, m.players, 0), |m.players| % data.characterCount, inputIndex, false, 0)
  }

  /** `AddPlayer`: a new entry at the end while the roster is below its
      limit, otherwise nothing (a null player). */
  function AfterAddPlayer(m: Manager, data: GameData, inputIndex: int): (r: (Manager, Nullable<GamePlayer>))
    requires data.characterCount > 0
  {
    if |m.players| < data.maxPlayers then
      var p := NewPlayer(m, data, inputIndex);
      (m.(players := m.players + [p]), Some(p))
    else (m, Null)
  }

  /** Adding a player never takes the roster past its limit; the new
      player has no name, is not ready, has no score, takes the character
      after the previous player's (cycling through the table) and the
      lowest free colour; the earlier players are untouched. */
  lemma AddPlayerEffect(m: Manager, data: GameData, inputIndex: int)
    requires data.characterCount > 0
    ensures var r := AfterAddPlayer(m, data, inputIndex);
            (|m.players| <= data.maxPlayers ==> |r.0.players| <= data.maxPlayers) &&
            (r.1.Null? <==> |m.players| >= data.maxPlayers) &&
            (r.1.Null? ==> r.0 == m) &&
            (r.1.Some? ==>
               r.0 == m.(players := m.players + [r.1.value]) &&
               var p := r.1.value;
               p.userName == "" && !p.ready && p.score == 0 && p.inputIndex == inputIndex &&
               0 <= p.characterIndex < data.characterCount &&
               (|m.players| < data.characterCount ==> p.characterIndex == |m.players|) &&
               (p.colorIndex == -1 || (0 <= p.colorIndex < data.colorCount && !ColorUsed(m.players, p.colorIndex))) &&
               (p.colorIndex == -1 <==> forall c :: 0 <= c < data.colorCount ==> ColorUsed(m.players, c)) &&
               (forall c :: 0 <= c < p.colorIndex ==> ColorUsed(m.players, c)) &&
               (|m.players| < data.colorCount ==> p.colorIndex != -1))
  {
    if |m.players| < data.maxPlayers && |m.players| < data.colorCount {
      FreeColorExists(data.colorCount, m.players);
    }
  }

  /** What the roster keeps: no two players share a colour, colours and
      characters index their tables (-1 being no colour). */
  predicate RosterValid(players: seq<GamePlayer>, data: GameData)
  {
    (forall i, j :: 0 <= i < j < |players| && players[i].colorIndex != -1 ==>
       players[i].colorIndex != players[j].colorIndex) &&
    (forall k :: 0 <= k < |players| ==>
       -1 <= players[k].colorIndex < data.colorCount && 0 <= players[k].characterIndex < data.characterCount)
  }

  lemma AddPlayerKeepsRoster(m: Manager, data: GameData, inputIndex: int)
    requires data.characterCount > 0 && RosterValid(m.players, data)
    ensures RosterValid(AfterAddPlayer(m, data, inputIndex).0.players, data)
  {
    var r := AfterAddPlayer(m, data, inputIndex);
    if r.1.Some? {
      var c := r.1.value.colorIndex;
      var n := |m.players|;
      assert c != -1 ==> forall i :: 0 <= i < n ==> m.players[i].colorIndex != c;
      assert forall i :: 0 <= i < n ==> r.0.players[i] == m.players[i];
    }
  }

  lemma RemovePlayerKeepsRoster(m: Manager, playerIndex: int, data: GameData)
    requires RosterValid(m.players, data)
    ensures RosterValid(AfterRemovePlayer(m, playerIndex).players, data)
  {
    RemovePlayerEffect(m, playerIndex);
    var r := AfterRemovePlayer(m, playerIndex);
    if r != m {
      forall i, j | 0 <= i < j < |r.players| && r.players[i].colorIndex != -1
        ensures r.players[i].colorIndex != r.players[j].colorIndex
      {
        var i', j' := if i < playerIndex then i else i + 1, if j < playerIndex then j else j + 1;
        assert r.players[i] == m.players[i'] && r.players[j] == m.players[j'];
      }
    }
  }

  // ---------------------------------------------------------------------
  // States.

  /** `PerformSetState`: entering the title screen empties the roster and
      clears the current stage. */
  function AfterPerformSetState(m: Manager, newState: GameState): Manager
  {
    if newState == Title then m.(gameState := Title, players := [], currentStage := "")
    else m.(gameState := newState)
  }

  /** `SetState`: loading and the round result are refused here; only
      `PlayStage` and `WinStage` enter them. */
  function AfterSetState(m: Manager, newState: GameState): Manager
  {
    if newState == GameLoad || newState == RoundComplete then m
    else AfterPerformSetState(m, newState)
  }

  /** `SetState` never enters the loading or round-result screen, and
      otherwise enters the state asked for, keeping the roster, round and
      stage records unless it is the title screen. */
  lemma SetStateEffect(m: Manager, newState: GameState)
    ensures var r := AfterSetState(m, newState);
            ((r.gameState == GameLoad || r.gameState == RoundComplete) ==> r == m) &&
            (newState != GameLoad && newState != RoundComplete ==> r.gameState == newState) &&
            (newState == Title ==> r.players == [] && r.currentStage == "") &&
            (newState != Title ==> r.players == m.players && r.currentStage == m.currentStage) &&
            r.currentRound == m.currentRound && r.playedStages == m.playedStages &&
            r.lastWinner == m.lastWinner && r.isEndOfMatch == m.isEndOfMatch
  {
  }

  // ---------------------------------------------------------------------
  // Scoring.

  /** `WinStage`: only during play and for a player on the roster. */
  function AfterWinStage(m: Manager, data: GameData, playerIndex: int): Manager
  {
    if m.gameState != GamePlay || playerIndex < 0 || playerIndex >= |m.players| then m
    else
      var p := m.players[playerIndex].(score := m.players[playerIndex].score + 1);
      AfterPerformSetState(
        m.(players := m.players[playerIndex := p], lastWinner := playerIndex, isEndOfMatch := p.score == data.roundsPerMatch),
        RoundComplete)
  }

  /** The sum of the players' scores. */
  function TotalScore(players: seq<GamePlayer>): int
  {
    if |players| == 0 then 0 else TotalScore(players[..|players| - 1]) + players[|players| - 1].score
  }

  /** Raising one score by one raises the total by one. */
  lemma {:induction false} TotalScoreBump(players: seq<GamePlayer>, i: int, p: GamePlayer)
    requires 0 <= i < |players| && p.score == players[i].score + 1
    ensures TotalScore(players[i := p]) == TotalScore(players) + 1
  {
    var n := |players| - 1;
    if i < n {
      assert players[i := p][..n] == players[..n][i := p];
      TotalScoreBump(players[..n], i, p);
    } else {
      assert players[i := p][..n] == players[..n];
    }
  }

  /** A win during play scores one point for that player alone, records
      the winner, ends the match exactly when the score reaches the rounds
      per match, and moves to the round result; a second win in the same
      round is refused, and the total score rises by exactly one. */
  lemma WinStageEffect(m: Manager, data: GameData, playerIndex: int)
    ensures var r := AfterWinStage(m, data, playerIndex);
            (m.gameState != GamePlay || playerIndex < 0 || playerIndex >= |m.players| ==> r == m) &&
            (m.gameState == GamePlay && 0 <= playerIndex < |m.players| ==>
               |r.players| == |m.players| &&
               r.players[playerIndex].score == m.players[playerIndex].score + 1 &&
               r.players[playerIndex] == m.players[playerIndex].(score := r.players[playerIndex].score) &&
               (forall k :: 0 <= k < |m.players| && k != playerIndex ==> r.players[k] == m.players[k]) &&
               r.lastWinner == playerIndex &&
               (r.isEndOfMatch <==> r.players[playerIndex].score == data.roundsPerMatch) &&
               r.gameState == RoundComplete &&
               TotalScore(r.players) == TotalScore(m.players) + 1 &&
               AfterWinStage(r, data, playerIndex) == r)
  {
    if m.gameState == GamePlay && 0 <= playerIndex < |m.players| {
      TotalScoreBump(m.players, playerIndex, m.players[playerIndex].(score := m.players[playerIndex].score + 1));
    }
  }

  lemma WinStageKeepsRoster(m: Manager, data: GameData, playerIndex: int)
    requires RosterValid(m.players, data)
    ensures RosterValid(AfterWinStage(m, data, playerIndex).players, data)
  {
  }

  // ---------------------------------------------------------------------
  // Stages.

  /** A stage may be chosen: not played yet and not too complex for the
      round. */
  predicate Eligible(stage: GameStage, played: seq<string>, round: int)
  {
    stage.stageID !in played && round >= stage.stageComplexity
  }

  /** `GetUnplayedStages`: the ids of the eligible stages, in table order. */
  function UnplayedStages(stages: seq<GameStage>, played: seq<string>, round: int): seq<string>
  {
    if |stages| == 0 then []
    else
      var n := |stages| - 1;
      UnplayedStages(stages[..n], played, round) + if Eligible(stages[n], played, round) then [stages[n].stageID] else []
  }

  /** The unplayed list holds exactly the ids of eligible stages, so none of
      them has been played. */
  lemma {:induction false} UnplayedStagesMembers(stages: seq<GameStage>, played: seq<string>, round: int)
    ensures |UnplayedStages(stages, played, round)| <= |stages|
    ensures forall id :: id in UnplayedStages(stages, played, round) <==>
              exists k :: 0 <= k < |stages| && stages[k].stageID == id && Eligible(stages[k], played, round)
  {
    if |stages| > 0 {
      var n := |stages| - 1;
      UnplayedStagesMembers(stages[..n], played, round);
      assert forall k :: 0 <= k < n ==> stages[..n][k] == stages[k];
    }
  }

  /** `PlayStage`: record the stage as current and played, clear the
      round's result, and enter loading. */
  function AfterPlayStage(m: Manager, stageID: string): Manager
  {
    AfterPerformSetState(
      m.(currentStage := stageID, lastWinner := -1, isEndOfMatch := false, playedStages := m.playedStages + [stageID]),
      GameLoad)
  }

  /** The stage `PlayRandomStage` picks, with the played list it picks
      from: the debug stage when one is set; otherwise one of the unplayed
      stages (the played list being cleared first when there are none),
      `draw` standing for the random index; the first stage of the table
      when even then none is eligible. Only reached once the first stage
      has been read, so the table is not empty. */
  function PickStage(m: Manager, data: GameData, draw: nat): (Manager, string)
    requires |data.stages| > 0
  {
    if data.debugStage != "" then (m, data.debugStage)
    else
      var unplayed := UnplayedStages(data.stages, m.playedStages, m.currentRound);
      var m1 := if |unplayed| == 0 then m.(playedStages := []) else m;
      var candidates := UnplayedStages(data.stages, m1.playedStages, m1.currentRound);
      (m1, if |candidates| >= 1 then candidates[draw % |candidates|] else data.stages[0].stageID)
  }

  /** `PlayRandomStage`: `Null` when it throws, which it does before any
      change when the stage table is empty, since it starts by reading the
      table's first stage. */
  function AfterPlayRandomStage(m: Manager, data: GameData, draw: nat): Nullable<Manager>
  {
    if |data.stages| == 0 then Null
    else
      var picked := PickStage(m, data, draw);
      Some(AfterPlayStage(picked.0, picked.1))
  }

  /** Stage choice: an empty stage table throws; otherwise the debug stage
      always wins; otherwise, while some stage allowed in this round is
      unplayed, one of those is chosen and appended to the played list;
      once all have been played the list starts over with the chosen one;
      with no stage allowed at all the first stage is played. The round's
      result is cleared and loading begins. */
  lemma PlayRandomStageEffect(m: Manager, data: GameData, draw: nat)
    ensures AfterPlayRandomStage(m, data, draw).Null? <==> |data.stages| == 0
    ensures |data.stages| > 0 ==>
            var r := AfterPlayRandomStage(m, data, draw).value;
            var unplayed := UnplayedStages(data.stages, m.playedStages, m.currentRound);
            r.gameState == GameLoad && r.lastWinner == -1 && !r.isEndOfMatch &&
            r.players == m.players && r.currentRound == m.currentRound &&
            (data.debugStage != "" ==> r.currentStage == data.debugStage && r.playedStages == m.playedStages + [r.currentStage]) &&
            (data.debugStage == "" && |unplayed| > 0 ==>
               r.currentStage in unplayed && r.currentStage !in m.playedStages &&
               r.playedStages == m.playedStages + [r.currentStage] &&
               (exists k :: 0 <= k < |data.stages| && data.stages[k].stageID == r.currentStage &&
                  data.stages[k].stageComplexity <= m.currentRound)) &&
            (data.debugStage == "" && |unplayed| == 0 ==> r.playedStages == [r.currentStage]) &&
            (data.debugStage == "" && (forall k :: 0 <= k < |data.stages| ==> data.stages[k].stageComplexity > m.currentRound) ==>
               r.currentStage == data.stages[0].stageID)
  {
    if |data.stages| > 0 {
      var unplayed := UnplayedStages(data.stages, m.playedStages, m.currentRound);
      UnplayedStagesMembers(data.stages, m.playedStages, m.currentRound);
      UnplayedStagesMembers(data.stages, [], m.currentRound);
      if data.debugStage == "" && |unplayed| > 0 {
        assert unplayed[draw % |unplayed|] in unplayed;
      }
      var again := UnplayedStages(data.stages, [], m.currentRound);
      if data.debugStage == "" && |again| > 0 {
        assert again[0] in again;
      }
    }
  }

  /** Every unplayed stage is the one some draw picks (so the table is not
      empty and the call does not throw). */
  lemma EveryUnplayedStageDrawable(m: Manager, data: GameData, k: nat)
    requires data.debugStage == ""
    requires k < |UnplayedStages(data.stages, m.playedStages, m.currentRound)|
    ensures var r := AfterPlayRandomStage(m, data, k);
            r.Some? && r.value.currentStage == UnplayedStages(data.stages, m.playedStages, m.currentRound)[k]
  {
    var unplayed := UnplayedStages(data.stages, m.playedStages, m.currentRound);
    assert UnplayedStages([], m.playedStages, m.currentRound) == [];
    assert k % |unplayed| == k;
    assert PickStage(m, data, k) == (m, unplayed[k]);
  }

  /** Every player's entry with its score reset. */
  function ZeroScores(players: seq<GamePlayer>): (r: seq<GamePlayer>)
    ensures |r| == |players|
    ensures forall k :: 0 <= k < |r| ==> r[k] == players[k].(score := 0)
  {
    seq(|players|, k requires 0 <= k < |players| => players[k].(score := 0))
  }

  /** The first half of `PlayNewMatch`, done before the stage is chosen:
      back to round zero with no stage played and every score reset. */
  function NewMatchReset(m: Manager): Manager
  {
    m.(currentRound := 0, playedStages := [], players := ZeroScores(m.players))
  }

  /** `PlayNewMatch`: the reset, then a random stage (which may throw). */
  function AfterPlayNewMatch(m: Manager, data: GameData, draw: nat): Nullable<Manager>
  {
    AfterPlayRandomStage(NewMatchReset(m), data, draw)
  }

  /** `PlayNewRound`: the next round, then a random stage (which may throw). */
  function AfterPlayNewRound(m: Manager, data: GameData, draw: nat): Nullable<Manager>
  {
    AfterPlayRandomStage(m.(currentRound := m.currentRound + 1), data, draw)
  }

  /** A new match throws exactly on an empty stage table, after the reset;
      otherwise it starts at round zero with every score at zero, the
      roster otherwise kept, and only the chosen stage played. */
  lemma PlayNewMatchEffect(m: Manager, data: GameData, draw: nat)
    ensures AfterPlayNewMatch(m, data, draw).Null? <==> |data.stages| == 0
    ensures var z := NewMatchReset(m);
            z.currentRound == 0 && z.playedStages == [] && TotalScore(z.players) == 0 &&
            z.gameState == m.gameState && z.currentStage == m.currentStage
    ensures |data.stages| > 0 ==>
            var r := AfterPlayNewMatch(m, data, draw).value;
            r.currentRound == 0 && r.playedStages == [r.currentStage] &&
            TotalScore(r.players) == 0 && |r.players| == |m.players| &&
            (forall k :: 0 <= k < |r.players| ==> r.players[k] == m.players[k].(score := 0)) &&
            r.gameState == GameLoad && r.lastWinner == -1 && !r.isEndOfMatch
  {
    PlayRandomStageEffect(NewMatchReset(m), data, draw);
    TotalScoreZero(ZeroScores(m.players));
  }

  lemma {:induction false} TotalScoreZero(players: seq<GamePlayer>)
    requires forall k :: 0 <= k < |players| ==> players[k].score == 0
    ensures TotalScore(players) == 0
  {
    if |players| > 0 {
      TotalScoreZero(players[..|players| - 1]);
    }
  }

  /** A new round throws exactly on an empty stage table, after counting
      the round; otherwise it counts one more round and keeps the roster
      and scores. */
  lemma PlayNewRoundEffect(m: Manager, data: GameData, draw: nat)
    ensures AfterPlayNewRound(m, data, draw).Null? <==> |data.stages| == 0
    ensures |data.stages| > 0 ==>
            var r := AfterPlayNewRound(m, data, draw).value;
            r.currentRound == m.currentRound + 1 && r.players == m.players &&
            r.gameState == GameLoad && r.lastWinner == -1 && !r.isEndOfMatch
  {
    PlayRandomStageEffect(m.(currentRound := m.currentRound + 1), data, draw);
  }

  /** Changing screens and starting matches or rounds keep the roster's
      colours and characters as they were (or empty it), whether or not
      the stage choice throws. */
  lemma FlowKeepsRoster(m: Manager, data: GameData, newState: GameState, draw: nat)
    requires RosterValid(m.players, data)
    ensures RosterValid(AfterSetState(m, newState).players, data)
    ensures RosterValid(NewMatchReset(m).players, data)
    ensures AfterPlayNewMatch(m, data, draw).Some? ==> RosterValid(AfterPlayNewMatch(m, data, draw).value.players, data)
    ensures AfterPlayNewRound(m, data, draw).Some? ==> RosterValid(AfterPlayNewRound(m, data, draw).value.players, data)
  {
    PlayNewMatchEffect(m, data, draw);
    PlayNewRoundEffect(m, data, draw);
  }

  // ---------------------------------------------------------------------
  // The manager object.

  /** The game manager: its fields are updated in place by its methods. */
  class GameManager {
    const data: GameData
    var players: seq<GamePlayer>
    var gameState: GameState
    var currentRound: int
    var currentStage: string
    var playedStages: seq<string>
    var lastWinner: int
    var isEndOfMatch: bool

    /** The fields as a value. */
    function State(): Manager
      reads this
    {
      Manager(players, gameState, currentRound, currentStage, playedStages, lastWinner, isEndOfMatch)
    }

    /** A fresh manager: no players, on the title screen, every counter at
        its default. */
    constructor (data: GameData)
      ensures this.data == data
      ensures State() == Manager([], Title, 0, "", [], 0, false)
    {
      this.data := data;
      players, gameState, currentRound, currentStage := [], Title, 0, "";
      playedStages, lastWinner, isEndOfMatch := [], 0, false;
    }

    method RemovePlayer(playerIndex: int)
      modifies this
      ensures State() == AfterRemovePlayer(old(State()), playerIndex)
    {
      if gameState != Title && gameState != PlayerSetup {
        return;
      }
      if playerIndex < 0 || playerIndex >= |players| {
        return;
      }
      players := players[..playerIndex] + players[playerIndex + 1..];
    }

    /** `GetUnusedColor`: start from every colour, strike out each
        player's, and take the first left. */
    method GetUnusedColor() returns (r: int)
      ensures r == LowestUnusedColor(data.colorCount, players, 0)
    {
      var available: seq<int> := [];
      var c := 0;
      while c < data.colorCount
        invariant 0 <= c <= data.colorCount
        invariant |available| == c && forall j :: 0 <= j < c ==> available[j] == j
      {
        available := available + [c];
        c := c + 1;
      }
      forall x | 0 <= x < data.colorCount
        ensures x in available
      {
        assert available[x] == x;
      }
      assert forall x :: !ColorUsed(players[..0], x);
      var k := 0;
      while k < |players|
        invariant 0 <= k <= |players|
        invariant Ascending(available)
        invariant forall x :: x in available <==> 0 <= x < data.colorCount && !ColorUsed(players[..k], x)
      {
        var color := players[k].colorIndex;
        ColorUsedNext(players, k);
        ghost var before := available;
        if color in available {
          var i := IndexOf(available, color);
          RemoveAscending(available, i);
          available := available[..i] + available[i + 1..];
        }
        forall x
          ensures x in available <==> 0 <= x < data.colorCount && !ColorUsed(players[..k + 1], x)
        {
          if x == color {
            assert ColorUsed(players[..k + 1], x);
          } else {
            assert x in available <==> x in before;
          }
        }
        k := k + 1;
      }
      assert players[..k] == players;
      ghost var lowest := LowestUnusedColor(data.colorCount, players, 0);
      if |available| > 0 {
        r := available[0];
        assert available[0] in available;
        assert forall x :: 0 <= x < r ==> x !in available;
        assert lowest != -1 && lowest <= r;
      } else {
        r := -1;
        assert forall x :: 0 <= x < data.colorCount ==> x !in available;
      }
    }

    method AddPlayer(inputIndex: int) returns (player: Nullable<GamePlayer>)
      requires data.characterCount > 0
      modifies this
      ensures (State(), player) == AfterAddPlayer(old(State()), data, inputIndex)
    {
      if |players| < data.maxPlayers {
        var colorIndex := GetUnusedColor();
        var p := GamePlayer("", colorIndex, |players| % data.characterCount, inputIndex, false, 0);
        players := players + [p];
        return Some(p);
      }
      return Null;
    }

    method PerformSetState(newState: GameState)
      modifies this
      ensures State() == AfterPerformSetState(old(State()), newState)
    {
      gameState := newState;
      if gameState == Title {
        while |players| > 0
          invariant State() == old(State()).(gameState := Title, players := players)
          decreases |players|
        {
          RemovePlayer(0);
        }
        currentStage := "";
      }
    }

    method SetState(newState: GameState)
      modifies this
      ensures State() == AfterSetState(old(State()), newState)
    {
      if newState == GameLoad {
        return;
      }
      if newState == RoundComplete {
        return;
      }
      PerformSetState(newState);
    }

    method WinStage(playerIndex: int)
      modifies this
      ensures State() == AfterWinStage(old(State()), data, playerIndex)
    {
      if gameState != GamePlay {
        return;
      }
      if playerIndex < 0 || playerIndex >= |players| {
        return;
      }
      lastWinner := playerIndex;
      var p := players[playerIndex].(score := players[playerIndex].score + 1);
      players := players[playerIndex := p];
      isEndOfMatch := p.score == data.roundsPerMatch;
      PerformSetState(RoundComplete);
    }

    method GetUnplayedStages() returns (possible: seq<string>)
      ensures possible == UnplayedStages(data.stages, playedStages, currentRound)
    {
      possible := [];
      var k := 0;
      while k < |data.stages|
        invariant 0 <= k <= |data.stages|
        invariant possible == UnplayedStages(data.stages[..k], playedStages, currentRound)
      {
        assert data.stages[..k + 1][..k] == data.stages[..k];
        var stage := data.stages[k];
        if stage.stageID !in playedStages && currentRound >= stage.stageComplexity {
          possible := possible + [stage.stageID];
        }
        k := k + 1;
      }
      assert data.stages[..k] == data.stages;
    }

    method PlayStage(stageID: string)
      modifies this
      ensures State() == AfterPlayStage(old(State()), stageID)
    {
      currentStage := stageID;
      lastWinner := -1;
      isEndOfMatch := false;
      playedStages := playedStages + [currentStage];
      PerformSetState(GameLoad);
    }

    /** `PlayRandomStage`, with the random index as `draw`; `ok` is false
      when it throws on an empty stage table, before any change. */
    method PlayRandomStage(draw: nat) returns (ok: bool)
      modifies this
      ensures ok <==> AfterPlayRandomStage(old(State()), data, draw).Some?
      ensures ok ==> State() == AfterPlayRandomStage(old(State()), data, draw).value
      ensures !ok ==> State() == old(State())
    {
      if |data.stages| == 0 {
        return false;
      }
      var stageID := data.stages[0].stageID;
      if data.debugStage != "" {
        stageID := data.debugStage;
      } else {
        var unplayed := GetUnplayedStages();
        if |unplayed| == 0 {
          playedStages := [];
          unplayed := GetUnplayedStages();
        }
        if |unplayed| >= 1 {
          stageID := unplayed[draw % |unplayed|];
        }
      }
      PlayStage(stageID);
      ok := true;
    }

    /** `PlayNewMatch`; when the stage choice throws, the reset has
        already happened. */
    method PlayNewMatch(draw: nat) returns (ok: bool)
      modifies this
      ensures ok <==> AfterPlayNewMatch(old(State()), data, draw).Some?
      ensures ok ==> State() == AfterPlayNewMatch(old(State()), data, draw).value
      ensures !ok ==> State() == NewMatchReset(old(State()))
    {
      currentRound := 0;
      playedStages := [];
      var k := 0;
      while k < |players|
        invariant 0 <= k <= |players| == |old(players)|
        invariant forall j :: 0 <= j < |players| ==> players[j] == if j < k then old(players)[j].(score := 0) else old(players)[j]
        invariant State() == old(State()).(currentRound := 0, playedStages := [], players := players)
      {
        players := players[k := players[k].(score := 0)];
        k := k + 1;
      }
      ok := PlayRandomStage(draw);
    }

    /** `PlayNewRound`; when the stage choice throws, the round has
        already been counted. */
    method PlayNewRound(draw: nat) returns (ok: bool)
      modifies this
      ensures ok <==> AfterPlayNewRound(old(State()), data, draw).Some?
      ensures ok ==> State() == AfterPlayNewRound(old(State()), data, draw).value
      ensures !ok ==> State() == old(State()).(currentRound := old(currentRound) + 1)
    {
      currentRound := currentRound + 1;
      ok := PlayRandomStage(draw);
    }
  }
}
