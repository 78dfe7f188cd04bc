/** The pure parts of a grid character's tick: reading an input axis,
    turning to face the input, and the two state setters that notify. */
module CharacterRules {
  import opened StageRecords
  import opened GridWorld

  /** `Mathf.Clamp`. */
  function Clamp(x: real, lo: real, hi: real): (r: real)
    requires lo <= hi
    ensures lo <= r <= hi
    ensures lo <= x <= hi ==> r == x
  {
    if x < lo then lo else if x > hi then hi else x
  }

  /** `GameManager.GetPlayerAxis`: the raw stick value clamped to [-1, 1]. */
  function PlayerAxis(raw: real): (r: real)
    ensures -1.0 <= r <= 1.0
  {
    Clamp(raw, -1.0, 1.0)
  }

  /** The dead zone of `GridCharacter.Update`: below `axisMin` an axis
      reads as 0, otherwise as its sign. */
  function Quantize(a: real, axisMin: real): real
  {
    if Abs(a) < axisMin then 0.0 else if a > 0.0 then 1.0 else -1.0
  }

  /** A quantised axis is -1, 0 or 1; it is 0 exactly inside the dead
      zone and otherwise has the sign of the axis (a zero axis counts as
      negative when the dead zone is empty). */
  lemma QuantizeValues(a: real, axisMin: real)
    ensures var q := Quantize(a, axisMin);
            (q == 0.0 || q == 1.0 || q == -1.0) &&
            (q == 0.0 <==> Abs(a) < axisMin) &&
            (q == 1.0 <==> Abs(a) >= axisMin && a > 0.0) &&
            (q == -1.0 <==> Abs(a) >= axisMin && a <= 0.0)
  {
  }

  /** Clamping to [-1, 1] before the dead zone never changes what the
      character reads, as long as the dead zone lies within that range. */
  lemma ClampInvisible(raw: real, axisMin: real)
    requires axisMin <= 1.0
    ensures Quantize(PlayerAxis(raw), axisMin) == Quantize(raw, axisMin)
  {
  }

  /** The input along the facing's axis, and across it. */
  function Parallel(d: Direction, ix: real, iy: real): real
  {
    if IsHorizontal(d) then ix else iy
  }

  function Across(d: Direction, ix: real, iy: real): real
  {
    if IsHorizontal(d) then iy else ix
  }

  /** The movement direction an input value points to on one axis. */
  function Toward(horizontal: bool, v: real): Direction
  {
    if horizontal then (if v > 0.0 then Right else Left)
    else (if v > 0.0 then Up else Down)
  }

  /** Facing resolution (`GridCharacter.cs` lines 182-218): along a
      horizontal facing, no horizontal input but some vertical input turns
      up or down, and horizontal input against the facing reverses it;
      symmetrically for a vertical facing. Any other facing is kept. */
  function NewFacing(d: Direction, ix: real, iy: real): Direction
  {
    if d == Left || d == Right then
      if ix == 0.0 then
        if iy != 0.0 then (if iy > 0.0 then Up else Down) else d
      else if d == Left && ix > 0.0 then Right
      else if d == Right && ix < 0.0 then Left
      else d
    else if d == Up || d == Down then
      if iy == 0.0 then
        if ix != 0.0 then (if ix > 0.0 then Right else Left) else d
      else if d == Down && iy > 0.0 then Up
      else if d == Up && iy < 0.0 then Down
      else d
    else d
  }

  /** What facing resolution amounts to: a character faces the way its
      input along the current axis points; with none, the way its input
      across points; with no input at all it keeps its facing. A facing
      that is not a movement direction never changes. */
  lemma NewFacingRule(d: Direction, ix: real, iy: real)
    ensures !IsCardinal(d) ==> NewFacing(d, ix, iy) == d
    ensures IsCardinal(d) ==>
      NewFacing(d, ix, iy) ==
        if Parallel(d, ix, iy) != 0.0 then Toward(IsHorizontal(d), Parallel(d, ix, iy))
        else if Across(d, ix, iy) != 0.0 then Toward(!IsHorizontal(d), Across(d, ix, iy))
        else d
  {
  }

  /** Once the character has turned, any input at all lies along its
      facing: a character with a movement facing never ignores input. */
  lemma FacingTakesInput(d: Direction, ix: real, iy: real)
    requires IsCardinal(d) && (ix != 0.0 || iy != 0.0)
    ensures IsCardinal(NewFacing(d, ix, iy))
    ensures Parallel(NewFacing(d, ix, iy), ix, iy) != 0.0
  {
    NewFacingRule(d, ix, iy);
  }

  /** A mover after a change, with the notifications it raised. */
  datatype MoverStep = MoverStep(mover: Mover, events: seq<Event>)

  /** `GridCharacter.SetState`: take the state, and notify only when it
      differs from the current one. */
  function SetState(id: int, m: Mover, s: CharacterState): (r: MoverStep)
    ensures r.mover == m.(state := s)
    ensures |r.events| <= 1
    ensures r.events != [] <==> m.state != s
    ensures r.events != [] ==> r.events == [StateChanged(id, s)]
  {
    MoverStep(m.(state := s), if m.state != s then [StateChanged(id, s)] else [])
  }

  /** `GridCharacter.UpdateDirection`: a new facing stops the character,
      restarts the immovable timer and returns it to Idle. */
  function UpdateDirection(id: int, m: Mover, d: Direction): (r: MoverStep)
  {
    if m.direction != d then
      SetState(id, m.(velocity := 0.0, immovableElapsed := 0.0, direction := d), Idle)
    else MoverStep(m, [])
  }

  /** Keeping the facing changes nothing; any other facing is taken with
      zero velocity, a fresh immovable timer and the Idle state, notifying
      only if the character was not already idle. Nothing else about the
      character changes. */
  lemma UpdateDirectionEffect(id: int, m: Mover, d: Direction)
    ensures var r := UpdateDirection(id, m, d);
            r.mover.direction == d &&
            (m.direction == d ==> r == MoverStep(m, [])) &&
            (m.direction != d ==>
               r.mover == m.(velocity := 0.0, immovableElapsed := 0.0, direction := d, state := Idle) &&
               (r.events == [] <==> m.state == Idle)) &&
            r.mover.playerIndex == m.playerIndex && r.mover.config == m.config &&
            r.mover.canControl == m.canControl && r.mover.stunElapsed == m.stunElapsed
  {
  }
}
