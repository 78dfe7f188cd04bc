/** The persisted stage records: a grid of tiles with explicit neighbour
    indices, the props standing on them and the player spawn slots. */
module StageRecords {

  /** A C# reference that may be null. */
  datatype Nullable<T> = Null | Some(value: T)

  /** Facing / movement direction. The five named values carry the codes
      0..4 in declaration order; C# also lets any other integer be cast to
      the enum, which is what `Unnamed` stands for. */
  datatype Direction = None | Down | Up | Left | Right | Unnamed(code: int)

  /** `Unnamed` is reserved for codes that have no name. */
  ghost predicate WellFormedDirection(d: Direction)
  {
    d.Unnamed? ==> d.code < 0 || 4 < d.code
  }

  /** The integer behind a direction value. */
  function Code(d: Direction): int
  {
    match d
    case None => 0
    case Down => 1
    case Up => 2
    case Left => 3
    case Right => 4
    case Unnamed(c) => c
  }

  /** The cast `(Direction)n`. */
  function FromCode(n: int): (d: Direction)
    ensures WellFormedDirection(d)
    ensures Code(d) == n
    ensures 0 <= n <= 4 <==> !d.Unnamed?
  {
    if n == 0 then None
    else if n == 1 then Down
    else if n == 2 then Up
    else if n == 3 then Left
    else if n == 4 then Right
    else Unnamed(n)
  }

  /** Casting a code back gives the same direction: the enum is exactly the
      five named values at codes 0..4, and `None` is the zero value. */
  lemma CodeRoundTrip(d: Direction)
    requires WellFormedDirection(d)
    ensures FromCode(Code(d)) == d
    ensures Code(d) == 0 <==> d == None
  {
  }

  /** One of the four movement directions. */
  predicate IsCardinal(d: Direction)
  {
    d == Down || d == Up || d == Left || d == Right
  }

  /** `GridCharacter.IsDirectionHorizontal`. */
  predicate IsHorizontal(d: Direction)
  {
    d == Left || d == Right
  }

  predicate IsVertical(d: Direction)
  {
    d == Up || d == Down
  }

  /** A tile record: its identity is `tileIndex`, not its position in the
      stage's tile list; the four neighbour indices are stored explicitly. */
  datatype TileData = TileData(
    tileIndex: int,
    tilePrefab: int,
    tilePrefabVariant: int,
    tileDown: int,
    tileUp: int,
    tileRight: int,
    tileLeft: int)

  /** A prop record, located only by `tileIndex`. */
  datatype PropData = PropData(
    tileIndex: int,
    direction: Direction,
    propPrefab: int,
    propPrefabVariant: int,
    isWinProp: bool)

  /** A player spawn slot; the editor writes `Unplaced` to remove a player. */
  datatype PlayerData = PlayerData(tileIndex: int, direction: Direction)

  const Unplaced: int := -1

  /** A whole stage. The prop and player arrays may be null in a stage read
      from disk; the tile array is always present. */
  datatype StageData = StageData(
    stageID: string,
    columns: int,
    rows: int,
    tiles: seq<TileData>,
    props: Nullable<seq<PropData>>,
    players: Nullable<seq<PlayerData>>)

  /** The stored neighbour index of a tile in a direction; `Null` for
      `None` and for any unnamed direction. */
  function Neighbour(t: TileData, d: Direction): (r: Nullable<int>)
    ensures r.Some? <==> IsCardinal(d)
    ensures d == Down ==> r == Some(t.tileDown)
    ensures d == Up ==> r == Some(t.tileUp)
    ensures d == Left ==> r == Some(t.tileLeft)
    ensures d == Right ==> r == Some(t.tileRight)
  {
    match d
    case Down => Some(t.tileDown)
    case Up => Some(t.tileUp)
    case Left => Some(t.tileLeft)
    case Right => Some(t.tileRight)
    case _ => Null
  }
}
