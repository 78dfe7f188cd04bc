/** Push resolution on the live grid: whether the items ahead of a pusher
    can give way (`CanPush`, per kind of item), the recursive chain push
    with its cell commit (`Push`), and what a push attempt triggers in the
    item that is pushed (`PrePush`: the win, the obstacle flag, the stun). */
module GridPush {
  import opened StageRecords
  import opened GridWorld
  import opened CharacterRules

  /** Half a tile: an offset beyond it moves the item into the next tile. */
  const PushMax: real := 0.5

  /** An item the push code may act on: it stands on a tile of a grid whose
      links hold. */
  predicate Pushable(w: World, id: int)
  {
    Consistent(w) && ValidItem(w, id) && w.items[id].onTile
  }

  /** The lock switch of `GridProp.CanPush`: a movement direction whose lock
      is off; `None` and unnamed directions are never unlocked. */
  predicate Unlocked(locks: Locks, d: Direction)
  {
    match d
    case Down => !locks.down
    case Up => !locks.up
    case Left => !locks.left
    case Right => !locks.right
    case _ => false
  }

  /** `CanPush` as each kind of item overrides it: a character only while
      stunned, a prop only in an unlocked direction, an obstacle under its
      locks only once a character has touched it; then the chain check.
      `fuel` bounds the recursion along the chain. */
  function CanPush(w: World, id: int, d: Direction, start: int, fuel: nat): bool
    requires Pushable(w, id)
    decreases fuel, 1
  {
    match w.items[id].role
    case Character(m) => m.state == Stunned && ChainCanPush(w, id, d, start, fuel)
    case Prop(_, locks) => Unlocked(locks, d) && ChainCanPush(w, id, d, start, fuel)
    case Obstacle(_, locks, pushByChar, _) =>
      if pushByChar then Unlocked(locks, d) && ChainCanPush(w, id, d, start, fuel)
      else ChainCanPush(w, id, d, start, fuel)
  }

  /** The base `GridItem.CanPush`: there must be a next tile, it must not be
      the start tile, and it must be empty or hold an item that can itself
      be pushed. */
  function ChainCanPush(w: World, id: int, d: Direction, start: int, fuel: nat): bool
    requires Pushable(w, id)
    decreases fuel, 0
  {
    var next := GetAdjacentTile(w, w.items[id].tileIndex, d);
    if next.Null? then false
    else if w.tiles[next.value].data.tileIndex == start then false
    else match w.tiles[next.value].movable
      case Null => true
      case Some(j) => fuel > 0 && CanPush(w, j, d, start, fuel - 1)
  }

  /** What a push needs of the item pushed: a movement direction, a next
      tile that is not the start tile, and the gate of its kind — a stunned
      character, an unlocked prop, an obstacle that is unlocked or was not
      touched by a character. */
  lemma CanPushNeeds(w: World, id: int, d: Direction, start: int, fuel: nat)
    requires Pushable(w, id) && CanPush(w, id, d, start, fuel)
    ensures IsCardinal(d)
    ensures var next := GetAdjacentTile(w, w.items[id].tileIndex, d);
            next.Some? && next.value != start
    ensures match w.items[id].role
            case Character(m) => m.state == Stunned
            case Prop(_, locks) => Unlocked(locks, d)
            case Obstacle(_, locks, pushByChar, _) => pushByChar ==> Unlocked(locks, d)
  {
    assert ChainCanPush(w, id, d, start, fuel);
  }

  /** An obstacle no character has touched ignores its locks: it gives way
      exactly when the chain ahead does. */
  lemma ObstacleIgnoresLocksUntouched(w: World, id: int, d: Direction, start: int, fuel: nat)
    requires Pushable(w, id) && w.items[id].role.Obstacle? && !w.items[id].role.pushByChar
    ensures CanPush(w, id, d, start, fuel) == ChainCanPush(w, id, d, start, fuel)
  {
  }

  /** The recursion bound only ever cuts a check short: an answer of true
      stays true with more fuel. */
  lemma {:induction false} ChainCanPushMonotone(w: World, id: int, d: Direction, start: int, fuel: nat, more: nat)
    requires Pushable(w, id) && fuel <= more && ChainCanPush(w, id, d, start, fuel)
    ensures ChainCanPush(w, id, d, start, more)
    decreases fuel
  {
    var next := GetAdjacentTile(w, w.items[id].tileIndex, d);
    var n := next.value;
    if w.tiles[n].movable.Some? {
      var j := w.tiles[n].movable.value;
      assert CanPush(w, j, d, start, fuel - 1);
      ChainCanPushMonotone(w, j, d, start, fuel - 1, more - 1);
      assert CanPush(w, j, d, start, more - 1);
    }
  }

  lemma CanPushMonotone(w: World, id: int, d: Direction, start: int, fuel: nat, more: nat)
    requires Pushable(w, id) && fuel <= more && CanPush(w, id, d, start, fuel)
    ensures CanPush(w, id, d, start, more)
  {
    ChainCanPushMonotone(w, id, d, start, fuel, more);
  }

  /** Sets the offset component along the direction's axis. */
  function WithAxis(v: Vec, d: Direction, offset: real): (r: Vec)
    ensures IsHorizontal(d) ==> r == Vec(offset, v.y)
    ensures IsVertical(d) ==> r == Vec(v.x, offset)
    ensures !IsCardinal(d) ==> r == v
  {
    if IsHorizontal(d) then v.(x := offset)
    else if IsVertical(d) then v.(y := offset)
    else v
  }

  /** The offset component along the direction's axis. */
  function AxisOf(v: Vec, d: Direction): real
  {
    if IsHorizontal(d) then v.x else if IsVertical(d) then v.y else 0.0
  }

  /** The offset after a cell commit: one tile (twice `PushMax`) toward
      zero. */
  function Commit(offset: real): (r: real)
    requires Abs(offset) > PushMax
    ensures Abs(r) < Abs(offset)
    ensures (offset > 0.0 ==> r == offset - 1.0) && (offset < 0.0 ==> r == offset + 1.0)
  {
    offset + (if offset > 0.0 then -1.0 else 1.0) * PushMax * 2.0
  }

  /** The tail of `Push`: record the push direction and the axis offset. */
  function SetPushed(w: World, id: int, d: Direction, offset: real): World
    requires ValidItem(w, id)
  {
    var it := w.items[id];
    w.(items := w.items[id := it.(pushDirection := d, pushOffset := WithAxis(it.pushOffset, d, offset))])
  }

  /** What no push changes: the tile dictionary's keys, records and
      variants, the item table's length, and each item's kind, own fields
      and variants. */
  predicate Frame(w: World, r: World)
  {
    r.tiles.Keys == w.tiles.Keys && |r.items| == |w.items| &&
    (forall k :: k in w.tiles ==> r.tiles[k].data == w.tiles[k].data && r.tiles[k].variants == w.tiles[k].variants) &&
    (forall i :: 0 <= i < |w.items| ==> r.items[i].role == w.items[i].role && r.items[i].variants == w.items[i].variants)
  }

  /** The part of `Frame` the push recursion itself relies on. */
  predicate SameShape(w: World, r: World)
  {
    r.tiles.Keys == w.tiles.Keys && |r.items| == |w.items|
  }

  lemma FrameTrans(a: World, b: World, c: World)
    requires Frame(a, b) && Frame(b, c)
    ensures Frame(a, c)
  {
  }

  lemma SetPushedKeeps(w: World, id: int, d: Direction, offset: real)
    requires Consistent(w) && ValidItem(w, id)
    ensures var r := SetPushed(w, id, d, offset);
            Consistent(r) && Frame(w, r) && (Exclusive(w) ==> Exclusive(r))
  {
  }

  lemma SetTileIndexFrame(w: World, id: int, newIndex: int)
    requires Consistent(w) && ValidItem(w, id)
    ensures var r := SetTileIndex(w, id, newIndex, false);
            Consistent(r) && Frame(w, r)
  {
    SetTileIndexEffect(w, id, newIndex, false);
    SetTileIndexConsistent(w, id, newIndex, false);
  }

  /** The second half of `GridItem.Push`, once the chain ahead has been
      pushed: move into the next tile `n` if the offset passed half a tile
      and `n` is free — the offset shifting one tile toward zero — or hold
      at zero offset if `n` is still taken; then record the direction and
      the axis offset. */
  function PushTail(w: World, id: int, n: int, d: Direction, offset: real): (r: World)
    requires Consistent(w) && ValidItem(w, id) && n in w.tiles
    ensures Consistent(r) && SameShape(w, r)
  {
    var over := Abs(offset) > PushMax;
    var commit := over && w.tiles[n].movable.Null?;
    SetTileIndexFrame(w, id, w.tiles[n].data.tileIndex);
    var w2 := if commit then SetTileIndex(w, id, w.tiles[n].data.tileIndex, false) else w;
    var off := if commit then Commit(offset) else if over then 0.0 else offset;
    SetPushedKeeps(w2, id, d, off);
    SetPushed(w2, id, d, off)
  }

  /** `GridItem.Push`: nothing without a next tile; otherwise push the next
      occupant first (when allowed), then finish as `PushTail`. `fuel`
      bounds the recursion along the chain. The grid's links and
      the tile keys and item count are kept (`PushFrame` shows the rest of
      `Frame` is too). */
  function Push(w: World, id: int, d: Direction, offset: real, allowPush: bool, fuel: nat): (r: World)
    requires Pushable(w, id)
    ensures Consistent(r) && SameShape(w, r)
    decreases fuel
  {
    var next := GetAdjacentTile(w, w.items[id].tileIndex, d);
    if next.Null? then w
    else
      var n := next.value;
      var w1 := if allowPush && w.tiles[n].movable.Some? && fuel > 0
                then Push(w, w.tiles[n].movable.value, d, offset, true, fuel - 1)
                else w;
      PushTail(w1, id, n, d, offset)
  }

  /** One unfolding of `Push` when there is a next tile `n`: the tail
      applied to the world after the chain ahead was pushed, if it was. */
  lemma PushUnfold(w: World, id: int, d: Direction, offset: real, allowPush: bool, fuel: nat, n: int, w1: World)
    requires Pushable(w, id) && GetAdjacentTile(w, w.items[id].tileIndex, d) == Some(n)
    requires w1 == if allowPush && w.tiles[n].movable.Some? && fuel > 0
                   then Push(w, w.tiles[n].movable.value, d, offset, true, fuel - 1)
                   else w
    ensures Push(w, id, d, offset, allowPush, fuel) == PushTail(w1, id, n, d, offset)
  {
  }

  lemma PushTailFrame(w: World, id: int, n: int, d: Direction, offset: real)
    requires Consistent(w) && ValidItem(w, id) && n in w.tiles
    ensures Frame(w, PushTail(w, id, n, d, offset))
  {
    var over := Abs(offset) > PushMax;
    var commit := over && w.tiles[n].movable.Null?;
    SetTileIndexFrame(w, id, w.tiles[n].data.tileIndex);
    var w2 := if commit then SetTileIndex(w, id, w.tiles[n].data.tileIndex, false) else w;
    var off := if commit then Commit(offset) else if over then 0.0 else offset;
    SetPushedKeeps(w2, id, d, off);
  }

  /** A push changes no tile record, tile variant, item kind or item
      variant: only occupants, tile indices, offsets and push directions
      move. */
  lemma {:induction false} PushFrame(w: World, id: int, d: Direction, offset: real, allowPush: bool, fuel: nat, r: World)
    requires Pushable(w, id) && r == Push(w, id, d, offset, allowPush, fuel)
    ensures Frame(w, r)
    decreases fuel
  {
    var next := GetAdjacentTile(w, w.items[id].tileIndex, d);
    if next.Some? {
      var n := next.value;
      if allowPush && w.tiles[n].movable.Some? && fuel > 0 {
        var w1 := Push(w, w.tiles[n].movable.value, d, offset, true, fuel - 1);
        PushFrame(w, w.tiles[n].movable.value, d, offset, true, fuel - 1, w1);
        PushTailFrame(w1, id, n, d, offset);
        PushUnfold(w, id, d, offset, allowPush, fuel, n, w1);
        FrameTrans(w, w1, r);
      } else {
        PushTailFrame(w, id, n, d, offset);
        PushUnfold(w, id, d, offset, allowPush, fuel, n, w);
      }
    }
  }

  /** The tail moves an item only into a free tile, so it keeps one item
      per tile. */
  lemma PushTailExclusive(w: World, id: int, n: int, d: Direction, offset: real)
    requires Exclusive(w) && ValidItem(w, id) && n in w.tiles
    ensures Exclusive(PushTail(w, id, n, d, offset))
  {
    var over := Abs(offset) > PushMax;
    var commit := over && w.tiles[n].movable.Null?;
    var w2 := if commit then SetTileIndex(w, id, w.tiles[n].data.tileIndex, false) else w;
    if commit {
      SetTileIndexExclusive(w, id, w.tiles[n].data.tileIndex, false);
    }
    var off := if commit then Commit(offset) else if over then 0.0 else offset;
    SetPushedKeeps(w2, id, d, off);
  }

  /** A push keeps one item per tile: an item only ever moves into a tile
      that is free at that moment. */
  lemma {:induction false} PushExclusive(w: World, id: int, d: Direction, offset: real, allowPush: bool, fuel: nat, r: World)
    requires Pushable(w, id) && Exclusive(w) && r == Push(w, id, d, offset, allowPush, fuel)
    ensures Exclusive(r)
    decreases fuel
  {
    var next := GetAdjacentTile(w, w.items[id].tileIndex, d);
    if next.Some? {
      var n := next.value;
      if allowPush && w.tiles[n].movable.Some? && fuel > 0 {
        var j := w.tiles[n].movable.value;
        var w1 := Push(w, j, d, offset, true, fuel - 1);
        PushExclusive(w, j, d, offset, true, fuel - 1, w1);
        PushTailExclusive(w1, id, n, d, offset);
        PushUnfold(w, id, d, offset, allowPush, fuel, n, w1);
      } else {
        PushTailExclusive(w, id, n, d, offset);
        PushUnfold(w, id, d, offset, allowPush, fuel, n, w);
      }
    }
  }

  /** The cell commit: past half a tile into a free next tile the item
      moves there (becoming its occupant, leaving its old tile) and keeps
      the offset less one tile; past half a tile into a taken tile it stays
      with zero offset; within half a tile it stays with the offset as
      given. In every case the push direction is recorded, the other axis
      keeps its offset and no other item changes. */
  lemma PushTailEffect(w: World, id: int, n: int, d: Direction, offset: real)
    requires Exclusive(w) && ValidItem(w, id) && w.items[id].onTile && n in w.tiles && IsCardinal(d)
    requires n != w.items[id].tileIndex
    ensures var r := PushTail(w, id, n, d, offset);
            var it := w.items[id];
            var x := it.tileIndex;
            var over := Abs(offset) > PushMax;
            r.items[id].pushDirection == d &&
            WithAxis(r.items[id].pushOffset, d, AxisOf(it.pushOffset, d)) == it.pushOffset &&
            (forall i :: 0 <= i < |w.items| && i != id ==> r.items[i] == w.items[i]) &&
            (over && w.tiles[n].movable.Null? ==>
               r.items[id].tileIndex == n && r.items[id].onTile &&
               r.tiles[n].movable == Some(id) && r.tiles[x].movable.Null? &&
               AxisOf(r.items[id].pushOffset, d) == Commit(offset)) &&
            (over && w.tiles[n].movable.Some? ==>
               r.items[id].tileIndex == x && r.tiles == w.tiles && AxisOf(r.items[id].pushOffset, d) == 0.0) &&
            (!over ==>
               r.items[id].tileIndex == x && r.tiles == w.tiles && AxisOf(r.items[id].pushOffset, d) == offset) &&
            (forall k :: k in w.tiles && k != n && k != x ==> r.tiles[k] == w.tiles[k])
  {
    var over := Abs(offset) > PushMax;
    var commit := over && w.tiles[n].movable.Null?;
    if commit {
      SetTileIndexEffect(w, id, w.tiles[n].data.tileIndex, false);
    }
  }

  /** Following the direction from `path[0]` visits the tiles of `path`
      in order, no tile twice; the tiles strictly between the first and
      the last are taken and the last one is free. */
  predicate FreeRun(w: World, path: seq<int>, d: Direction)
  {
    |path| >= 2 &&
    (forall k :: 0 <= k < |path| ==> path[k] in w.tiles) &&
    (forall k {:trigger GetAdjacentTile(w, path[k], d)} :: 0 <= k < |path| - 1 ==> GetAdjacentTile(w, path[k], d) == Some(path[k + 1])) &&
    Distinct(path) &&
    (forall k :: 0 < k < |path| - 1 ==> w.tiles[path[k]].movable.Some?) &&
    w.tiles[path[|path| - 1]].movable.Null?
  }

  /** No tile appears twice in `path`. */
  predicate Distinct(path: seq<int>)
  {
    forall k, l :: 0 <= k < l < |path| ==> path[k] != path[l]
  }

  /** Some tile of `path` from position `i` on is `y`. */
  predicate InRun(path: seq<int>, i: int, y: int)
  {
    exists k :: i <= k < |path| && 0 <= k && path[k] == y
  }

  /** In a path without repeats, a tile is not found again further on. */
  lemma NotInRunBefore(path: seq<int>, i: int, k: int)
    requires Distinct(path) && 0 <= k < i && k < |path|
    ensures !InRun(path, i, path[k])
  {
  }

  lemma AdjacentFrame(w: World, r: World, x: int, d: Direction)
    requires Frame(w, r) && x in w.tiles
    ensures GetAdjacentTile(r, x, d) == GetAdjacentTile(w, x, d)
  {
  }

  /** `r` is `w` with every occupant along `path` from position `i` on
      moved one tile forward: tile `path[i]` freed, each later tile holding
      what the tile before it held, and every tile off that part of the
      path as it was. */
  predicate MovedRun(w: World, r: World, path: seq<int>, i: int)
  {
    0 <= i < |path| && r.tiles.Keys == w.tiles.Keys &&
    (forall k :: 0 <= k < |path| ==> path[k] in w.tiles) &&
    r.tiles[path[i]].movable.Null? &&
    (forall k, l {:trigger r.tiles[path[l]], w.tiles[path[k]]} :: i <= k < |path| - 1 && l == k + 1 ==> r.tiles[path[l]].movable == w.tiles[path[k]].movable) &&
    (forall y {:trigger r.tiles[y]} :: y in w.tiles && !InRun(path, i, y) ==> r.tiles[y].movable == w.tiles[y].movable)
  }

  /** The pusher's own commit in a run push, once the part of the run
      ahead of it has moved on. */
  lemma RunCommit(w: World, w1: World, id: int, d: Direction, offset: real, path: seq<int>, i: int, r: World)
    requires Exclusive(w) && Exclusive(w1) && ValidItem(w, id) && w.items[id].onTile
    requires |w1.items| == |w.items|
    requires FreeRun(w, path, d) && 0 <= i < |path| - 2 && path[i] == w.items[id].tileIndex
    requires Abs(offset) > PushMax && IsCardinal(d)
    requires MovedRun(w, w1, path, i + 1)
    requires r == PushTail(w1, id, path[i + 1], d, offset)
    ensures MovedRun(w, r, path, i)
  {
    var x := path[i];
    var n := path[i + 1];
    NotInRunBefore(path, i + 1, i);
    assert w1.tiles[x].movable == Some(id);
    PushTailEffect(w1, id, n, d, offset);
    forall y | y in w.tiles && !InRun(path, i, y)
      ensures r.tiles[y].movable == w.tiles[y].movable
    {
      assert y != x && y != n;
      assert !InRun(path, i + 1, y);
    }
  }

  /** A chain push moves the whole run: when the items ahead of the pusher
      form an unbroken line that ends in a free tile within the recursion
      bound, pushing past half a tile moves every item of the line, the
      pusher included, one tile forward; the pusher's tile becomes free,
      and no tile off the line changes its occupant. The pusher stands at
      position `i` of the run. */
  lemma {:induction false} PushMovesRun(w: World, id: int, d: Direction, offset: real, fuel: nat, path: seq<int>, i: int, r: World)
    requires Exclusive(w) && ValidItem(w, id) && w.items[id].onTile
    requires FreeRun(w, path, d) && 0 <= i < |path| - 1 && path[i] == w.items[id].tileIndex && |path| - 2 - i <= fuel
    requires Abs(offset) > PushMax && IsCardinal(d)
    requires r == Push(w, id, d, offset, true, fuel)
    ensures MovedRun(w, r, path, i)
    decreases |path| - i, 1
  {
    if i == |path| - 2 {
      RunEnd(w, id, d, offset, fuel, path, i, r);
    } else {
      RunStep(w, id, d, offset, fuel, path, i, r);
    }
  }

  /** A run with a taken tile ahead of the pusher: the occupant of that
      tile pushes the rest of the run on, then the pusher commits. */
  lemma {:induction false} RunStep(w: World, id: int, d: Direction, offset: real, fuel: nat, path: seq<int>, i: int, r: World)
    requires Exclusive(w) && ValidItem(w, id) && w.items[id].onTile
    requires FreeRun(w, path, d) && 0 <= i < |path| - 2 && path[i] == w.items[id].tileIndex && |path| - 2 - i <= fuel
    requires Abs(offset) > PushMax && IsCardinal(d)
    requires r == Push(w, id, d, offset, true, fuel)
    ensures MovedRun(w, r, path, i)
    decreases |path| - i, 0
  {
    assert fuel >= 1 && |path| - 2 - (i + 1) <= fuel - 1;
    var j := RunNext(w, path, i, d);
    var w1 := Push(w, j, d, offset, true, fuel - 1);
    PushMovesRun(w, j, d, offset, fuel - 1, path, i + 1, w1);
    PushExclusive(w, j, d, offset, true, fuel - 1, w1);
    assert GetAdjacentTile(w, path[i], d) == Some(path[i + 1]);
    PushUnfold(w, id, d, offset, true, fuel, path[i + 1], w1);
    RunCommit(w, w1, id, d, offset, path, i, r);
  }

  /** The last two tiles of a run: the pusher steps into the free tile
      ahead. */
  lemma RunEnd(w: World, id: int, d: Direction, offset: real, fuel: nat, path: seq<int>, i: int, r: World)
    requires Exclusive(w) && ValidItem(w, id) && w.items[id].onTile
    requires FreeRun(w, path, d) && i == |path| - 2 && path[i] == w.items[id].tileIndex
    requires Abs(offset) > PushMax && IsCardinal(d)
    requires r == Push(w, id, d, offset, true, fuel)
    ensures MovedRun(w, r, path, i)
  {
    var n := path[i + 1];
    assert GetAdjacentTile(w, path[i], d) == Some(n);
    PushUnfold(w, id, d, offset, true, fuel, n, w);
    PushTailEffect(w, id, n, d, offset);
    forall y | y in w.tiles && !InRun(path, i, y)
      ensures r.tiles[y].movable == w.tiles[y].movable
    {
      assert y != path[i] && !InRun(path, i + 1, y);
    }
  }

  /** The occupant of the tile ahead of position `i` of a run, when that
      tile is not the run's last. */
  lemma RunNext(w: World, path: seq<int>, i: int, d: Direction) returns (j: int)
    requires Exclusive(w) && FreeRun(w, path, d) && 0 <= i < |path| - 2
    ensures w.tiles[path[i + 1]].movable == Some(j)
    ensures ValidItem(w, j) && w.items[j].onTile && w.items[j].tileIndex == path[i + 1]
  {
    j := w.tiles[path[i + 1]].movable.value;
  }

  /** Without a next tile a push changes nothing. */
  lemma PushWithoutNeighbour(w: World, id: int, d: Direction, offset: real, allowPush: bool, fuel: nat)
    requires Pushable(w, id) && GetAdjacentTile(w, w.items[id].tileIndex, d).Null?
    ensures Push(w, id, d, offset, allowPush, fuel) == w
  {
  }

  /** The item pushed and the events a push attempt raised. */
  datatype Reaction = Reaction(world: World, events: seq<Event>)

  /** `PrePush` as each kind of item overrides it, called when `pusher`
      tries to push `target`: a win prop pushed by a character reports the
      win; an obstacle touched by a character remembers it; a character
      pushed by another character, while not stunned and past its
      invulnerability, is stunned — its timer restarts, the hit is reported,
      then the state change. */
  function PrePush(w: World, target: int, pusher: int): (r: Reaction)
    requires ValidItem(w, target) && ValidItem(w, pusher)
  {
    var it := w.items[target];
    var byCharacter := w.items[pusher].role.Character?;
    match it.role
    case Prop(data, _) =>
      Reaction(w, if data.isWinProp && byCharacter then [Won(w.items[pusher].role.mover.playerIndex)] else [])
    case Obstacle(data, locks, _, isBeingPushed) =>
      if byCharacter then Reaction(w.(items := w.items[target := it.(role := Obstacle(data, locks, true, isBeingPushed))]), [])
      else Reaction(w, [])
    case Character(m) =>
      if byCharacter && pusher != target && m.state != Stunned &&
         m.stunElapsed >= m.config.stunTime + m.config.stunInvulnerable
      then
        var s := SetState(target, m.(stunElapsed := 0.0), Stunned);
        Reaction(w.(items := w.items[target := it.(role := Character(s.mover))]), [Hit(target, pusher)] + s.events)
      else Reaction(w, [])
  }

  /** A push attempt touches nothing but the pushed item's own kind
      fields: no tile, no other item, and not the pushed item's place,
      offset or kind, so the grid's links are kept. */
  lemma PrePushFrame(w: World, target: int, pusher: int)
    requires ValidItem(w, target) && ValidItem(w, pusher)
    ensures var r := PrePush(w, target, pusher).world;
            r.tiles == w.tiles && |r.items| == |w.items| &&
            (forall i :: 0 <= i < |w.items| && i != target ==> r.items[i] == w.items[i]) &&
            r.items[target] == w.items[target].(role := r.items[target].role) &&
            (r.items[target].role.Prop? <==> w.items[target].role.Prop?) &&
            (r.items[target].role.Obstacle? <==> w.items[target].role.Obstacle?) &&
            (r.items[target].role.Character? <==> w.items[target].role.Character?) &&
            (Consistent(w) ==> Consistent(r)) && (Exclusive(w) ==> Exclusive(r))
  {
    var r := PrePush(w, target, pusher).world;
    assert forall i :: 0 <= i < |w.items| ==> r.items[i].onTile == w.items[i].onTile && r.items[i].tileIndex == w.items[i].tileIndex;
  }

  /** Only a win prop pushed by a character reports a win, and the win is
      that character's player's; an obstacle, even one made from a win
      prop's record, never does. */
  lemma PrePushWins(w: World, target: int, pusher: int, p: int)
    requires ValidItem(w, target) && ValidItem(w, pusher)
    ensures Won(p) in PrePush(w, target, pusher).events <==>
              w.items[target].role.Prop? && w.items[target].role.data.isWinProp &&
              w.items[pusher].role.Character? && w.items[pusher].role.mover.playerIndex == p
    ensures w.items[target].role.Obstacle? ==> PrePush(w, target, pusher).events == []
  {
  }

  /** A stun happens exactly when another character pushes a character
      that is not stunned and no longer invulnerable. It restarts the stun
      timer, leaves the target Stunned and reports the hit once, followed
      by the one state change; otherwise the target is left as it was. */
  lemma PrePushStuns(w: World, target: int, pusher: int)
    requires ValidItem(w, target) && ValidItem(w, pusher) && w.items[target].role.Character?
    ensures var r := PrePush(w, target, pusher);
            var m := w.items[target].role.mover;
            var stun := w.items[pusher].role.Character? && pusher != target && m.state != Stunned &&
                        m.stunElapsed >= m.config.stunTime + m.config.stunInvulnerable;
            (Hit(target, pusher) in r.events <==> stun) &&
            (stun ==> r.events == [Hit(target, pusher), StateChanged(target, Stunned)] &&
                      r.world.items[target].role.mover == m.(stunElapsed := 0.0, state := Stunned)) &&
            (!stun ==> r == Reaction(w, []))
  {
  }

  /** An obstacle's flag is set by a character's touch and never cleared
      by a push attempt. */
  lemma PrePushMarksObstacle(w: World, target: int, pusher: int)
    requires ValidItem(w, target) && ValidItem(w, pusher) && w.items[target].role.Obstacle?
    ensures var o := PrePush(w, target, pusher).world.items[target].role;
            o.Obstacle? &&
            o.pushByChar == (w.items[target].role.pushByChar || w.items[pusher].role.Character?) &&
            o.isBeingPushed == w.items[target].role.isBeingPushed &&
            o.locks == w.items[target].role.locks && o.data == w.items[target].role.data
  {
  }
}
