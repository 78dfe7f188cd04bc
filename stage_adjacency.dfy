/** The editor's adjacency recompute along one row or column of a stage.

    A line has `n` cells; a cell is populated when the stage holds a tile
    record for its index. Every populated cell `i` gets a successor: the
    next cell when that one is populated, otherwise the first cell of the
    contiguous populated run that ends at `i` (the scan walks backwards and
    never jumps a hole). Successor and predecessor are inverse, so each run
    is a cycle of its own and a lone tile is linked to itself. */
module StageAdjacency {
  import opened StageRecords
  import opened GridTopology

  /** `Iterate`: one step forwards or backwards along a line of `total`
      cells, wrapping at both ends. */
  function Iterate(original: int, total: int, forward: bool): (r: int)
    ensures 0 <= original < total && forward ==> r == (original + 1) % total
    ensures 0 <= original < total && !forward ==> r == (original - 1) % total
  {
    if forward then
      var result := original + 1;
      if result >= total then 0 else result
    else
      var result := original - 1;
      if result < 0 then total - 1 else result
  }

  /** A position at most one lap off the line, folded back onto it. */
  function Wrap(x: int, n: int): (r: int)
    requires n > 0 && -n <= x < 2 * n
    ensures 0 <= r < n && (r == x || r == x + n || r == x - n)
  {
    if x < 0 then x + n else if x >= n then x - n else x
  }

  /** The cell `j` steps behind `i`, wrapping, is populated. */
  predicate Behind(pop: seq<bool>, i: int, j: int)
    requires 0 <= i < |pop| && 0 <= j < |pop|
  {
    pop[Wrap(i - j, |pop|)]
  }

  /** The cell `j` steps ahead of `i`, wrapping, is populated. */
  predicate Ahead(pop: seq<bool>, i: int, j: int)
    requires 0 <= i < |pop| && 0 <= j < |pop|
  {
    pop[Wrap(i + j, |pop|)]
  }

  /** How many populated cells lie directly behind `i`, continuing a count
      already at `k`; the scan never wraps back onto `i`. */
  function StepsBack(pop: seq<bool>, i: int, k: nat): (r: nat)
    requires 0 <= i < |pop| && k < |pop|
    ensures k <= r < |pop|
    ensures forall j :: k < j <= r ==> Behind(pop, i, j)
    ensures r + 1 < |pop| ==> !Behind(pop, i, r + 1)
    decreases |pop| - k
  {
    if k + 1 < |pop| && Behind(pop, i, k + 1) then StepsBack(pop, i, k + 1) else k
  }

  /** How many populated cells lie directly ahead of `i`, continuing a count
      already at `k`. */
  function StepsAhead(pop: seq<bool>, i: int, k: nat): (r: nat)
    requires 0 <= i < |pop| && k < |pop|
    ensures k <= r < |pop|
    ensures forall j :: k < j <= r ==> Ahead(pop, i, j)
    ensures r + 1 < |pop| ==> !Ahead(pop, i, r + 1)
    decreases |pop| - k
  {
    if k + 1 < |pop| && Ahead(pop, i, k + 1) then StepsAhead(pop, i, k + 1) else k
  }

  /** First cell of the populated run that ends at `i`. */
  function RunStart(pop: seq<bool>, i: int): int
    requires 0 <= i < |pop|
  {
    Wrap(i - StepsBack(pop, i, 0), |pop|)
  }

  /** Last cell of the populated run that starts at `i`. */
  function RunEnd(pop: seq<bool>, i: int): int
    requires 0 <= i < |pop|
  {
    Wrap(i + StepsAhead(pop, i, 0), |pop|)
  }

  /** The cell a populated cell's right/down link is set to. */
  function Next(pop: seq<bool>, i: int): int
    requires 0 <= i < |pop|
  {
    var j := Iterate(i, |pop|, true);
    if pop[j] then j else RunStart(pop, i)
  }

  /** The cell a populated cell's left/up link ends up set to. */
  function Prev(pop: seq<bool>, i: int): int
    requires 0 <= i < |pop|
  {
    var j := Iterate(i, |pop|, false);
    if pop[j] then j else RunEnd(pop, i)
  }

  /** The backward scan stops inside the line when the cell after `i` is a
      hole: the cell before the run start is a hole, and the scan took
      fewer than `n - 1` steps. */
  lemma {:induction false} RunStartBounded(pop: seq<bool>, i: int)
    requires 0 <= i < |pop| && pop[i] && !pop[Wrap(i + 1, |pop|)]
    ensures StepsBack(pop, i, 0) + 1 < |pop|
    ensures !Behind(pop, i, StepsBack(pop, i, 0) + 1)
  {
    var n := |pop|;
    if n > 1 {
      assert Behind(pop, i, n - 1) == pop[Wrap(i + 1, n)];
    }
  }

  lemma {:induction false} RunEndBounded(pop: seq<bool>, i: int)
    requires 0 <= i < |pop| && pop[i] && !pop[Wrap(i - 1, |pop|)]
    ensures StepsAhead(pop, i, 0) + 1 < |pop|
    ensures !Ahead(pop, i, StepsAhead(pop, i, 0) + 1)
  {
    var n := |pop|;
    if n > 1 {
      assert Ahead(pop, i, n - 1) == pop[Wrap(i - 1, n)];
    }
  }

  /** The forward scan from `s` counts exactly `r` cells when those are
      populated and the one after them is a hole. */
  lemma {:induction false} StepsAheadExact(pop: seq<bool>, s: int, r: nat)
    requires 0 <= s < |pop| && r + 1 < |pop|
    requires forall j :: 0 < j <= r ==> Ahead(pop, s, j)
    requires !Ahead(pop, s, r + 1)
    ensures StepsAhead(pop, s, 0) == r
  {
    var r' := StepsAhead(pop, s, 0);
    assert r' + 1 < |pop| ==> !Ahead(pop, s, r' + 1);
  }

  lemma {:induction false} StepsBackExact(pop: seq<bool>, s: int, r: nat)
    requires 0 <= s < |pop| && r + 1 < |pop|
    requires forall j :: 0 < j <= r ==> Behind(pop, s, j)
    requires !Behind(pop, s, r + 1)
    ensures StepsBack(pop, s, 0) == r
  {
    var r' := StepsBack(pop, s, 0);
    assert r' + 1 < |pop| ==> !Behind(pop, s, r' + 1);
  }

  /** Seen from the last cell of a run, the cells behind it back to the
      run's first cell are populated. */
  lemma {:induction false} RunSeenFromEnd(pop: seq<bool>, i: int, r: nat, e: int)
    requires 0 <= i < |pop| && pop[i] && r < |pop|
    requires forall j :: 0 < j <= r ==> Ahead(pop, i, j)
    requires e == Wrap(i + r, |pop|)
    ensures forall j :: 0 < j <= r ==> Behind(pop, e, j)
  {
    var n := |pop|;
    forall j: int | 0 < j <= r
      ensures Behind(pop, e, j)
    {
      if j < r {
        assert Ahead(pop, i, r - j);
      }
    }
  }

  /** Seen from the first cell of a run, the cells ahead of it up to the
      run's last cell are populated. */
  lemma {:induction false} RunSeenFromStart(pop: seq<bool>, i: int, r: nat, s: int)
    requires 0 <= i < |pop| && pop[i] && r < |pop|
    requires forall j :: 0 < j <= r ==> Behind(pop, i, j)
    requires s == Wrap(i - r, |pop|)
    ensures forall j :: 0 < j <= r ==> Ahead(pop, s, j)
  {
    var n := |pop|;
    forall j: int | 0 < j <= r
      ensures Ahead(pop, s, j)
    {
      if j < r {
        assert Behind(pop, i, r - j);
      }
    }
  }

  /** Position arithmetic seen from `s`, the cell `r` steps behind `i`. */
  lemma ShiftBack(i: int, r: nat, n: int, s: int)
    requires 0 <= i < n && r + 1 < n && s == Wrap(i - r, n)
    ensures Iterate(s, n, false) == Wrap(i - (r + 1), n)
    ensures Wrap(s + (r + 1), n) == Wrap(i + 1, n) && Wrap(s + r, n) == i
  {
  }

  /** Position arithmetic seen from `e`, the cell `r` steps ahead of `i`. */
  lemma ShiftAhead(i: int, r: nat, n: int, e: int)
    requires 0 <= i < n && r + 1 < n && e == Wrap(i + r, n)
    ensures Iterate(e, n, true) == Wrap(i + (r + 1), n)
    ensures Wrap(e - (r + 1), n) == Wrap(i - 1, n) && Wrap(e - r, n) == i
  {
  }

  /** The run start of `i` scans forward back to `i`. */
  lemma {:induction false} PrevOfRunStart(pop: seq<bool>, i: int)
    requires 0 <= i < |pop| && pop[i] && !pop[Wrap(i + 1, |pop|)]
    ensures 0 <= RunStart(pop, i) < |pop| && pop[RunStart(pop, i)]
    ensures Prev(pop, RunStart(pop, i)) == i
  {
    var n := |pop|;
    var r := StepsBack(pop, i, 0);
    RunStartBounded(pop, i);
    var s := Wrap(i - r, n);
    ShiftBack(i, r, n, s);
    assert pop[s] by {
      if r > 0 {
        assert Behind(pop, i, r);
      }
    }
    assert !pop[Iterate(s, n, false)] by {
      assert !Behind(pop, i, r + 1);
    }
    RunSeenFromStart(pop, i, r, s);
    assert !Ahead(pop, s, r + 1);
    StepsAheadExact(pop, s, r);
    assert RunStart(pop, i) == s;
    assert Prev(pop, s) == RunEnd(pop, s) == Wrap(s + r, n);
  }

  /** The run end of `i` scans backward back to `i`. */
  lemma {:induction false} NextOfRunEnd(pop: seq<bool>, i: int)
    requires 0 <= i < |pop| && pop[i] && !pop[Wrap(i - 1, |pop|)]
    ensures 0 <= RunEnd(pop, i) < |pop| && pop[RunEnd(pop, i)]
    ensures Next(pop, RunEnd(pop, i)) == i
  {
    var n := |pop|;
    var r := StepsAhead(pop, i, 0);
    RunEndBounded(pop, i);
    var e := Wrap(i + r, n);
    ShiftAhead(i, r, n, e);
    assert pop[e] by {
      if r > 0 {
        assert Ahead(pop, i, r);
      }
    }
    assert !pop[Iterate(e, n, true)] by {
      assert !Ahead(pop, i, r + 1);
    }
    RunSeenFromEnd(pop, i, r, e);
    assert !Behind(pop, e, r + 1);
    StepsBackExact(pop, e, r);
    assert RunEnd(pop, i) == e;
    assert Next(pop, e) == RunStart(pop, e) == Wrap(e - r, n);
  }

  /** Successor and predecessor are inverse bijections of the populated
      cells of a line: following the links one way and back returns to
      the start, so every run closes into a cycle. */
  lemma {:induction false} NextPrevInverse(pop: seq<bool>, i: int)
    requires 0 <= i < |pop| && pop[i]
    ensures 0 <= Next(pop, i) < |pop| && pop[Next(pop, i)]
    ensures 0 <= Prev(pop, i) < |pop| && pop[Prev(pop, i)]
    ensures Prev(pop, Next(pop, i)) == i
    ensures Next(pop, Prev(pop, i)) == i
  {
    var n := |pop|;
    if !pop[Iterate(i, n, true)] {
      PrevOfRunStart(pop, i);
    }
    if !pop[Iterate(i, n, false)] {
      NextOfRunEnd(pop, i);
    }
  }

  /** A tile with holes on both sides links to itself in both directions. */
  lemma {:induction false} LoneCellLinksToItself(pop: seq<bool>, i: int)
    requires 0 <= i < |pop| && pop[i]
    requires !pop[Iterate(i, |pop|, true)] && !pop[Iterate(i, |pop|, false)]
    ensures Next(pop, i) == i && Prev(pop, i) == i
  {
    RunStartBounded(pop, i);
    RunEndBounded(pop, i);
  }

  /** On a fully populated line the links are plain wrap-around steps. */
  lemma FullLineWraps(pop: seq<bool>, i: int)
    requires 0 <= i < |pop|
    requires forall k :: 0 <= k < |pop| ==> pop[k]
    ensures Next(pop, i) == (i + 1) % |pop| && Prev(pop, i) == (i - 1) % |pop|
  {
  }

  // ---------------------------------------------------------------------
  // Lines of a stage

  /** Number of cells of row `v` (horizontal) or column `v` (vertical). */
  function LineSize(s: StageData, horizontal: bool): nat
  {
    var total := if horizontal then s.columns else s.rows;
    if total < 0 then 0 else total
  }

  /** Tile index of the `i`-th cell of the line. */
  function LineCell(s: StageData, horizontal: bool, v: int, i: int): int
  {
    GetTileIndex(s, if horizontal then i else v, if horizontal then v else i)
  }

  /** Which of the first `k` cells of the line hold a tile record. */
  function PatternUpTo(s: StageData, horizontal: bool, v: int, k: nat): (pop: seq<bool>)
    requires k <= LineSize(s, horizontal)
    ensures |pop| == k
  {
    if k == 0 then []
    else PatternUpTo(s, horizontal, v, k - 1) + [Populated(s.tiles, LineCell(s, horizontal, v, k - 1))]
  }

  /** Which cells of the line hold a tile record. */
  function Pattern(s: StageData, horizontal: bool, v: int): (pop: seq<bool>)
    ensures |pop| == LineSize(s, horizontal)
  {
    PatternUpTo(s, horizontal, v, LineSize(s, horizontal))
  }

  lemma {:induction false} PatternUpToAt(s: StageData, horizontal: bool, v: int, k: nat, i: int)
    requires k <= LineSize(s, horizontal) && 0 <= i < k
    ensures PatternUpTo(s, horizontal, v, k)[i] == Populated(s.tiles, LineCell(s, horizontal, v, i))
  {
    if i < k - 1 {
      PatternUpToAt(s, horizontal, v, k - 1, i);
    }
  }

  /** A cell is marked populated exactly when a tile record carries its
      index. */
  lemma PatternAt(s: StageData, horizontal: bool, v: int, i: int)
    requires 0 <= i < LineSize(s, horizontal)
    ensures Pattern(s, horizontal, v)[i] == Populated(s.tiles, LineCell(s, horizontal, v, i))
  {
    PatternUpToAt(s, horizontal, v, LineSize(s, horizontal), i);
  }

  /** The pattern sees only the identities of the tile records. */
  lemma {:induction false} PatternSameIndices(s: StageData, s': StageData, horizontal: bool, v: int, k: nat)
    requires s'.columns == s.columns && s'.rows == s.rows && SameIndices(s'.tiles, s.tiles)
    requires k <= LineSize(s, horizontal)
    ensures PatternUpTo(s', horizontal, v, k) == PatternUpTo(s, horizontal, v, k)
  {
    if k > 0 {
      PatternSameIndices(s, s', horizontal, v, k - 1);
      FirstTileSameIndices(s'.tiles, s.tiles, LineCell(s, horizontal, v, k - 1));
    }
  }

  /** Distinct cells of a line have distinct tile indices. */
  lemma {:induction false} LineCellInjective(s: StageData, horizontal: bool, v: int, i: int, j: int)
    requires s.columns > 0 && i < j
    ensures LineCell(s, horizontal, v, i) != LineCell(s, horizontal, v, j)
  {
    if !horizontal {
      MulAtLeast(j - i, s.columns);
      assert LineCell(s, horizontal, v, j) - LineCell(s, horizontal, v, i) == (j - i) * s.columns;
    }
  }

  /** Position on the line, from `i` on, of a tile index; -1 when the
      index is not on that part of the line. */
  function LinePositionFrom(s: StageData, horizontal: bool, v: int, idx: int, i: nat): (r: int)
    ensures r == -1 || (i <= r < LineSize(s, horizontal) && LineCell(s, horizontal, v, r) == idx)
    ensures r == -1 ==> forall k :: i <= k < LineSize(s, horizontal) ==> LineCell(s, horizontal, v, k) != idx
    decreases LineSize(s, horizontal) - i
  {
    if i >= LineSize(s, horizontal) then -1
    else if LineCell(s, horizontal, v, i) == idx then i
    else LinePositionFrom(s, horizontal, v, idx, i + 1)
  }

  /** Position on the line of a tile index, -1 when the index is not on it. */
  function LinePosition(s: StageData, horizontal: bool, v: int, idx: int): (i: int)
    ensures i == -1 || (0 <= i < LineSize(s, horizontal) && LineCell(s, horizontal, v, i) == idx)
    ensures i == -1 ==> forall k :: 0 <= k < LineSize(s, horizontal) ==> LineCell(s, horizontal, v, k) != idx
  {
    LinePositionFrom(s, horizontal, v, idx, 0)
  }

  lemma {:induction false} LinePositionOfCell(s: StageData, horizontal: bool, v: int, i: int)
    requires s.columns > 0 && 0 <= i < LineSize(s, horizontal)
    ensures LinePosition(s, horizontal, v, LineCell(s, horizontal, v, i)) == i
  {
    var r := LinePosition(s, horizontal, v, LineCell(s, horizontal, v, i));
    if r < i {
      LineCellInjective(s, horizontal, v, r, i);
    } else if r > i {
      LineCellInjective(s, horizontal, v, i, r);
    }
  }

  /** The forward (right or down) neighbour field along the line's axis. */
  function Forward(t: TileData, horizontal: bool): int
  {
    if horizontal then t.tileRight else t.tileDown
  }

  /** The backward (left or up) neighbour field along the line's axis. */
  function Backward(t: TileData, horizontal: bool): int
  {
    if horizontal then t.tileLeft else t.tileUp
  }

  function SetForward(t: TileData, horizontal: bool, x: int): TileData
  {
    if horizontal then t.(tileRight := x) else t.(tileDown := x)
  }

  function SetBackward(t: TileData, horizontal: bool, x: int): TileData
  {
    if horizontal then t.(tileLeft := x) else t.(tileUp := x)
  }

  /** A tile with its two links along the axis replaced. */
  function Relinked(t: TileData, horizontal: bool, fwd: int, bwd: int): TileData
  {
    SetBackward(SetForward(t, horizontal, fwd), horizontal, bwd)
  }

  /** Two tile lists with the same length and the same identities. */
  predicate SameIndices(a: seq<TileData>, b: seq<TileData>)
  {
    |a| == |b| && forall k :: 0 <= k < |a| ==> a[k].tileIndex == b[k].tileIndex
  }

  /** One pass of the loop body at cell `i`: link `i` forwards to its
      successor and the successor backwards to `i`. Lookups see the first
      record for an index, as `HasTile` does. */
  function LinkStep(s: StageData, horizontal: bool, v: int, tiles: seq<TileData>, i: int): (r: seq<TileData>)
    requires 0 <= i < LineSize(s, horizontal) && |tiles| == |s.tiles|
    ensures |r| == |tiles|
  {
    var pop := Pattern(s, horizontal, v);
    if !pop[i] then tiles
    else
      var j := Next(pop, i);
      NextPrevInverse(pop, i);
      PatternAt(s, horizontal, v, i);
      PatternAt(s, horizontal, v, j);
      var a := FirstTile(s.tiles, LineCell(s, horizontal, v, i));
      var b := FirstTile(s.tiles, LineCell(s, horizontal, v, j));
      var t1 := tiles[a := SetForward(tiles[a], horizontal, LineCell(s, horizontal, v, j))];
      t1[b := SetBackward(t1[b], horizontal, LineCell(s, horizontal, v, i))]
  }

  /** A loop step rewrites neighbour fields only. */
  lemma LinkStepSameIndices(s: StageData, horizontal: bool, v: int, tiles: seq<TileData>, i: int)
    requires 0 <= i < LineSize(s, horizontal) && |tiles| == |s.tiles|
    ensures SameIndices(LinkStep(s, horizontal, v, tiles, i), tiles)
  {
    var pop := Pattern(s, horizontal, v);
    if pop[i] {
      var j := Next(pop, i);
      NextPrevInverse(pop, i);
      PatternAt(s, horizontal, v, i);
      PatternAt(s, horizontal, v, j);
      var a := FirstTile(s.tiles, LineCell(s, horizontal, v, i));
      var b := FirstTile(s.tiles, LineCell(s, horizontal, v, j));
      var t1 := tiles[a := SetForward(tiles[a], horizontal, LineCell(s, horizontal, v, j))];
      var r := t1[b := SetBackward(t1[b], horizontal, LineCell(s, horizontal, v, i))];
      assert LinkStep(s, horizontal, v, tiles, i) == r;
      assert SameIndices(t1, tiles);
    }
  }

  /** The tile list after the loop has handled cells `0 .. k-1`. */
  function RecalcPrefix(s: StageData, horizontal: bool, v: int, k: int): (r: seq<TileData>)
    requires 0 <= k <= LineSize(s, horizontal)
    ensures |r| == |s.tiles|
  {
    if k == 0 then s.tiles
    else LinkStep(s, horizontal, v, RecalcPrefix(s, horizontal, v, k - 1), k - 1)
  }

  /** The loop only rewrites neighbour fields: record identities stay. */
  lemma {:induction false} RecalcPrefixSameIndices(s: StageData, horizontal: bool, v: int, k: int)
    requires 0 <= k <= LineSize(s, horizontal)
    ensures SameIndices(RecalcPrefix(s, horizontal, v, k), s.tiles)
  {
    if k > 0 {
      RecalcPrefixSameIndices(s, horizontal, v, k - 1);
      var prior := RecalcPrefix(s, horizontal, v, k - 1);
      var now := RecalcPrefix(s, horizontal, v, k);
      LinkStepSameIndices(s, horizontal, v, prior, k - 1);
    }
  }

  /** `RecalculateAdjacents(stage, horizontal, v)` as a value: the loop run
      over every cell of the line. */
  function RecalcLine(s: StageData, horizontal: bool, v: int): StageData
  {
    s.(tiles := RecalcPrefix(s, horizontal, v, LineSize(s, horizontal)))
  }

  /** The line cell whose live record is at position `p`, or -1 when `p`
      is a later duplicate or its index is off the line. */
  function Owner(s: StageData, horizontal: bool, v: int, p: int): (o: int)
    requires s.columns > 0 && 0 <= p < |s.tiles|
    ensures o == -1 || 0 <= o < LineSize(s, horizontal)
  {
    var idx := s.tiles[p].tileIndex;
    if FirstTile(s.tiles, idx) == p then LinePosition(s, horizontal, v, idx) else -1
  }

  /** Owners pair the live records of the line one-to-one with its
      populated cells. */
  lemma {:induction false} OwnerOfCell(s: StageData, horizontal: bool, v: int, i: int)
    requires s.columns > 0 && 0 <= i < LineSize(s, horizontal)
    requires Pattern(s, horizontal, v)[i]
    ensures 0 <= FirstTile(s.tiles, LineCell(s, horizontal, v, i))
    ensures Owner(s, horizontal, v, FirstTile(s.tiles, LineCell(s, horizontal, v, i))) == i
  {
    PatternAt(s, horizontal, v, i);
    LinePositionOfCell(s, horizontal, v, i);
  }

  lemma {:induction false} CellOfOwner(s: StageData, horizontal: bool, v: int, p: int)
    requires s.columns > 0 && 0 <= p < |s.tiles|
    requires Owner(s, horizontal, v, p) != -1
    ensures Pattern(s, horizontal, v)[Owner(s, horizontal, v, p)]
    ensures FirstTile(s.tiles, LineCell(s, horizontal, v, Owner(s, horizontal, v, p))) == p
  {
    PatternAt(s, horizontal, v, Owner(s, horizontal, v, p));
  }

  /** What the recompute leaves in record `p`. */
  function Recomputed(s: StageData, horizontal: bool, v: int, p: int): TileData
    requires s.columns > 0 && 0 <= p < |s.tiles|
  {
    var o := Owner(s, horizontal, v, p);
    var pop := Pattern(s, horizontal, v);
    if o == -1 then s.tiles[p]
    else
      Relinked(s.tiles[p], horizontal,
        LineCell(s, horizontal, v, Next(pop, o)), LineCell(s, horizontal, v, Prev(pop, o)))
  }

  /** Record `p` after the loop has handled cells `0 .. k-1`: its forward
      link is final iff its owner was handled, its backward link is
      final iff its owner's predecessor was handled, and nothing else of the
      record has changed. */
  function ShapeAt(s: StageData, horizontal: bool, v: int, k: int, p: int): TileData
    requires s.columns > 0 && 0 <= p < |s.tiles|
  {
    var pop := Pattern(s, horizontal, v);
    var o := Owner(s, horizontal, v, p);
    Relinked(s.tiles[p], horizontal,
      if o != -1 && o < k then LineCell(s, horizontal, v, Next(pop, o)) else Forward(s.tiles[p], horizontal),
      if o != -1 && Prev(pop, o) < k then LineCell(s, horizontal, v, Prev(pop, o)) else Backward(s.tiles[p], horizontal))
  }

  lemma RelinkAgain(t: TileData, horizontal: bool, f: int, b: int, f': int, b': int)
    ensures SetForward(Relinked(t, horizontal, f, b), horizontal, f') == Relinked(t, horizontal, f', b)
    ensures SetBackward(Relinked(t, horizontal, f, b), horizontal, b') == Relinked(t, horizontal, f, b')
  {
  }

  /** One pass of the loop body at a populated cell `i`, seen from the
      record `p` it may touch. */
  lemma {:induction false} LinkStepShape(s: StageData, horizontal: bool, v: int, prior: seq<TileData>, i: int, p: int)
    requires s.columns > 0 && 0 <= i < LineSize(s, horizontal)
    requires |prior| == |s.tiles| && 0 <= p < |prior|
    requires forall q :: 0 <= q < |prior| ==> prior[q] == ShapeAt(s, horizontal, v, i, q)
    ensures LinkStep(s, horizontal, v, prior, i)[p] == ShapeAt(s, horizontal, v, i + 1, p)
  {
    var pop := Pattern(s, horizontal, v);
    if !pop[i] {
      assert LinkStep(s, horizontal, v, prior, i) == prior;
      HoleKeepsShape(s, horizontal, v, i, p);
    } else {
      LinkStepShapeAtRecord(s, horizontal, v, prior, i, p);
    }
  }

  /** A hole in the line is nobody's owner and nobody's predecessor, so
      passing it changes no record's shape. */
  lemma {:induction false} HoleKeepsShape(s: StageData, horizontal: bool, v: int, i: int, p: int)
    requires s.columns > 0 && 0 <= i < LineSize(s, horizontal) && !Pattern(s, horizontal, v)[i]
    requires 0 <= p < |s.tiles|
    ensures ShapeAt(s, horizontal, v, i, p) == ShapeAt(s, horizontal, v, i + 1, p)
  {
    var pop := Pattern(s, horizontal, v);
    var o := Owner(s, horizontal, v, p);
    if o != -1 {
      CellOfOwner(s, horizontal, v, p);
      NextPrevInverse(pop, o);
      assert o != i && Prev(pop, o) != i;
      assert (o < i) == (o < i + 1) && (Prev(pop, o) < i) == (Prev(pop, o) < i + 1);
    }
  }

  lemma {:induction false} LinkStepShapeAtRecord(s: StageData, horizontal: bool, v: int, prior: seq<TileData>, i: int, p: int)
    requires s.columns > 0 && 0 <= i < LineSize(s, horizontal) && Pattern(s, horizontal, v)[i]
    requires |prior| == |s.tiles| && 0 <= p < |prior|
    requires forall q :: 0 <= q < |prior| ==> prior[q] == ShapeAt(s, horizontal, v, i, q)
    ensures LinkStep(s, horizontal, v, prior, i)[p] == ShapeAt(s, horizontal, v, i + 1, p)
  {
    var pop := Pattern(s, horizontal, v);
    var o := Owner(s, horizontal, v, p);
    if o != -1 {
      CellOfOwner(s, horizontal, v, p);
      NextPrevInverse(pop, o);
    }
    NextPrevInverse(pop, i);
    var j := Next(pop, i);
    OwnerOfCell(s, horizontal, v, i);
    OwnerOfCell(s, horizontal, v, j);
    var a := FirstTile(s.tiles, LineCell(s, horizontal, v, i));
    var b := FirstTile(s.tiles, LineCell(s, horizontal, v, j));
    var ci, cj := LineCell(s, horizontal, v, i), LineCell(s, horizontal, v, j);
    var t1 := prior[a := SetForward(prior[a], horizontal, cj)];
    assert LinkStep(s, horizontal, v, prior, i) == t1[b := SetBackward(t1[b], horizontal, ci)];
    assert prior[p] == ShapeAt(s, horizontal, v, i, p);
    if p == a && p == b {
      assert j == i;
      LinkedLone(s, horizontal, v, prior[p], i, p);
    } else if p == a {
      assert Owner(s, horizontal, v, p) == i && j != i;
      LinkedForward(s, horizontal, v, prior[p], i, p);
    } else if p == b {
      assert Owner(s, horizontal, v, p) == j && j != i;
      LinkedBackward(s, horizontal, v, prior[p], i, p);
    } else {
      assert o != i;
      assert o != -1 ==> Prev(pop, o) != i;
      LinkedElsewhere(s, horizontal, v, i, p);
    }
  }

  lemma {:induction false} LinkedLone(s: StageData, horizontal: bool, v: int, t: TileData, i: int, p: int)
    requires s.columns > 0 && 0 <= i < LineSize(s, horizontal) && 0 <= p < |s.tiles|
    requires Owner(s, horizontal, v, p) == i && Next(Pattern(s, horizontal, v), i) == i
    requires Prev(Pattern(s, horizontal, v), i) == i
    requires t == ShapeAt(s, horizontal, v, i, p)
    ensures SetBackward(SetForward(t, horizontal, LineCell(s, horizontal, v, i)), horizontal, LineCell(s, horizontal, v, i))
            == ShapeAt(s, horizontal, v, i + 1, p)
  {
  }

  lemma {:induction false} LinkedForward(s: StageData, horizontal: bool, v: int, t: TileData, i: int, p: int)
    requires s.columns > 0 && 0 <= i < LineSize(s, horizontal) && 0 <= p < |s.tiles|
    requires Owner(s, horizontal, v, p) == i && Prev(Pattern(s, horizontal, v), i) != i
    requires t == ShapeAt(s, horizontal, v, i, p)
    ensures SetForward(t, horizontal, LineCell(s, horizontal, v, Next(Pattern(s, horizontal, v), i)))
            == ShapeAt(s, horizontal, v, i + 1, p)
  {
  }

  lemma {:induction false} LinkedBackward(s: StageData, horizontal: bool, v: int, t: TileData, i: int, p: int)
    requires s.columns > 0 && 0 <= i < LineSize(s, horizontal) && 0 <= p < |s.tiles|
    requires Owner(s, horizontal, v, p) != -1 && Owner(s, horizontal, v, p) != i
    requires Prev(Pattern(s, horizontal, v), Owner(s, horizontal, v, p)) == i
    requires t == ShapeAt(s, horizontal, v, i, p)
    ensures SetBackward(t, horizontal, LineCell(s, horizontal, v, i)) == ShapeAt(s, horizontal, v, i + 1, p)
  {
  }

  lemma {:induction false} LinkedElsewhere(s: StageData, horizontal: bool, v: int, i: int, p: int)
    requires s.columns > 0 && 0 <= i < LineSize(s, horizontal) && 0 <= p < |s.tiles|
    requires Owner(s, horizontal, v, p) != i
    requires Owner(s, horizontal, v, p) != -1 ==> Prev(Pattern(s, horizontal, v), Owner(s, horizontal, v, p)) != i
    ensures ShapeAt(s, horizontal, v, i, p) == ShapeAt(s, horizontal, v, i + 1, p)
  {
  }

  lemma {:induction false} PrefixShapeHolds(s: StageData, horizontal: bool, v: int, k: int)
    requires s.columns > 0 && 0 <= k <= LineSize(s, horizontal)
    ensures forall p :: 0 <= p < |s.tiles| ==> RecalcPrefix(s, horizontal, v, k)[p] == ShapeAt(s, horizontal, v, k, p)
  {
    if k == 0 {
      PrefixShapeBase(s, horizontal, v);
    } else {
      PrefixShapeHolds(s, horizontal, v, k - 1);
      var prior := RecalcPrefix(s, horizontal, v, k - 1);
      PrefixShapeStep(s, horizontal, v, k - 1, prior);
      assert RecalcPrefix(s, horizontal, v, k) == LinkStep(s, horizontal, v, prior, k - 1);
    }
  }

  lemma {:induction false} PrefixShapeBase(s: StageData, horizontal: bool, v: int)
    requires s.columns > 0
    ensures forall p :: 0 <= p < |s.tiles| ==> s.tiles[p] == ShapeAt(s, horizontal, v, 0, p)
  {
    forall p | 0 <= p < |s.tiles|
      ensures s.tiles[p] == ShapeAt(s, horizontal, v, 0, p)
    {
      RelinkedSelf(s.tiles[p], horizontal);
    }
  }

  lemma {:induction false} PrefixShapeStep(s: StageData, horizontal: bool, v: int, i: int, prior: seq<TileData>)
    requires s.columns > 0 && 0 <= i < LineSize(s, horizontal) && |prior| == |s.tiles|
    requires forall q :: 0 <= q < |prior| ==> prior[q] == ShapeAt(s, horizontal, v, i, q)
    ensures forall p :: 0 <= p < |s.tiles| ==> LinkStep(s, horizontal, v, prior, i)[p] == ShapeAt(s, horizontal, v, i + 1, p)
  {
    forall p | 0 <= p < |s.tiles|
      ensures LinkStep(s, horizontal, v, prior, i)[p] == ShapeAt(s, horizontal, v, i + 1, p)
    {
      LinkStepShape(s, horizontal, v, prior, i, p);
    }
  }

  lemma RelinkedSelf(t: TileData, horizontal: bool)
    ensures Relinked(t, horizontal, Forward(t, horizontal), Backward(t, horizontal)) == t
  {
  }

  /** The recompute of one line, record by record: the live record of each
      populated cell gets its successor forwards and its predecessor
      backwards; every other record, and every other field, is untouched. */
  lemma {:induction false} RecalcLineShape(s: StageData, horizontal: bool, v: int)
    requires s.columns > 0
    ensures RecalcLine(s, horizontal, v).columns == s.columns
    ensures RecalcLine(s, horizontal, v).rows == s.rows
    ensures RecalcLine(s, horizontal, v).props == s.props
    ensures RecalcLine(s, horizontal, v).players == s.players
    ensures |RecalcLine(s, horizontal, v).tiles| == |s.tiles|
    ensures forall p :: 0 <= p < |s.tiles| ==>
              RecalcLine(s, horizontal, v).tiles[p] == Recomputed(s, horizontal, v, p)
  {
    var n := LineSize(s, horizontal);
    var pop := Pattern(s, horizontal, v);
    PrefixShapeHolds(s, horizontal, v, n);
    forall p | 0 <= p < |s.tiles|
      ensures RecalcLine(s, horizontal, v).tiles[p] == Recomputed(s, horizontal, v, p)
    {
      var o := Owner(s, horizontal, v, p);
      if o != -1 {
        CellOfOwner(s, horizontal, v, p);
        NextPrevInverse(pop, o);
      }
    }
  }

  /** Seen from the cells: after the recompute, following the forward
      link of a populated cell and then the backward link of the cell
      it reaches leads back to the start. */
  lemma {:induction false} RecalcLineLinksCells(s: StageData, horizontal: bool, v: int, i: int)
    requires s.columns > 0 && 0 <= i < LineSize(s, horizontal)
    requires Populated(s.tiles, LineCell(s, horizontal, v, i))
    ensures var s' := RecalcLine(s, horizontal, v);
            var pop := Pattern(s, horizontal, v);
            var a := FirstTile(s'.tiles, LineCell(s, horizontal, v, i));
            var b := FirstTile(s'.tiles, LineCell(s, horizontal, v, Next(pop, i)));
            0 <= a && 0 <= b &&
            Forward(s'.tiles[a], horizontal) == LineCell(s, horizontal, v, Next(pop, i)) &&
            Backward(s'.tiles[b], horizontal) == LineCell(s, horizontal, v, i)
  {
    var s' := RecalcLine(s, horizontal, v);
    var pop := Pattern(s, horizontal, v);
    PatternAt(s, horizontal, v, i);
    RecalcLineShape(s, horizontal, v);
    RecalcLineSameIndices(s, horizontal, v);
    NextPrevInverse(pop, i);
    var j := Next(pop, i);
    FirstTileSameIndices(s'.tiles, s.tiles, LineCell(s, horizontal, v, i));
    FirstTileSameIndices(s'.tiles, s.tiles, LineCell(s, horizontal, v, j));
    OwnerOfCell(s, horizontal, v, i);
    OwnerOfCell(s, horizontal, v, j);
  }

  /** The recompute keeps the identity of every record. */
  lemma {:induction false} RecalcLineSameIndices(s: StageData, horizontal: bool, v: int)
    requires s.columns > 0
    ensures RecalcLine(s, horizontal, v).columns == s.columns
    ensures RecalcLine(s, horizontal, v).rows == s.rows
    ensures SameIndices(RecalcLine(s, horizontal, v).tiles, s.tiles)
  {
    RecalcLineShape(s, horizontal, v);
  }

  lemma {:induction false} LinePositionSameGeometry(s: StageData, s': StageData, horizontal: bool, v: int, idx: int, i: nat)
    requires s'.columns == s.columns && s'.rows == s.rows
    ensures LinePositionFrom(s', horizontal, v, idx, i) == LinePositionFrom(s, horizontal, v, idx, i)
    decreases LineSize(s, horizontal) - i
  {
    if i < LineSize(s, horizontal) {
      LinePositionSameGeometry(s, s', horizontal, v, idx, i + 1);
    }
  }

  /** Ownership sees only the geometry and the identities of the records. */
  lemma {:induction false} OwnerSameIndices(s: StageData, s': StageData, horizontal: bool, v: int, p: int)
    requires s.columns > 0 && s'.columns == s.columns && s'.rows == s.rows
    requires SameIndices(s'.tiles, s.tiles) && 0 <= p < |s.tiles|
    ensures Owner(s', horizontal, v, p) == Owner(s, horizontal, v, p)
  {
    FirstTileSameIndices(s'.tiles, s.tiles, s.tiles[p].tileIndex);
    LinePositionSameGeometry(s, s', horizontal, v, s.tiles[p].tileIndex, 0);
  }

  lemma RelinkedTwice(t: TileData, horizontal: bool, f: int, b: int)
    ensures Relinked(Relinked(t, horizontal, f, b), horizontal, f, b) == Relinked(t, horizontal, f, b)
  {
  }

  /** The recompute depends only on which cells are populated, so a second
      run changes nothing. */
  lemma {:induction false} RecalcLineIdempotent(s: StageData, horizontal: bool, v: int)
    requires s.columns > 0
    ensures RecalcLine(RecalcLine(s, horizontal, v), horizontal, v) == RecalcLine(s, horizontal, v)
  {
    var s1 := RecalcLine(s, horizontal, v);
    var s2 := RecalcLine(s1, horizontal, v);
    RecalcLineSameIndices(s, horizontal, v);
    RecalcLineShape(s1, horizontal, v);
    forall p | 0 <= p < |s.tiles|
      ensures s2.tiles[p] == s1.tiles[p]
    {
      RecomputedAgain(s, horizontal, v, p);
    }
    assert s2.tiles == s1.tiles;
  }

  lemma {:induction false} RecomputedAgain(s: StageData, horizontal: bool, v: int, p: int)
    requires s.columns > 0 && 0 <= p < |s.tiles|
    ensures RecalcLine(s, horizontal, v).columns > 0
    ensures |RecalcLine(s, horizontal, v).tiles| == |s.tiles|
    ensures Recomputed(RecalcLine(s, horizontal, v), horizontal, v, p) == RecalcLine(s, horizontal, v).tiles[p]
  {
    var s1 := RecalcLine(s, horizontal, v);
    RecalcLineShape(s, horizontal, v);
    RecalcLineSameIndices(s, horizontal, v);
    PatternSameIndices(s, s1, horizontal, v, LineSize(s, horizontal));
    OwnerSameIndices(s, s1, horizontal, v, p);
    var o := Owner(s, horizontal, v, p);
    assert s1.tiles[p] == Recomputed(s, horizontal, v, p);
    if o != -1 {
      var pop := Pattern(s, horizontal, v);
      assert Pattern(s1, horizontal, v) == pop;
      var f, b := LineCell(s, horizontal, v, Next(pop, o)), LineCell(s, horizontal, v, Prev(pop, o));
      assert LineCell(s1, horizontal, v, Next(pop, o)) == f && LineCell(s1, horizontal, v, Prev(pop, o)) == b;
      RelinkedTwice(s.tiles[p], horizontal, f, b);
    }
  }

  /** `RecalculateAdjacents(stage, tileIndex)`: recompute the tile's row,
      then its column; a negative row aborts without changes. */
  function Recalculate(s: StageData, tileIndex: int): StageData
    requires s.columns > 0
  {
    var (column, row) := GetPath(Some(s), tileIndex);
    if column == -1 || row == -1 then s
    else RecalcLine(RecalcLine(s, true, row), false, column)
  }

  /** One pass keeps each record's identity, prefab and variant and its
      links across the line's axis, and leaves a record whose index is
      off the line untouched. */
  lemma {:induction false} RecalcLineKeeps(s: StageData, horizontal: bool, v: int, p: int)
    requires s.columns > 0 && 0 <= p < |s.tiles|
    ensures |RecalcLine(s, horizontal, v).tiles| == |s.tiles|
    ensures var t := s.tiles[p];
            var t' := RecalcLine(s, horizontal, v).tiles[p];
            t'.tileIndex == t.tileIndex && t'.tilePrefab == t.tilePrefab &&
            t'.tilePrefabVariant == t.tilePrefabVariant &&
            (horizontal ==> t'.tileUp == t.tileUp && t'.tileDown == t.tileDown) &&
            (!horizontal ==> t'.tileLeft == t.tileLeft && t'.tileRight == t.tileRight) &&
            (LinePosition(s, horizontal, v, t.tileIndex) == -1 ==> t' == t)
  {
    RecalcLineShape(s, horizontal, v);
  }

  /** Only records on the edited tile's row or column can change, and a row
      pass touches only left/right while a column pass touches only up/down. */
  lemma {:induction false} RecalculateLocal(s: StageData, tileIndex: int, p: int)
    requires s.columns > 0 && 0 <= p < |s.tiles|
    ensures |Recalculate(s, tileIndex).tiles| == |s.tiles|
    ensures var (column, row) := GetPath(Some(s), tileIndex);
            var t := s.tiles[p];
            var t' := Recalculate(s, tileIndex).tiles[p];
            t'.tileIndex == t.tileIndex && t'.tilePrefab == t.tilePrefab &&
            t'.tilePrefabVariant == t.tilePrefabVariant &&
            (LinePosition(s, true, row, t.tileIndex) == -1 ==> t'.tileLeft == t.tileLeft && t'.tileRight == t.tileRight) &&
            (LinePosition(s, false, column, t.tileIndex) == -1 ==> t'.tileUp == t.tileUp && t'.tileDown == t.tileDown)
  {
    var (column, row) := GetPath(Some(s), tileIndex);
    if column != -1 && row != -1 {
      var s1 := RecalcLine(s, true, row);
      RecalcLineKeeps(s, true, row, p);
      RecalcLineSameIndices(s, true, row);
      RecalcLineKeeps(s1, false, column, p);
      LinePositionSameGeometry(s, s1, false, column, s.tiles[p].tileIndex, 0);
    }
  }
}
