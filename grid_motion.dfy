/** The per-frame settling of pushed items: an offset that was not pushed
    this frame slides back toward its tile, and the frame's push direction
    is cleared (`GridItem.Update`, `Obstacle.LateUpdate`). */
module GridMotion {
  import opened StageRecords
  import opened GridWorld

  /** `SLIDE_LERP`: the fraction of the offset removed per frame. */
  const SlideLerp: real := 0.2
  /** `VEL_MIN`: below this an offset snaps to zero. */
  const VelMin: real := 0.01

  /** One component sliding back: `Mathf.Lerp(x, 0, SLIDE_LERP)`, snapped
      to zero when it gets small. */
  function SlideComponent(x: real): real
  {
    var y := x + (0.0 - x) * SlideLerp;
    if Abs(y) < VelMin then 0.0 else y
  }

  /** The offset after a frame: each nonzero component slides unless the
      frame's push was along its axis. */
  function Slide(v: Vec, pushed: Direction): (r: Vec)
  {
    Vec(if v.x != 0.0 && !IsHorizontal(pushed) then SlideComponent(v.x) else v.x,
        if v.y != 0.0 && !IsVertical(pushed) then SlideComponent(v.y) else v.y)
  }

  /** A sliding component keeps its sign and loses a fifth of its size, or
      snaps to zero once under `VelMin`; it never grows. */
  lemma SlideComponentShrinks(x: real)
    ensures var y := SlideComponent(x);
            (y == 0.0 <==> Abs(x) * 0.8 < VelMin) &&
            (y != 0.0 ==> y == x * 0.8) &&
            Abs(y) <= Abs(x) && (x != 0.0 ==> Abs(y) < Abs(x)) &&
            (x >= 0.0 ==> y >= 0.0) && (x <= 0.0 ==> y <= 0.0)
  {
  }

  /** A component left alone for `n` frames. */
  function SlideFrames(x: real, n: nat): real
  {
    if n == 0 then x else SlideComponent(SlideFrames(x, n - 1))
  }

  /** While a component keeps moving, every frame takes at least 0.002
      off its size, and a moving component is never below `VelMin`. */
  lemma {:induction false} SlideFramesBound(x: real, n: nat)
    ensures var y := SlideFrames(x, n);
            y == 0.0 || Abs(y) + 0.002 * (n as real) <= Abs(x)
    ensures n > 0 && SlideFrames(x, n) != 0.0 ==> Abs(SlideFrames(x, n)) >= VelMin
  {
    if n > 0 {
      SlideFramesBound(x, n - 1);
      SlideComponentShrinks(SlideFrames(x, n - 1));
    }
  }

  /** An offset nobody pushes comes to rest: after more than
      `500 * |x|` frames it is exactly zero. */
  lemma SlideSettles(x: real, n: nat)
    requires n as real > 500.0 * Abs(x)
    ensures SlideFrames(x, n) == 0.0
  {
    SlideFramesBound(x, n);
  }

  /** The pushed axis keeps its offset; the other one, if not zero,
      strictly shrinks toward zero without crossing it. */
  lemma SlideEffect(v: Vec, pushed: Direction)
    ensures var r := Slide(v, pushed);
            Abs(r.x) <= Abs(v.x) && Abs(r.y) <= Abs(v.y) &&
            (IsHorizontal(pushed) ==> r.x == v.x) &&
            (IsVertical(pushed) ==> r.y == v.y) &&
            (!IsHorizontal(pushed) && v.x != 0.0 ==> Abs(r.x) < Abs(v.x)) &&
            (!IsVertical(pushed) && v.y != 0.0 ==> Abs(r.y) < Abs(v.y))
  {
    SlideComponentShrinks(v.x);
    SlideComponentShrinks(v.y);
  }

  /** `GridItem.Update`: nothing for an item on no tile; otherwise the
      offset slides and the push direction is cleared for the next frame. */
  function ItemUpdate(w: World, id: int): (r: World)
    requires ValidItem(w, id)
  {
    var it := w.items[id];
    if !it.onTile then w
    else w.(items := w.items[id := it.(pushOffset := Slide(it.pushOffset, it.pushDirection), pushDirection := None)])
  }

  /** The frame ends with no push direction for an item on a tile, and
      nothing changes for one on no tile; no tile and no other item is
      touched, and the item keeps its place and kind. */
  lemma ItemUpdateEffect(w: World, id: int)
    requires ValidItem(w, id)
    ensures var r := ItemUpdate(w, id);
            var it := w.items[id];
            r.tiles == w.tiles && |r.items| == |w.items| &&
            (forall i :: 0 <= i < |w.items| && i != id ==> r.items[i] == w.items[i]) &&
            (!it.onTile ==> r == w) &&
            (it.onTile ==> r.items[id].pushDirection == None) &&
            r.items[id].tileIndex == it.tileIndex && r.items[id].onTile == it.onTile &&
            r.items[id].role == it.role && r.items[id].variants == it.variants &&
            Abs(r.items[id].pushOffset.x) <= Abs(it.pushOffset.x) &&
            Abs(r.items[id].pushOffset.y) <= Abs(it.pushOffset.y) &&
            (Exclusive(w) ==> Exclusive(r))
  {
    SlideEffect(w.items[id].pushOffset, w.items[id].pushDirection);
    var r := ItemUpdate(w, id);
    assert forall i :: 0 <= i < |w.items| ==> r.items[i].onTile == w.items[i].onTile && r.items[i].tileIndex == w.items[i].tileIndex;
  }

  /** `Obstacle.LateUpdate`: the same slide; then an obstacle pushed this
      frame is marked as being pushed and its push direction cleared, and
      one not pushed forgets both its marks, including a character's
      touch. */
  function ObstacleLateUpdate(w: World, id: int): (r: World)
    requires ValidItem(w, id) && w.items[id].role.Obstacle?
  {
    var it := w.items[id];
    var o := it.role;
    if !it.onTile then w
    else
      var off := Slide(it.pushOffset, it.pushDirection);
      var it2 :=
        if it.pushDirection != None then it.(pushOffset := off, pushDirection := None, role := o.(isBeingPushed := true))
        else it.(pushOffset := off, role := o.(isBeingPushed := false, pushByChar := false));
      w.(items := w.items[id := it2])
  }

  /** After an obstacle's frame it is marked as being pushed exactly when
      it was pushed this frame, and a character's touch survives only such
      a frame; its push direction ends cleared, and it keeps its place,
      record and locks. */
  lemma ObstacleLateUpdateEffect(w: World, id: int)
    requires ValidItem(w, id) && w.items[id].role.Obstacle? && w.items[id].onTile
    ensures var r := ObstacleLateUpdate(w, id);
            var o := w.items[id].role;
            var pushed := w.items[id].pushDirection != None;
            r.tiles == w.tiles && |r.items| == |w.items| &&
            (forall i :: 0 <= i < |w.items| && i != id ==> r.items[i] == w.items[i]) &&
            r.items[id].role.Obstacle? &&
            r.items[id].role.isBeingPushed == pushed &&
            r.items[id].role.pushByChar == (pushed && o.pushByChar) &&
            r.items[id].role.data == o.data && r.items[id].role.locks == o.locks &&
            r.items[id].pushDirection == None &&
            r.items[id].tileIndex == w.items[id].tileIndex && r.items[id].onTile &&
            r.items[id].pushOffset == Slide(w.items[id].pushOffset, w.items[id].pushDirection) &&
            (Exclusive(w) ==> Exclusive(r))
  {
    var r := ObstacleLateUpdate(w, id);
    assert forall i :: 0 <= i < |w.items| ==> r.items[i].onTile == w.items[i].onTile && r.items[i].tileIndex == w.items[i].tileIndex;
  }
}
