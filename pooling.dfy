/** The object pool: a registry of prefabs, every instance it ever created
    (with the prefab each came from), and per-prefab FIFO lists of free
    instances. Game objects are opaque integer ids; instantiating a prefab
    yields the next unused id. */
module Pooling {
  import opened StageRecords
  import opened Lists

  /** The pool's lists, as values. `available[p]` holds positions in
      `instances` of free instances of prefab `p`, oldest first. */
  datatype PoolState = PoolState(
    prefabs: seq<int>,
    instances: seq<int>,
    instancePrefabs: seq<int>,
    available: map<int, seq<int>>,
    nextId: int)

  predicate Distinct(s: seq<int>)
  {
    forall i, j :: 0 <= i < j < |s| ==> s[i] != s[j]
  }

  /** What the pool maintains: no prefab registered twice, one prefab
      index per instance, instances distinct and older than `nextId`, and
      every free entry an instance of the prefab it is listed under. */
  predicate Valid(s: PoolState)
  {
    |s.instances| == |s.instancePrefabs| &&
    Distinct(s.prefabs) &&
    Distinct(s.instances) &&
    (forall i :: 0 <= i < |s.instancePrefabs| ==> 0 <= s.instancePrefabs[i] < |s.prefabs|) &&
    (forall i :: 0 <= i < |s.instances| ==> s.instances[i] < s.nextId) &&
    (forall p, k :: p in s.available && 0 <= k < |s.available[p]| ==>
       0 <= s.available[p][k] < |s.instances| && s.instancePrefabs[s.available[p][k]] == p)
  }

  /** The free list of prefab `p`, empty when the dictionary has no entry. */
  function Free(s: PoolState, p: int): seq<int>
  {
    if p in s.available then s.available[p] else []
  }

  /** `GetPrefabIndex`: null gives -1; a registered prefab gives its
      position; any other prefab is appended and gives the new position. */
  function PrefabIndex(s: PoolState, prefab: Nullable<int>): (r: (PoolState, int))
    ensures prefab.Null? ==> r == (s, -1)
    ensures prefab.Some? ==>
              0 <= r.1 < |r.0.prefabs| && r.0.prefabs[r.1] == prefab.value &&
              r.0 == s.(prefabs := if prefab.value in s.prefabs then s.prefabs else s.prefabs + [prefab.value])
  {
    if prefab.Null? then (s, -1)
    else
      var index := IndexOf(s.prefabs, prefab.value);
      if index == -1 then (s.(prefabs := s.prefabs + [prefab.value]), |s.prefabs|)
      else (s, index)
  }

  /** `GetPrefabIndex` keeps the pool valid: the registry never holds a
      prefab twice. */
  lemma PrefabIndexValid(s: PoolState, prefab: Nullable<int>)
    requires Valid(s)
    ensures Valid(PrefabIndex(s, prefab).0)
  {
    if prefab.Some? && prefab.value !in s.prefabs {
      var t := PrefabIndex(s, prefab).0;
      assert forall i :: 0 <= i < |s.prefabs| ==> t.prefabs[i] == s.prefabs[i];
    }
  }

  /** `Load`: hand out the oldest free instance of the prefab, or create a
      new one and record it with its prefab. */
  function LoadState(s: PoolState, prefab: int): (r: (PoolState, int))
    requires Valid(s)
    ensures Valid(r.0)
  {
    var s1p := PrefabIndex(s, Some(prefab));
    var s1, p := s1p.0, s1p.1;
    PrefabIndexValid(s, Some(prefab));
    if p in s1.available && |s1.available[p]| > 0 then TakeFree(s1, p)
    else Instantiate(s1, p)
  }

  /** Remove the head of prefab `p`'s free list and hand out its instance. */
  function TakeFree(s: PoolState, p: int): (r: (PoolState, int))
    requires Valid(s) && p in s.available && |s.available[p]| > 0
    ensures Valid(r.0)
    ensures r.0 == s.(available := s.available[p := s.available[p][1..]])
    ensures r.1 == s.instances[s.available[p][0]]
  {
    var index := s.available[p][0];
    var t := s.(available := s.available[p := s.available[p][1..]]);
    assert forall q, k :: q in t.available && 0 <= k < |t.available[q]| ==>
             t.available[q][k] == s.available[q][if q == p then k + 1 else k];
    (t, s.instances[index])
  }

  /** Create a new instance of prefab `p` and record it. */
  function Instantiate(s: PoolState, p: int): (r: (PoolState, int))
    requires Valid(s) && 0 <= p < |s.prefabs|
    ensures Valid(r.0)
    ensures r.1 == s.nextId && r.1 !in s.instances
    ensures r.0 == s.(instances := s.instances + [r.1], instancePrefabs := s.instancePrefabs + [p], nextId := s.nextId + 1)
  {
    var inst := s.nextId;
    var t := s.(instances := s.instances + [inst], instancePrefabs := s.instancePrefabs + [p], nextId := inst + 1);
    assert forall i :: 0 <= i < |s.instances| ==> t.instances[i] == s.instances[i] && t.instancePrefabs[i] == s.instancePrefabs[i];
    (t, inst)
  }

  /** `Unload`: a null or foreign instance changes nothing; otherwise the
      instance's position is appended to its prefab's free list, with no
      check that it is already there. */
  function UnloadState(s: PoolState, inst: Nullable<int>): (t: PoolState)
    requires Valid(s)
    ensures Valid(t)
  {
    if inst.Null? then s
    else
      var index := IndexOf(s.instances, inst.value);
      if index == -1 then s
      else
        var p := s.instancePrefabs[index];
        s.(available := s.available[p := Free(s, p) + [index]])
  }

  /** What `Load` does: the instance handed out is one of the pool's, made
      from the requested prefab; it is the head of the prefab's free list
      when there is one, and a brand-new instance otherwise. */
  lemma LoadEffect(s: PoolState, prefab: int)
    requires Valid(s)
    ensures var t, inst := LoadState(s, prefab).0, LoadState(s, prefab).1;
            var p := PrefabIndex(s, Some(prefab)).1;
            t.prefabs == PrefabIndex(s, Some(prefab)).0.prefabs &&
            inst in t.instances &&
            t.instancePrefabs[IndexOf(t.instances, inst)] == p &&
            t.prefabs[p] == prefab &&
            (|Free(s, p)| > 0 ==>
               t.instances == s.instances && inst == s.instances[Free(s, p)[0]] &&
               Free(t, p) == Free(s, p)[1..]) &&
            (|Free(s, p)| == 0 ==>
               t.instances == s.instances + [inst] && inst !in s.instances && Free(t, p) == [])
  {
    var s1p := PrefabIndex(s, Some(prefab));
    var s1, p := s1p.0, s1p.1;
    PrefabIndexValid(s, Some(prefab));
    var tinst := LoadState(s, prefab);
    var t, inst := tinst.0, tinst.1;
    if p in s1.available && |s1.available[p]| > 0 {
      DistinctIndex(t.instances, s1.available[p][0]);
    } else {
      var n := |s.instances|;
      assert forall i :: 0 <= i < n ==> t.instances[i] == s.instances[i];
      assert IndexOf(t.instances, inst) == n;
    }
  }

  /** In a list without repetitions, the first position of an element is
      its position. */
  lemma {:induction false} DistinctIndex(s: seq<int>, i: int)
    requires Distinct(s) && 0 <= i < |s|
    ensures IndexOf(s, s[i]) == i
  {
    if i > 0 {
      assert Distinct(s[1..]) by {
        assert forall a, b :: 0 <= a < b < |s| - 1 ==> s[1..][a] == s[a + 1] && s[1..][b] == s[b + 1];
      }
      DistinctIndex(s[1..], i - 1);
    }
  }

  /** What `Unload` does: a known instance goes to the back of its
      prefab's free list and nothing else changes; anything else leaves the
      pool as it was. */
  lemma UnloadEffect(s: PoolState, inst: Nullable<int>)
    requires Valid(s)
    ensures Valid(UnloadState(s, inst))
    ensures inst.Null? || inst.value !in s.instances ==> UnloadState(s, inst) == s
    ensures inst.Some? && inst.value in s.instances ==>
              var index := IndexOf(s.instances, inst.value);
              var p := s.instancePrefabs[index];
              UnloadState(s, inst) == s.(available := s.available[p := Free(s, p) + [index]]) &&
              Free(UnloadState(s, inst), p) == Free(s, p) + [index]
  {
  }

  /** Unloading an instance twice puts it on the free list twice, so two
      loads of its prefab hand out that same instance both times. */
  lemma DoubleUnloadRepeats(s: PoolState, i: int)
    requires Valid(s) && 0 <= i < |s.instances|
    requires |Free(s, s.instancePrefabs[i])| == 0
    ensures var inst := s.instances[i];
            var s2 := UnloadState(UnloadState(s, Some(inst)), Some(inst));
            var prefab := s.prefabs[s.instancePrefabs[i]];
            Valid(s2) &&
            LoadState(s2, prefab).1 == inst &&
            LoadState(LoadState(s2, prefab).0, prefab).1 == inst
  {
    var inst := s.instances[i];
    var p := s.instancePrefabs[i];
    DistinctIndex(s.instances, i);
    UnloadEffect(s, Some(inst));
    var s1 := UnloadState(s, Some(inst));
    UnloadEffect(s1, Some(inst));
    var s2 := UnloadState(s1, Some(inst));
    assert Free(s2, p) == [i, i];
    var prefab := s.prefabs[p];
    DistinctIndex(s.prefabs, p);
    LoadEffect(s2, prefab);
    var s3 := LoadState(s2, prefab).0;
    LoadEffect(s3, prefab);
  }

  // ---------------------------------------------------------------------
  // Preloading.

  /** `count` loads of one prefab, collecting the instances handed out. */
  function LoadMany(s: PoolState, prefab: int, count: nat): (r: (PoolState, seq<int>))
    requires Valid(s)
    ensures Valid(r.0) && |r.1| == count
  {
    if count == 0 then (s, [])
    else
      var s1insts := LoadMany(s, prefab, count - 1);
      var s1, insts := s1insts.0, s1insts.1;
      var s2inst := LoadState(s1, prefab);
      var s2, inst := s2inst.0, s2inst.1;
      (s2, insts + [inst])
  }

  /** Unloading each of `insts` in turn. */
  function UnloadAll(s: PoolState, insts: seq<int>): (t: PoolState)
    requires Valid(s)
    ensures Valid(t)
  {
    if |insts| == 0 then s
    else
      UnloadState(UnloadAll(s, insts[..|insts| - 1]), Some(insts[|insts| - 1]))
  }

  /** `Preload` as written: the guard returns for every prefab that has an
      index, which is every prefab, so nothing is ever loaded. */
  function PreloadAsWritten(s: PoolState, prefab: int, count: nat): PoolState
    requires Valid(s)
  {
    var s1p := PrefabIndex(s, Some(prefab));
    var s1, p := s1p.0, s1p.1;
    if p != -1 then s1
    else
      // The loading code after the guard cannot be reached.
      assert false; s1
  }

  /** As written, preloading creates no instance and frees none. */
  lemma PreloadAsWrittenDoesNothing(s: PoolState, prefab: int, count: nat)
    requires Valid(s)
    ensures PreloadAsWritten(s, prefab, count).instances == s.instances
    ensures PreloadAsWritten(s, prefab, count).available == s.available
  {
  }

  /** An empty pool asked to preload three instances has none free
      afterwards. */
  lemma PreloadAsWrittenEmptyPool()
    ensures var s := PoolState([], [], [], map[], 0);
            Valid(s) && |Free(PreloadAsWritten(s, 7, 3), 0)| == 0
  {
  }

  /** The evidently intended `Preload`: return only for a null prefab,
      otherwise load `count` instances and unload them all again. */
  function PreloadFixed(s: PoolState, prefab: int, count: nat): PoolState
    requires Valid(s)
  {
    var s1p := PrefabIndex(s, Some(prefab));
    var s1, p := s1p.0, s1p.1;
    PrefabIndexValid(s, Some(prefab));
    if p == -1 then s1
    else
      var loaded := LoadMany(s1, prefab, count);
      UnloadAll(loaded.0, loaded.1)
  }

  /** The first position of an element is unchanged by extending the list. */
  lemma {:induction false} IndexOfPrefix(a: seq<int>, b: seq<int>, x: int)
    requires x in a && |a| <= |b| && b[..|a|] == a
    ensures IndexOf(b, x) == IndexOf(a, x)
  {
    if a[0] != x {
      assert a[1..] == b[1..][..|a| - 1];
      IndexOfPrefix(a[1..], b[1..], x);
    }
  }

  /** `t` is `s` with possibly more instances recorded after the old ones. */
  predicate Extends(s: PoolState, t: PoolState)
  {
    t.prefabs == s.prefabs &&
    |s.instances| <= |t.instances| && |s.instancePrefabs| <= |t.instancePrefabs| &&
    t.instances[..|s.instances|] == s.instances &&
    t.instancePrefabs[..|s.instancePrefabs|] == s.instancePrefabs
  }

  lemma ExtendsTrans(a: PoolState, b: PoolState, c: PoolState)
    requires Extends(a, b) && Extends(b, c)
    ensures Extends(a, c)
  {
    assert c.instances[..|a.instances|] == c.instances[..|b.instances|][..|a.instances|];
    assert c.instancePrefabs[..|a.instancePrefabs|] == c.instancePrefabs[..|b.instancePrefabs|][..|a.instancePrefabs|];
  }

  /** `inst` is an instance of `s` made from prefab `p`. */
  predicate MadeOne(s: PoolState, inst: int, p: int)
  {
    inst in s.instances && 0 <= IndexOf(s.instances, inst) < |s.instancePrefabs| &&
    s.instancePrefabs[IndexOf(s.instances, inst)] == p
  }

  /** Every one of `insts` is an instance of `s` made from prefab `p`. */
  predicate MadeFrom(s: PoolState, insts: seq<int>, p: int)
  {
    |insts| == 0 || (MadeFrom(s, insts[..|insts| - 1], p) && MadeOne(s, insts[|insts| - 1], p))
  }

  lemma MadeOneExtends(s: PoolState, t: PoolState, inst: int, p: int)
    requires Extends(s, t) && |s.instances| == |s.instancePrefabs| && MadeOne(s, inst, p)
    ensures MadeOne(t, inst, p)
  {
    var i := IndexOf(s.instances, inst);
    IndexOfPrefix(s.instances, t.instances, inst);
    assert t.instancePrefabs[i] == t.instancePrefabs[..|s.instancePrefabs|][i];
  }

  lemma {:induction false} MadeFromExtends(s: PoolState, t: PoolState, insts: seq<int>, p: int)
    requires Extends(s, t) && |s.instances| == |s.instancePrefabs| && MadeFrom(s, insts, p)
    ensures MadeFrom(t, insts, p)
  {
    if |insts| > 0 {
      MadeFromExtends(s, t, insts[..|insts| - 1], p);
      MadeOneExtends(s, t, insts[|insts| - 1], p);
    }
  }

  /** One load of a registered prefab extends the pool. */
  lemma LoadExtends(s: PoolState, prefab: int)
    requires Valid(s) && prefab in s.prefabs
    ensures var p := IndexOf(s.prefabs, prefab);
            Extends(s, LoadState(s, prefab).0) &&
            MadeOne(LoadState(s, prefab).0, LoadState(s, prefab).1, p) &&
            |Free(LoadState(s, prefab).0, p)| == if |Free(s, p)| > 0 then |Free(s, p)| - 1 else 0
  {
    LoadEffect(s, prefab);
    var p := IndexOf(s.prefabs, prefab);
    assert PrefabIndex(s, Some(prefab)).1 == p;
    var t := LoadState(s, prefab).0;
    if |Free(s, p)| == 0 {
      assert t.instancePrefabs == s.instancePrefabs + [p];
    } else {
      assert t.instancePrefabs == s.instancePrefabs;
    }
  }

  /** Instances handed out by `count` loads of a registered prefab: all of
      them made from it, taken from the head of its free list first; the
      registry is unchanged and the instance lists only grow. */
  lemma {:induction false} LoadManyEffect(s: PoolState, prefab: int, count: nat)
    requires Valid(s) && prefab in s.prefabs
    ensures Extends(s, LoadMany(s, prefab, count).0)
    ensures MadeFrom(LoadMany(s, prefab, count).0, LoadMany(s, prefab, count).1, IndexOf(s.prefabs, prefab))
    ensures |Free(LoadMany(s, prefab, count).0, IndexOf(s.prefabs, prefab))| ==
              if count <= |Free(s, IndexOf(s.prefabs, prefab))| then |Free(s, IndexOf(s.prefabs, prefab))| - count else 0
  {
    var p := IndexOf(s.prefabs, prefab);
    if count > 0 {
      LoadManyEffect(s, prefab, count - 1);
      var s1insts := LoadMany(s, prefab, count - 1);
      var s1, insts := s1insts.0, s1insts.1;
      LoadExtends(s1, prefab);
      var tinst := LoadState(s1, prefab);
      var t, inst := tinst.0, tinst.1;
      LoadManyStep(s, s1, t, insts, inst, p);
    }
  }

  /** One more load on top of earlier ones. */
  lemma LoadManyStep(s: PoolState, s1: PoolState, t: PoolState, insts: seq<int>, inst: int, p: int)
    requires Valid(s) && Valid(s1) && Valid(t)
    requires Extends(s, s1) && Extends(s1, t)
    requires MadeFrom(s1, insts, p) && MadeOne(t, inst, p)
    ensures Extends(s, t) && MadeFrom(t, insts + [inst], p)
  {
    ExtendsTrans(s, s1, t);
    MadeFromExtends(s1, t, insts, p);
    assert (insts + [inst])[..|insts|] == insts;
  }

  /** Unloading instances of one prefab appends one free entry each to that
      prefab's free list and changes no instance. */
  lemma {:induction false} UnloadAllEffect(s: PoolState, insts: seq<int>, p: int)
    requires Valid(s)
    requires MadeFrom(s, insts, p)
    ensures UnloadAll(s, insts).instances == s.instances
    ensures UnloadAll(s, insts).instancePrefabs == s.instancePrefabs
    ensures |Free(UnloadAll(s, insts), p)| == |Free(s, p)| + |insts|
  {
    if |insts| > 0 {
      var n := |insts| - 1;
      UnloadAllEffect(s, insts[..n], p);
      var t := UnloadAll(s, insts[..n]);
      UnloadEffect(t, Some(insts[n]));
    }
  }

  /** The evidently intended `Preload` leaves at least `count` instances of
      the prefab free: every free one it found plus enough new ones. */
  lemma PreloadFixedFrees(s: PoolState, prefab: int, count: nat, p: int)
    requires Valid(s) && p == PrefabIndex(s, Some(prefab)).1
    ensures |Free(PreloadFixed(s, prefab, count), p)| == if count <= |Free(s, p)| then |Free(s, p)| else count
  {
    var s1 := PrefabIndex(s, Some(prefab)).0;
    PrefabIndexValid(s, Some(prefab));
    DistinctIndex(s1.prefabs, p);
    assert Free(s1, p) == Free(s, p);
    LoadThenUnload(s1, prefab, count, p);
  }

  /** Loading `count` instances of a registered prefab and unloading them
      all again. */
  lemma LoadThenUnload(s: PoolState, prefab: int, count: nat, p: int)
    requires Valid(s) && prefab in s.prefabs && p == IndexOf(s.prefabs, prefab)
    ensures var loaded := LoadMany(s, prefab, count);
            |Free(UnloadAll(loaded.0, loaded.1), p)| == if count <= |Free(s, p)| then |Free(s, p)| else count
  {
    LoadManyEffect(s, prefab, count);
    var loaded := LoadMany(s, prefab, count);
    UnloadAllEffect(loaded.0, loaded.1, p);
  }

  // ---------------------------------------------------------------------
  // The pool object.

  /** The pool component: its lists are fields that its methods update in
      place. */
  class Pool {
    var prefabs: seq<int>
    var instances: seq<int>
    var instancePrefabs: seq<int>
    var available: map<int, seq<int>>
    var nextId: int

    /** The fields as a value. */
    function State(): PoolState
      reads this
    {
      PoolState(prefabs, instances, instancePrefabs, available, nextId)
    }

    /** A new pool holds nothing. */
    constructor ()
      ensures State() == PoolState([], [], [], map[], 0) && Valid(State())
    {
      prefabs, instances, instancePrefabs, available, nextId := [], [], [], map[], 0;
    }

    /** `GetPrefabIndex`. */
    method GetPrefabIndex(prefab: Nullable<int>) returns (index: int)
      modifies this
      ensures State() == PrefabIndex(old(State()), prefab).0
      ensures index == PrefabIndex(old(State()), prefab).1
    {
      if prefab.Null? {
        return -1;
      }
      index := IndexOf(prefabs, prefab.value);
      if index == -1 {
        index := |prefabs|;
        prefabs := prefabs + [prefab.value];
      }
    }

    /** `Load`: the oldest free instance of the prefab, else a new one. */
    method Load(prefab: int) returns (inst: int)
      requires Valid(State())
      modifies this
      ensures Valid(State())
      ensures State() == LoadState(old(State()), prefab).0
      ensures inst == LoadState(old(State()), prefab).1
    {
      ghost var s := State();
      PrefabIndexValid(s, Some(prefab));
      var prefabIndex := GetPrefabIndex(Some(prefab));
      ghost var s1 := State();
      if prefabIndex in available && |available[prefabIndex]| > 0 {
        var index := available[prefabIndex][0];
        inst := instances[index];
        available := available[prefabIndex := available[prefabIndex][1..]];
        assert (State(), inst) == TakeFree(s1, prefabIndex);
      } else {
        inst := nextId;
        nextId := nextId + 1;
        instances := instances + [inst];
        instancePrefabs := instancePrefabs + [prefabIndex];
        assert (State(), inst) == Instantiate(s1, prefabIndex);
      }
    }

    /** `Unload`: a known instance goes to the back of its prefab's free
        list; a null or foreign one is refused. */
    method Unload(inst: Nullable<int>)
      requires Valid(State())
      modifies this
      ensures Valid(State())
      ensures State() == UnloadState(old(State()), inst)
    {
      if inst.Null? {
        return;
      }
      var instIndex := IndexOf(instances, inst.value);
      if instIndex == -1 {
        return;
      }
      var prefabIndex := instancePrefabs[instIndex];
      var free := if prefabIndex in available then available[prefabIndex] else [];
      available := available[prefabIndex := free + [instIndex]];
    }

    /** `Preload` with its guard corrected to return only for a null
        prefab (the program's own guard returns for every prefab, as
        `PreloadAsWritten` states): `count` loads collected in a list, then
        each of them unloaded in order. A negative count loads nothing. */
    method PreloadCorrected(prefab: int, count: int)
      requires Valid(State())
      modifies this
      ensures Valid(State())
      ensures State() == PreloadFixed(old(State()), prefab, if count < 0 then 0 else count)
    {
      ghost var s := State();
      PrefabIndexValid(s, Some(prefab));
      var prefabIndex := GetPrefabIndex(Some(prefab));
      if prefabIndex == -1 {
        return;
      }
      var n: nat := if count < 0 then 0 else count;
      var insts := LoadBatch(prefab, n);
      UnloadBatch(insts);
    }

    /** The first loop of `Preload`: `count` loads, collected in order. */
    method LoadBatch(prefab: int, count: nat) returns (insts: seq<int>)
      requires Valid(State())
      modifies this
      ensures Valid(State())
      ensures (State(), insts) == LoadMany(old(State()), prefab, count)
    {
      ghost var s := State();
      insts := [];
      var c := 0;
      while c < count
        invariant 0 <= c <= count
        invariant State() == LoadMany(s, prefab, c).0 && insts == LoadMany(s, prefab, c).1
      {
        var inst := Load(prefab);
        assert (State(), insts + [inst]) == LoadMany(s, prefab, c + 1);
        insts := insts + [inst];
        c := c + 1;
      }
    }

    /** The second loop of `Preload`: each instance unloaded in order. */
    method UnloadBatch(insts: seq<int>)
      requires Valid(State())
      modifies this
      ensures Valid(State())
      ensures State() == UnloadAll(old(State()), insts)
    {
      ghost var t := State();
      var c := 0;
      while c < |insts|
        invariant 0 <= c <= |insts|
        invariant State() == UnloadAll(t, insts[..c])
      {
        assert insts[..c + 1][..c] == insts[..c];
        Unload(Some(insts[c]));
        c := c + 1;
      }
      assert insts[..c] == insts;
    }
  }
}
