/** Exact eviction: which entries addCache removes, and when it fails. */
module LruTheorems {
  import opened Files
  import opened LruCache

  // ----- an independent account of eviction -----

  function Closed(list: seq<Entry>): nat {
    if list == [] then 0 else (if Pinned(list[0]) then 0 else 1) + Closed(list[1..])
  }

  /** The list without its `n` least recent closed entries: a closed entry goes
      when at most `n` closed entries stand at or behind it. */
  function Recent(list: seq<Entry>, n: nat): seq<Entry> {
    if list == [] then []
    else if !Pinned(list[0]) && Closed(list) <= n then Recent(list[1..], n)
    else [list[0]] + Recent(list[1..], n)
  }

  function Dropped(list: seq<Entry>, n: nat): set<string> {
    if list == [] then {}
    else if !Pinned(list[0]) && Closed(list) <= n then {list[0].path} + Dropped(list[1..], n)
    else Dropped(list[1..], n)
  }

  function PinnedOnly(list: seq<Entry>): seq<Entry> {
    if list == [] then []
    else (if Pinned(list[0]) then [list[0]] else []) + PinnedOnly(list[1..])
  }

  /** The first count, from `n` on, after which `data` more bytes fit. */
  function Needed(s: Store, data: nat, n: nat): nat
    decreases Closed(s.list) - n
  {
    if Total(Recent(s.list, n), s.disk) + data <= s.capacity || n >= Closed(s.list) then n
    else Needed(s, data, n + 1)
  }

  lemma {:induction false} NeededIsLeast(s: Store, data: nat, n: nat)
    requires n <= Closed(s.list)
    ensures var k := Needed(s, data, n);
            && n <= k <= Closed(s.list)
            && (forall m :: n <= m < k ==> Total(Recent(s.list, m), s.disk) + data > s.capacity)
            && (k < Closed(s.list) ==> Total(Recent(s.list, k), s.disk) + data <= s.capacity)
    decreases Closed(s.list) - n
  {
    if !(Total(Recent(s.list, n), s.disk) + data <= s.capacity || n >= Closed(s.list)) {
      NeededIsLeast(s, data, n + 1);
    }
  }

  // ----- sums -----

  lemma {:induction false} TotalCons(e: Entry, list: seq<Entry>, disk: Disk)
    ensures Total([e] + list, disk) == Length(disk, e.path) + Total(list, disk)
  {
    var whole := [e] + list;
    if list == [] {
      assert whole[..0] == [];
    } else {
      TotalCons(e, list[..|list| - 1], disk);
      assert whole[..|whole| - 1] == [e] + list[..|list| - 1];
    }
  }

  lemma {:induction false} TotalWithout(list: seq<Entry>, i: nat, disk: Disk)
    requires i < |list|
    ensures Total(Without(list, i), disk) == Total(list, disk) - Length(disk, list[i].path)
  {
    var prefix := list[..|list| - 1];
    if i == |list| - 1 {
      assert Without(list, i) == prefix;
    } else {
      TotalWithout(prefix, i, disk);
      assert Without(list, i)[..|list| - 2] == Without(prefix, i);
    }
  }

  lemma {:induction false} TotalFrame(list: seq<Entry>, disk: Disk, disk': Disk)
    requires forall e :: e in list ==> Length(disk, e.path) == Length(disk', e.path)
    ensures Total(list, disk) == Total(list, disk')
  {
    if list != [] {
      TotalFrame(list[..|list| - 1], disk, disk');
    }
  }

  // ----- one eviction removes the next least recent closed entry -----

  lemma VictimUnique(list: seq<Entry>, k: int)
    requires -1 <= k < |list| && (k >= 0 ==> !Pinned(list[k]))
    requires forall i :: k < i < |list| ==> Pinned(list[i])
    ensures Victim(list) == k
  {
    VictimInRange(list);
  }

  lemma VictimCons(h: Entry, rest: seq<Entry>)
    ensures Victim([h] + rest) == if Victim(rest) >= 0 then 1 + Victim(rest) else if Pinned(h) then -1 else 0
  {
    var list, w := [h] + rest, Victim(rest);
    VictimInRange(rest);
    assert forall i :: 0 < i < |list| ==> list[i] == rest[i - 1];
    VictimUnique(list, if w >= 0 then 1 + w else if Pinned(h) then -1 else 0);
  }

  lemma {:induction false} RecentZero(list: seq<Entry>)
    ensures Recent(list, 0) == list && Dropped(list, 0) == {}
  {
    if list != [] {
      RecentZero(list[1..]);
    }
  }

  lemma {:induction false} RecentAll(list: seq<Entry>, n: nat)
    requires n >= Closed(list)
    ensures Recent(list, n) == PinnedOnly(list)
    ensures Victim(Recent(list, n)) == -1
    ensures Dropped(list, n) == set e | e in list && !Pinned(e) :: e.path
  {
    if list != [] {
      RecentAll(list[1..], n);
      assert list == [list[0]] + list[1..];
      VictimCons(list[0], Recent(list[1..], n));
      assert (set e | e in list && !Pinned(e) :: e.path)
          == (if Pinned(list[0]) then {} else {list[0].path}) + (set e | e in list[1..] && !Pinned(e) :: e.path);
    }
  }

  lemma {:induction false} RecentStep(list: seq<Entry>, n: nat)
    requires n < Closed(list)
    ensures 0 <= Victim(Recent(list, n)) < |Recent(list, n)|
    ensures Without(Recent(list, n), Victim(Recent(list, n))) == Recent(list, n + 1)
    ensures Dropped(list, n + 1) == Dropped(list, n) + {Recent(list, n)[Victim(Recent(list, n))].path}
  {
    var h, t := list[0], list[1..];
    VictimCons(h, Recent(t, n));
    assert Recent(list, n) == [h] + Recent(t, n) && Dropped(list, n) == Dropped(t, n);
    if n < Closed(t) {
      RecentStep(t, n);
      var k := Victim(Recent(t, n));
      WithoutCons(h, Recent(t, n), k);
      assert Recent(list, n + 1) == [h] + Recent(t, n + 1) && Dropped(list, n + 1) == Dropped(t, n + 1);
      assert Recent(list, n)[k + 1] == Recent(t, n)[k];
    } else {
      LastClosedStep(list, n);
    }
  }

  lemma LastClosedStep(list: seq<Entry>, n: nat)
    requires list != [] && Closed(list[1..]) <= n < Closed(list)
    ensures Victim(Recent(list, n)) == 0
    ensures Without(Recent(list, n), 0) == Recent(list, n + 1)
    ensures Dropped(list, n + 1) == Dropped(list, n) + {Recent(list, n)[0].path}
  {
    var h, t := list[0], list[1..];
    VictimCons(h, Recent(t, n));
    RecentAll(t, n);
    RecentAll(t, n + 1);
    assert Recent(list, n) == [h] + Recent(t, n);
  }

  lemma WithoutCons(h: Entry, list: seq<Entry>, i: nat)
    requires i < |list|
    ensures Without([h] + list, i + 1) == [h] + Without(list, i)
  {
  }

  /** Survivors and dropped entries have different paths. */
  lemma {:induction false} SurvivorsKept(list: seq<Entry>, n: nat)
    requires UniquePaths(list)
    ensures forall e :: e in Recent(list, n) ==> e in list && e.path !in Dropped(list, n)
    ensures forall p :: p in Dropped(list, n) ==> exists e :: e in list && !Pinned(e) && e.path == p
    ensures UniquePaths(Recent(list, n))
  {
    if list != [] {
      SurvivorsKept(list[1..], n);
      assert forall e :: e in list[1..] ==> e in list && e.path != list[0].path;
    }
  }

  /** The state of the eviction loop after `n` evictions. */
  function Shrunk(s: Store, n: nat): Store {
    s.(list := Recent(s.list, n), disk := s.disk - Dropped(s.list, n), size := Total(Recent(s.list, n), s.disk))
  }

  lemma ShrunkStep(s: Store, n: nat)
    requires UniquePaths(s.list) && n < Closed(s.list)
    ensures EvictOne(Shrunk(s, n)) == (Shrunk(s, n + 1), true)
  {
    hide Total, Closed, Recent, Dropped;
    var a := Shrunk(s, n);
    RecentStep(s.list, n);
    var k := Victim(a.list);
    SurvivorsKept(s.list, n);
    TotalWithout(a.list, k, s.disk);
    assert a.list[k] in a.list;
    assert Length(a.disk, a.list[k].path) == Length(s.disk, a.list[k].path);
    assert s.disk - Dropped(s.list, n) - {a.list[k].path} == s.disk - Dropped(s.list, n + 1);
  }

  lemma {:induction false} EvictExact(s: Store, data: nat, n: nat)
    requires UniquePaths(s.list) && n <= Closed(s.list)
    ensures var k := Needed(s, data, n);
            Evict(Shrunk(s, n), data) == (Shrunk(s, k), Shrunk(s, k).size + data <= s.capacity)
    decreases Closed(s.list) - n
  {
    hide Recent, Dropped, Total, Without, Victim, PinnedOnly, Closed, UniquePaths;
    if Shrunk(s, n).size + data > s.capacity {
      if n < Closed(s.list) {
        ShrunkStep(s, n);
        EvictExact(s, data, n + 1);
      } else {
        RecentAll(s.list, n);
      }
    }
  }

  /** What is left when every closed entry has been dropped is the least the
      cache can hold, so dropping fewer never leaves less. */
  lemma {:induction false} TotalShrinks(list: seq<Entry>, disk: Disk, n: nat)
    ensures Total(PinnedOnly(list), disk) <= Total(Recent(list, n), disk)
  {
    if list != [] {
      TotalShrinks(list[1..], disk, n);
      TotalCons(list[0], Recent(list[1..], n), disk);
      TotalCons(list[0], PinnedOnly(list[1..]), disk);
      assert [] + PinnedOnly(list[1..]) == PinnedOnly(list[1..]);
    }
  }

  /** addCache for a new path, exactly: it drops the shortest run of least
      recent closed entries that makes room, keeps the others in order, puts the
      new entry at the head, and fails just when the file and the open entries
      together exceed the capacity. */
  lemma AddNewExact(s: Store, e: Entry)
    requires UniquePaths(s.list) && IndexOf(s.list, e.path) == |s.list|
    ensures var data := Length(s.disk, e.path);
            var n := Needed(s, data, 0);
            var (s', ok) := AddNew(s, e);
            && s'.capacity == s.capacity
            && (ok <==> data + Total(PinnedOnly(s.list), s.disk) <= s.capacity)
            && (ok ==>
                  && s'.list == [e] + Recent(s.list, n)
                  && s'.disk == Created(s.disk - Dropped(s.list, n), e.path)
                  && s'.size == data + Total(Recent(s.list, n), s.disk) <= s.capacity)
            && (!ok ==>
                  && s'.list == PinnedOnly(s.list)
                  && s'.disk == s.disk - (set x | x in s.list && !Pinned(x) :: x.path))
  {
    hide Recent, Dropped, Total, PinnedOnly, Closed, Needed, Evict, UniquePaths;
    var data := Length(s.disk, e.path);
    var n := Needed(s, data, 0);
    RecentZero(s.list);
    NeededIsLeast(s, data, 0);
    assert s.disk - {} == s.disk;
    assert Shrunk(s, 0) == s.(size := Total(s.list, s.disk));
    EvictExact(s, data, 0);
    TotalShrinks(s.list, s.disk, n);
    RecentAll(s.list, Closed(s.list));
  }

  // ----- the invariant each operation keeps -----

  /** What must hold between cache operations. */
  ghost predicate Consistent(s: Store) {
    && UniquePaths(s.list)
    && s.size == Total(s.list, s.disk) <= s.capacity
  }

  lemma AddNewConsistent(s: Store, e: Entry)
    requires UniquePaths(s.list) && IndexOf(s.list, e.path) == |s.list|
    requires AddNew(s, e).1
    ensures Consistent(AddNew(s, e).0)
  {
    var n := Needed(s, Length(s.disk, e.path), 0);
    AddNewExact(s, e);
    HeadConsistent(s, e, n);
  }

  lemma HeadConsistent(s: Store, e: Entry, n: nat)
    requires UniquePaths(s.list) && IndexOf(s.list, e.path) == |s.list|
    ensures UniquePaths([e] + Recent(s.list, n))
    ensures Total([e] + Recent(s.list, n), Created(s.disk - Dropped(s.list, n), e.path))
         == Length(s.disk, e.path) + Total(Recent(s.list, n), s.disk)
  {
    var rest, disk' := Recent(s.list, n), Created(s.disk - Dropped(s.list, n), e.path);
    SurvivorsKept(s.list, n);
    DroppedElsewhere(s.list, n, e.path);
    assert forall x :: x in rest ==> x.path != e.path;
    TotalFrame(rest, s.disk, disk');
    TotalCons(e, rest, disk');
  }

  lemma DroppedElsewhere(list: seq<Entry>, n: nat, path: string)
    requires UniquePaths(list) && IndexOf(list, path) == |list|
    ensures path !in Dropped(list, n)
    ensures forall e :: e in Recent(list, n) ==> e.path != path
  {
    SurvivorsKept(list, n);
    IndexOfFirst(list, path);
  }

  lemma DeleteConsistent(s: Store, path: string)
    requires Consistent(s) && IndexOf(s.list, path) < |s.list|
    ensures Consistent(Delete(s, path).0)
    ensures IndexOf(Delete(s, path).0.list, path) == |s.list| - 1
  {
    hide Total, IndexOf;
    var i := IndexOf(s.list, path);
    IndexOfFirst(s.list, path);
    WithoutUnique(s.list, i);
    TotalWithout(s.list, i, s.disk);
    WithoutMembers(s.list, i);
    IndexOfFirst(Without(s.list, i), path);
    TotalFrame(Without(s.list, i), s.disk, s.disk - {path});
  }

  lemma NothingNeeded(s: Store, data: nat)
    requires Total(s.list, s.disk) + data <= s.capacity
    ensures Needed(s, data, 0) == 0 && Recent(s.list, 0) == s.list && Dropped(s.list, 0) == {}
  {
    RecentZero(s.list);
  }

  lemma AddNewFits(s: Store, e: Entry)
    requires UniquePaths(s.list) && IndexOf(s.list, e.path) == |s.list|
    requires Total(s.list, s.disk) + Length(s.disk, e.path) <= s.capacity
    ensures AddNew(s, e) == (Store([e] + s.list, Created(s.disk, e.path),
                                   Total(s.list, s.disk) + Length(s.disk, e.path), s.capacity), true)
  {
    hide Evict, Needed, Closed, Victim;
    NothingNeeded(s, Length(s.disk, e.path));
    AddNewExact(s, e);
    TotalShrinks(s.list, s.disk, 0);
    assert s.disk - {} == s.disk;
  }

  lemma AddNewFound(s: Store, e: Entry)
    requires UniquePaths(s.list) && IndexOf(s.list, e.path) == |s.list|
    ensures var (s', ok) := AddNew(s, e);
            && (ok <==> IndexOf(s'.list, e.path) < |s'.list|)
            && (ok ==> s'.list[0] == e)
  {
    AddNewExact(s, e);
    if !AddNew(s, e).1 {
      RecentAll(s.list, Closed(s.list));
      DroppedElsewhere(s.list, Closed(s.list), e.path);
      NotFound(PinnedOnly(s.list), e.path);
    }
  }

  lemma {:induction false} NotFound(list: seq<Entry>, path: string)
    requires forall e :: e in list ==> e.path != path
    ensures IndexOf(list, path) == |list|
  {
    if list != [] {
      assert list[0] in list;
      NotFound(list[1..], path);
    }
  }

  /** updateCache always answers 0 for a cached path, yet the entry is still
      there afterwards exactly when it fits beside the open entries; while the
      files fit, it only moves the entry to the head. */
  lemma TouchExact(s: Store, path: string)
    requires UniquePaths(s.list) && IndexOf(s.list, path) < |s.list|
    ensures var i := IndexOf(s.list, path);
            var rest := Without(s.list, i);
            var s' := Touch(s, path).0;
            && Touch(s, path).1 == 0
            && (IndexOf(s'.list, path) < |s'.list| <==>
                Length(s.disk, path) + Total(PinnedOnly(rest), s.disk) <= s.capacity)
            && (IndexOf(s'.list, path) < |s'.list| ==> Consistent(s') && s'.list[0] == s.list[i])
            && (Total(s.list, s.disk) <= s.capacity ==>
                  s' == Store([s.list[i]] + rest, Created(s.disk, path), Total(s.list, s.disk), s.capacity))
  {
    var i := IndexOf(s.list, path);
    IndexOfFirst(s.list, path);
    var e, s1 := s.list[i], s.(list := Without(s.list, i));
    WithoutUnique(s.list, i);
    AddNewFound(s1, e);
    AddNewOutcome(s1, e);
    TotalWithout(s.list, i, s.disk);
    if Total(s.list, s.disk) <= s.capacity {
      AddNewFits(s1, e);
    }
  }

  lemma AddNewOutcome(s: Store, e: Entry)
    requires UniquePaths(s.list) && IndexOf(s.list, e.path) == |s.list|
    ensures AddNew(s, e).1 <==> Length(s.disk, e.path) + Total(PinnedOnly(s.list), s.disk) <= s.capacity
    ensures AddNew(s, e).1 ==> Consistent(AddNew(s, e).0)
  {
    AddNewExact(s, e);
    if AddNew(s, e).1 {
      AddNewConsistent(s, e);
    }
  }

  /** An open file that has outgrown the cache: touching it reports success and
      loses the entry, although it is pinned. */
  lemma TouchLosesPinnedEntry(path: string)
    ensures exists s: Store ::
              && UniquePaths(s.list) && |s.list| == 1 && s.list[0].path == path && Pinned(s.list[0])
              && Touch(s, path).1 == 0 && IndexOf(Touch(s, path).0.list, path) == |Touch(s, path).0.list|
  {
    var e := Entry(path, 1, 1, "rw");
    var s := Store([e], map[path := [0, 0]], 2, 1);
    IndexOfFirst(Touch(s, path).0.list, path);
    TouchExact(s, path);
  }
}
