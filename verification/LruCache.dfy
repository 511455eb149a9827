/** The proxy's file cache (15440-p2/final/Cache.java): most recently used
    first, bounded in bytes, with reference counts that pin open files. */
module LruCache {
  import opened Files

  datatype Entry = Entry(path: string, opens: int, version: int, option: string)

  /** `list` is cacheLinkedList; `size` is the field, not a derived value. */
  datatype Store = Store(list: seq<Entry>, disk: Disk, size: int, capacity: int)

  predicate Pinned(e: Entry) {
    e.opens > 0
  }

  /** First index with this path, or the length. */
  function IndexOf(list: seq<Entry>, path: string): nat {
    if list == [] || list[0].path == path then 0 else 1 + IndexOf(list[1..], path)
  }

  function Total(list: seq<Entry>, disk: Disk): nat {
    if list == [] then 0
    else Total(list[..|list| - 1], disk) + Length(disk, list[|list| - 1].path)
  }

  /** The least recent entry that is not pinned, or -1. */
  function Victim(list: seq<Entry>): int {
    if list == [] then -1
    else if Pinned(list[|list| - 1]) then Victim(list[..|list| - 1])
    else |list| - 1
  }

  function Without<T>(s: seq<T>, i: nat): seq<T>
    requires i < |s|
  {
    s[..i] + s[i + 1..]
  }

  lemma WithoutMembers<T>(s: seq<T>, i: nat)
    requires i < |s|
    ensures forall x :: x in s <==> x == s[i] || x in Without(s, i)
  {
    assert s == s[..i] + [s[i]] + s[i + 1..];
  }

  // ----- operations, as functions on the store -----

  lemma {:induction false} VictimInRange(list: seq<Entry>)
    ensures -1 <= Victim(list) < |list|
    ensures Victim(list) >= 0 ==> !Pinned(list[Victim(list)])
    ensures forall i :: Victim(list) < i < |list| ==> Pinned(list[i])
  {
    if list != [] && Pinned(list[|list| - 1]) {
      VictimInRange(list[..|list| - 1]);
    }
  }

  /** One turn of the eviction loop: the victim leaves the list and the disk. */
  function EvictOne(s: Store): (r: (Store, bool))
    ensures r.1 ==> |r.0.list| < |s.list|
    ensures !r.1 ==> r.0 == s
  {
    VictimInRange(s.list);
    var k := Victim(s.list);
    if k < 0 then (s, false)
    else
      var path := s.list[k].path;
      (s.(list := Without(s.list, k), disk := s.disk - {path}, size := s.size - Length(s.disk, path)), true)
  }

  function Evict(s: Store, data: nat): (Store, bool)
    decreases |s.list|
  {
    if s.size + data <= s.capacity then (s, true)
    else
      var (s', found) := EvictOne(s);
      if found then Evict(s', data) else (s, false)
  }

  /** addCache for a path that is not in the list. */
  function AddNew(s: Store, e: Entry): (Store, bool) {
    var data := Length(s.disk, e.path);
    var (s', room) := Evict(s.(size := Total(s.list, s.disk)), data);
    if room then (s'.(list := [e] + s'.list, size := s'.size + data, disk := Created(s'.disk, e.path)), true)
    else (s', false)
  }

  lemma {:induction false} IndexOfFirst(list: seq<Entry>, path: string)
    ensures IndexOf(list, path) <= |list|
    ensures IndexOf(list, path) < |list| ==> list[IndexOf(list, path)].path == path
    ensures forall i :: 0 <= i < IndexOf(list, path) ==> list[i].path != path
  {
    if list != [] && list[0].path != path {
      IndexOfFirst(list[1..], path);
    }
  }

  function Counted(e: Entry, change: int): Entry {
    e.(opens := e.opens + change)
  }

  /** addCache: an entry with the same path is counted and linked once more. */
  function Added(s: Store, e: Entry): (Store, bool) {
    var i := IndexOf(s.list, e.path);
    IndexOfFirst(s.list, e.path);
    if i < |s.list| then
      var again := Counted(s.list[i], 1);
      (s.(list := [again] + s.list[i := again]), true)
    else AddNew(s, e)
  }

  /** updateCache, when paths are unique: re-insert at head, ignoring failure. */
  function Touch(s: Store, path: string): (Store, int) {
    var i := IndexOf(s.list, path);
    IndexOfFirst(s.list, path);
    if i == |s.list| then (s, -1)
    else (AddNew(s.(list := Without(s.list, i)), s.list[i]).0, 0)
  }

  /** deleteCache: the first entry with this path goes, and so does the file. */
  function Delete(s: Store, path: string): (Store, int) {
    var i := IndexOf(s.list, path);
    IndexOfFirst(s.list, path);
    if i == |s.list| then (s, -1)
    else (s.(list := Without(s.list, i), disk := s.disk - {path}, size := s.size - Length(s.disk, path)), 0)
  }

  ghost predicate UniquePaths(list: seq<Entry>) {
    forall i, j :: 0 <= i < j < |list| ==> list[i].path != list[j].path
  }

  lemma WithoutUnique(list: seq<Entry>, i: nat)
    requires UniquePaths(list) && i < |list|
    ensures UniquePaths(Without(list, i))
    ensures IndexOf(Without(list, i), list[i].path) == |list| - 1
  {
    IndexOfFirst(Without(list, i), list[i].path);
  }

  lemma AddNewIgnoresSize(s: Store, size: int, e: Entry)
    ensures AddNew(s.(size := size), e) == AddNew(s, e)
  {
  }

  // ----- the classes -----

  class CacheFile {
    const path: string
    const option: string
    var isOpen: int
    var version: int

    constructor (path: string, reference: int, version: int, option: string)
      ensures Value() == Entry(path, reference, version, option)
    {
      this.path, this.isOpen, this.version, this.option := path, reference, version, option;
    }

    function Value(): Entry
      reads this
    {
      Entry(path, isOpen, version, option)
    }

    method TurnOn()
      modifies this
      ensures Value() == old(Value()).(opens := old(isOpen) + 1)
    {
      isOpen := isOpen + 1;
    }

    method TurnOff()
      modifies this
      ensures Value() == old(Value()).(opens := old(isOpen) - 1)
    {
      isOpen := isOpen - 1;
    }
  }

  class Cache {
    const fs: FileSystem
    const capacity: int
    var cacheLinkedList: seq<CacheFile>
    var size: int

    /** The values of the linked objects, in order. */
    ghost var entries: seq<Entry>

    ghost predicate Valid()
      reads this, cacheLinkedList
    {
      && |entries| == |cacheLinkedList|
      && forall i :: 0 <= i < |entries| ==> entries[i] == cacheLinkedList[i].Value()
    }

    ghost function Abs(): Store
      reads this, fs
    {
      Store(entries, fs.disk, size, capacity)
    }

    constructor (fs: FileSystem, capacity: int)
      ensures this.fs == fs && this.capacity == capacity
      ensures Valid() && Abs() == Store([], fs.disk, 0, capacity)
    {
      this.fs, this.capacity, cacheLinkedList, size, entries := fs, capacity, [], 0, [];
    }

    /** Catches up with a reference count changed through an entry's object. */
    ghost method Resync()
      modifies this`entries
      ensures Valid()
    {
      entries := seq(|cacheLinkedList|, i requires 0 <= i < |cacheLinkedList| reads this, cacheLinkedList =>
                   cacheLinkedList[i].Value());
    }

    method Find(path: string) returns (index: nat)
      requires Valid()
      ensures index == IndexOf(entries, path) <= |cacheLinkedList|
    {
      index := 0;
      assert entries[0..] == entries;
      while index < |cacheLinkedList| && cacheLinkedList[index].path != path
        invariant index <= |cacheLinkedList|
        invariant IndexOf(entries, path) == index + IndexOf(entries[index..], path)
      {
        assert entries[index..][1..] == entries[index + 1..];
        index := index + 1;
      }
    }

    method SumOfLengths() returns (sum: int)
      requires Valid()
      ensures sum == Total(entries, fs.disk)
    {
      sum := 0;
      for i := 0 to |cacheLinkedList|
        invariant sum == Total(entries[..i], fs.disk)
      {
        assert entries[..i + 1][..i] == entries[..i];
        sum := sum + Length(fs.disk, cacheLinkedList[i].path);
      }
      assert entries[..|entries|] == entries;
    }

    method LeastRecentClosed() returns (index: int)
      requires Valid()
      ensures index == Victim(entries)
    {
      index := |cacheLinkedList| - 1;
      assert entries[..index + 1] == entries;
      while index >= 0 && cacheLinkedList[index].isOpen > 0
        invariant -1 <= index < |cacheLinkedList|
        invariant Victim(entries) == Victim(entries[..index + 1])
      {
        assert entries[..index + 1][..index] == entries[..index];
        index := index - 1;
      }
    }

    method RemoveAt(index: nat) returns (removed: CacheFile)
      requires Valid() && index < |cacheLinkedList|
      modifies this, fs
      ensures Valid() && removed == old(cacheLinkedList[index])
      ensures cacheLinkedList == Without(old(cacheLinkedList), index)
      ensures Abs() == old(Abs()).(list := Without(old(entries), index), disk := old(fs.disk) - {removed.path},
                                   size := old(size) - Length(old(fs.disk), removed.path))
    {
      removed := cacheLinkedList[index];
      cacheLinkedList := Without(cacheLinkedList, index);
      entries := Without(entries, index);
      size := size - Length(fs.disk, removed.path);
      fs.Delete(removed.path);
    }

    /** The eviction loop of addCache; what it has deleted stays deleted. */
    method MakeRoom(data: nat) returns (room: bool)
      requires Valid()
      modifies this, fs
      ensures Valid() && (Abs(), room) == Evict(old(Abs()), data)
      ensures forall f :: f in cacheLinkedList ==> f in old(cacheLinkedList)
    {
      hide Victim;
      while size + data > capacity
        invariant Valid()
        invariant Evict(Abs(), data) == Evict(old(Abs()), data)
        invariant forall f :: f in cacheLinkedList ==> f in old(cacheLinkedList)
        decreases |cacheLinkedList|
      {
        ghost var s := Abs();
        VictimInRange(entries);
        var index := LeastRecentClosed();
        if index < 0 {
          return false;
        }
        WithoutMembers(cacheLinkedList, index);
        var toRemove := RemoveAt(index);
        assert EvictOne(s) == (Abs(), true);
      }
      return true;
    }

    /** The duplicate branch: the same object is counted once more and linked a
        second time, so every place that holds it sees the new count. */
    method LinkAgain(index: nat)
      requires Valid() && index < |cacheLinkedList|
      modifies this, cacheLinkedList[index]
      ensures Valid() && size == old(size)
      ensures cacheLinkedList == [old(cacheLinkedList)[index]] + old(cacheLinkedList)
      ensures entries[0] == Counted(old(entries)[index], 1)
      ensures UniquePaths(old(entries)) ==> entries == [entries[0]] + old(entries)[index := entries[0]]
    {
      var temp := cacheLinkedList[index];
      temp.TurnOn();
      ghost var list, before, v := [temp] + cacheLinkedList, entries, temp.Value();
      cacheLinkedList := [temp] + cacheLinkedList;
      entries := seq(|list|, i requires 0 <= i < |list| => if i == 0 || list[i] == temp then v else before[i - 1]);
    }

    method LinkNew(cacheFile: CacheFile) returns (code: int)
      requires Valid()
      modifies this, fs
      ensures Valid() && (Abs(), code == 0) == AddNew(old(Abs()), cacheFile.Value())
      ensures code == 0 || code == -1
      ensures forall f :: f in cacheLinkedList ==> f == cacheFile || f in old(cacheLinkedList)
    {
      hide Evict, Total;
      size := SumOfLengths();
      var data := Length(fs.disk, cacheFile.path);
      var room := MakeRoom(data);
      if !room {
        return -1;
      }
      cacheLinkedList := [cacheFile] + cacheLinkedList;
      entries := [cacheFile.Value()] + entries;
      size := size + data;
      fs.Create(cacheFile.path);
      return 0;
    }

    method AddCache(cacheFile: CacheFile) returns (code: int)
      requires Valid()
      modifies this, fs, cacheLinkedList
      ensures Valid()
      ensures var i := IndexOf(old(entries), cacheFile.path);
              if i < |old(entries)| then
                && code == 0 && size == old(size) && fs.disk == old(fs.disk)
                && cacheLinkedList == [old(cacheLinkedList)[i]] + old(cacheLinkedList)
                && entries[0] == Counted(old(entries)[i], 1)
                && (UniquePaths(old(entries)) ==> Abs() == Added(old(Abs()), cacheFile.Value()).0)
              else
                && (Abs(), code == 0) == AddNew(old(Abs()), cacheFile.Value())
                && (code == 0 || code == -1)
                && (forall f :: f in cacheLinkedList ==> f == cacheFile || f in old(cacheLinkedList))
                && (forall f :: f in old(cacheLinkedList) ==> unchanged(f)) && unchanged(cacheFile)
    {
      var index := Find(cacheFile.path);
      if index < |cacheLinkedList| {
        LinkAgain(index);
        return 0;
      }
      code := LinkNew(cacheFile);
    }

    method Unlink(index: nat, byteAdded: int) returns (removed: CacheFile)
      requires Valid() && index < |cacheLinkedList|
      modifies this
      ensures Valid() && removed == old(cacheLinkedList[index]) && removed.Value() == old(entries)[index]
      ensures cacheLinkedList == Without(old(cacheLinkedList), index)
      ensures entries == Without(old(entries), index)
    {
      removed := cacheLinkedList[index];
      cacheLinkedList := Without(cacheLinkedList, index);
      entries := Without(entries, index);
      size := size - Length(fs.disk, removed.path) + byteAdded;
    }

    /** The result of addCache is ignored: a file that no longer fits is lost. */
    method UpdateCache(path: string, byteAdded: int) returns (code: int)
      requires Valid()
      modifies this, fs, cacheLinkedList
      ensures Valid()
      ensures UniquePaths(old(entries)) ==>
                && (Abs(), code) == Touch(old(Abs()), path)
                && (forall f :: f in cacheLinkedList ==> f in old(cacheLinkedList))
                && (forall f :: f in old(cacheLinkedList) ==> unchanged(f))
    {
      hide AddNew, Evict;
      var index := Find(path);
      IndexOfFirst(entries, path);
      if index >= |cacheLinkedList| {
        return -1;
      }
      ghost var s := Abs();
      WithoutMembers(cacheLinkedList, index);
      var toUpdate := Unlink(index, byteAdded);
      if UniquePaths(s.list) {
        WithoutUnique(s.list, index);
        AddNewIgnoresSize(s.(list := entries), size, toUpdate.Value());
        assert IndexOf(entries, toUpdate.path) == |entries|;
        assert Abs() == s.(list := entries, size := size);
      }
      var ignored := AddCache(toUpdate);
      return 0;
    }

    method DeleteCache(path: string) returns (code: int)
      requires Valid()
      modifies this, fs
      ensures Valid() && (Abs(), code) == Delete(old(Abs()), path)
      ensures forall f :: f in cacheLinkedList ==> f in old(cacheLinkedList)
    {
      var index := Find(path);
      IndexOfFirst(entries, path);
      if index >= |cacheLinkedList| {
        return -1;
      }
      var toRemove := RemoveAt(index);
      return 0;
    }

    method FindCacheFile(path: string) returns (found: CacheFile?)
      requires Valid()
      ensures found == null <==> IndexOf(entries, path) == |entries|
      ensures found != null ==>
                && IndexOf(entries, path) < |cacheLinkedList|
                && found == cacheLinkedList[IndexOf(entries, path)] && found.path == path
    {
      var index := Find(path);
      IndexOfFirst(entries, path);
      if index >= |cacheLinkedList| {
        return null;
      }
      return cacheLinkedList[index];
    }
  }
}
