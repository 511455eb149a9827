/** What holds of a proxy at all times: consistent lists, linked descriptors, and
    copies that agree with the server as far as its users were careful; and the
    single cache steps that keep it. */
module ProxySafety {
  import opened Files
  import opened LruCache
  import opened LruTheorems
  import opened ChunkTransfer
  import opened PathNames
  import opened ProxyModel
  import opened ProxyLinkage

  // ----- agreement with the server -----

  /** What is asked of a proxy's calls: that a write's entries are kept; that
      also a closing writer's path survives being cut out of its file's name; or
      that the writer is also at least as long as the server's file. */
  datatype Care = Roomy | Clean | Careful

  /** Whether the copies are followed, and not just the bookkeeping. */
  predicate Tracks(care: Care) {
    care.Clean? || care.Careful?
  }

  /** A copy is never newer than the server's file; one of the same version is
      a prefix of it, and careful runs keep it equal. */
  ghost predicate CopyOk(care: Care, svc: Service, q: string, version: int, copy: Bytes) {
    !Tracks(care) ||
    (&& q in svc.disk && q in svc.versions && version <= svc.versions[q]
     && (version == svc.versions[q] ==> copy <= svc.disk[q] && (care.Careful? ==> copy == svc.disk[q])))
  }

  ghost predicate Copies(paths: set<string>, care: Care, svc: Service, folder: string, list: seq<Entry>, disk: Disk) {
    forall e, q {:trigger CopyOk(care, svc, q, e.version, Content(disk, e.path))} ::
      e in list && q in paths && e.path == CachePath(folder, q) ==>
        CopyOk(care, svc, q, e.version, Content(disk, e.path))
  }

  /** Between two states of the server a file changes only with its version. */
  ghost predicate Advances(svc: Service, svc': Service) {
    forall q :: q in svc.disk && q in svc.versions ==>
      && q in svc'.disk && q in svc'.versions && svc.versions[q] <= svc'.versions[q]
      && (svc.versions[q] == svc'.versions[q] ==> svc.disk[q] == svc'.disk[q])
  }

  lemma AdvancesCopies(paths: set<string>, care: Care, svc: Service, svc': Service, folder: string, list: seq<Entry>,
                       disk: Disk)
    requires Copies(paths, care, svc, folder, list, disk) && Advances(svc, svc')
    ensures Copies(paths, care, svc', folder, list, disk)
  {
    forall e, q | e in list && q in paths && e.path == CachePath(folder, q)
      ensures CopyOk(care, svc', q, e.version, Content(disk, e.path))
    {
      assert CopyOk(care, svc, q, e.version, Content(disk, e.path));
    }
  }

  lemma EvictedCopies(paths: set<string>, care: Care, svc: Service, folder: string, list: seq<Entry>, disk: Disk,
                      list': seq<Entry>, disk': Disk)
    requires Copies(paths, care, svc, folder, list, disk) && Evicted(list, disk, list', disk')
    ensures Copies(paths, care, svc, folder, list', disk')
  {
    forall e | e in list' ensures Content(disk', e.path) == Content(disk, e.path) {
      assert Found(list', e.path);
    }
  }

  lemma ReplacedCopies(paths: set<string>, care: Care, svc: Service, folder: string, list: seq<Entry>, disk: Disk,
                       list': seq<Entry>, disk': Disk, e: Entry)
    requires Copies(paths, care, svc, folder, list, disk) && Replaced(list, list', e)
    requires forall name :: name != e.path ==> Content(disk', name) == Content(disk, name)
    requires forall q :: q in paths && e.path == CachePath(folder, q) ==>
               CopyOk(care, svc, q, e.version, Content(disk', e.path))
    ensures Copies(paths, care, svc, folder, list', disk')
  {
    forall x, q | x in list' && q in paths && x.path == CachePath(folder, q)
      ensures CopyOk(care, svc, q, x.version, Content(disk', x.path))
    {
      ReplacedEntry(list, list', e, x);
    }
  }

  // ----- the state of one proxy's cache -----

  /** Everything the operations keep, for a list and a disk. */
  ghost predicate Good(paths: set<string>, care: Care, svc: Service, folder: string, descs: map<int, Desc>,
                       list: seq<Entry>, disk: Disk) {
    Linked(paths, folder, descs, list, disk) && Copies(paths, care, svc, folder, list, disk)
  }

  lemma AddNewGood(paths: set<string>, care: Care, svc: Service, folder: string, descs: map<int, Desc>, s: Store,
                   e: Entry)
    requires UniquePaths(s.list) && IndexOf(s.list, e.path) == |s.list| && AddNew(s, e).1
    requires Good(paths, care, svc, folder, descs, [e] + s.list, Created(s.disk, e.path))
    ensures Good(paths, care, svc, folder, descs, AddNew(s, e).0.list, AddNew(s, e).0.disk)
    ensures Consistent(AddNew(s, e).0) && e in AddNew(s, e).0.list
    ensures forall name :: name in AddNew(s, e).0.disk ==>
              AddNew(s, e).0.disk[name] == Content(s.disk, name)
  {
    hide Linked, Copies, Evicted, Needed, Recent, Dropped;
    var n := Needed(s, Length(s.disk, e.path), 0);
    AddNewExact(s, e);
    HeadEvicted(s, e, n);
    AddNewLinked(paths, folder, descs, s, e);
    EvictedCopies(paths, care, svc, folder, [e] + s.list, Created(s.disk, e.path),
                  [e] + Recent(s.list, n), Created(s.disk - Dropped(s.list, n), e.path));
    DroppedElsewhere(s.list, n, e.path);
  }

  /** Reordering the entries changes nothing. */
  lemma SameEntriesGood(paths: set<string>, care: Care, svc: Service, folder: string, descs: map<int, Desc>,
                        list: seq<Entry>, list': seq<Entry>, disk: Disk)
    requires Good(paths, care, svc, folder, descs, list, disk)
    requires UniquePaths(list') && forall x :: x in list' <==> x in list
    ensures Good(paths, care, svc, folder, descs, list', disk)
  {
    forall name ensures Found(list', name) <==> Found(list, name) {
    }
    forall fd | fd in descs ensures DescOk(paths, folder, list', descs[fd], fd) {
      assert DescOk(paths, folder, list, descs[fd], fd);
    }
  }

  lemma HeadAgain(list: seq<Entry>, i: nat)
    requires UniquePaths(list) && i < |list|
    ensures UniquePaths([list[i]] + Without(list, i))
    ensures forall x :: x in [list[i]] + Without(list, i) <==> x in list
  {
    WithoutUnique(list, i);
    WithoutMembers(list, i);
    IndexOfFirst(Without(list, i), list[i].path);
  }

  lemma TouchUnfolds(s: Store, name: string)
    requires UniquePaths(s.list)
    ensures !Found(s.list, name) ==> Touch(s, name) == (s, -1)
    ensures Found(s.list, name) ==>
              && IndexOf(s.list, name) < |s.list| && s.list[IndexOf(s.list, name)].path == name
              && Touch(s, name) == (AddNew(s.(list := Without(s.list, IndexOf(s.list, name))),
                                           s.list[IndexOf(s.list, name)]).0, 0)
  {
    FoundIndex(s.list, name);
    IndexOfFirst(s.list, name);
  }

  /** updateCache on an entry that fits keeps everything. */
  lemma TouchGood(paths: set<string>, care: Care, svc: Service, folder: string, descs: map<int, Desc>, s: Store,
                  name: string)
    requires Good(paths, care, svc, folder, descs, s.list, s.disk) && Found(s.list, name)
    requires Found(Touch(s, name).0.list, name)
    ensures Good(paths, care, svc, folder, descs, Touch(s, name).0.list, Touch(s, name).0.disk)
    ensures Consistent(Touch(s, name).0)
  {
    TouchUnfolds(s, name);
    var i := IndexOf(s.list, name);
    var e, s1 := s.list[i], s.(list := Without(s.list, i));
    WithoutUnique(s.list, i);
    HeadAgain(s.list, i);
    AddNewFound(s1, e);
    FoundIndex(AddNew(s1, e).0.list, name);
    SameEntriesGood(paths, care, svc, folder, descs, s.list, [e] + s1.list, s.disk);
    assert Created(s.disk, name) == s.disk;
    AddNewGood(paths, care, svc, folder, descs, s1, e);
  }

  lemma TouchFits(s: Store, name: string)
    requires UniquePaths(s.list) && Total(s.list, s.disk) <= s.capacity && Found(s.list, name)
    ensures Touch(s, name).1 == 0 && Found(Touch(s, name).0.list, name)
    ensures forall other :: Found(s.list, other) ==> Found(Touch(s, name).0.list, other)
  {
    TouchUnfolds(s, name);
    TouchExact(s, name);
    var i := IndexOf(s.list, name);
    HeadAgain(s.list, i);
    var list' := Touch(s, name).0.list;
    assert list' == [s.list[i]] + Without(s.list, i);
    assert s.list[i] in list';
  }

  /** Without growth every touched entry fits. */
  lemma TouchConsistent(paths: set<string>, care: Care, svc: Service, folder: string, descs: map<int, Desc>, s: Store,
                        name: string)
    requires Good(paths, care, svc, folder, descs, s.list, s.disk) && Consistent(s)
    ensures Good(paths, care, svc, folder, descs, Touch(s, name).0.list, Touch(s, name).0.disk)
    ensures Consistent(Touch(s, name).0)
    ensures Touch(s, name).1 == 0 <==> Found(s.list, name)
  {
    TouchUnfolds(s, name);
    if Found(s.list, name) {
      TouchFits(s, name);
      TouchGood(paths, care, svc, folder, descs, s, name);
    }
  }

  // ----- counting a reference -----

  lemma {:induction false} TotalSamePaths(list: seq<Entry>, list': seq<Entry>, disk: Disk)
    requires |list| == |list'| && forall i :: 0 <= i < |list| ==> list[i].path == list'[i].path
    ensures Total(list, disk) == Total(list', disk)
  {
    if list != [] {
      TotalSamePaths(list[..|list| - 1], list'[..|list'| - 1], disk);
    }
  }

  lemma CountFacts(s: Store, name: string, change: int)
    requires UniquePaths(s.list) && Found(s.list, name)
    ensures IndexOf(s.list, name) < |s.list|
    ensures var e := Counted(s.list[IndexOf(s.list, name)], change);
            var s' := Count(s, name, change);
            && e.path == name && e.opens == OpensOf(s.list, name) + change
            && Replaced(s.list, s'.list, e)
            && s' == s.(list := s'.list) && Total(s'.list, s.disk) == Total(s.list, s.disk)
            && Found(s'.list, name)
  {
    FoundIndex(s.list, name);
    var i := IndexOf(s.list, name);
    var e, list' := Counted(s.list[i], change), Count(s, name, change).list;
    TotalSamePaths(s.list, list', s.disk);
    assert list'[i] == e;
    forall x: Entry | x.path != name ensures x in s.list <==> x in list' {
      if x in s.list {
        var j :| 0 <= j < |s.list| && s.list[j] == x;
        assert list'[j] == x;
      }
      if x in list' {
        var j :| 0 <= j < |list'| && list'[j] == x;
        assert s.list[j] == x;
      }
    }
  }

  lemma DeleteFacts(s: Store, name: string)
    requires UniquePaths(s.list) && Found(s.list, name)
    ensures Delete(s, name).1 == 0
    ensures var s' := Delete(s, name).0;
            && UniquePaths(s'.list) && IndexOf(s'.list, name) == |s'.list|
            && (forall x :: x in s'.list <==> x in s.list && x.path != name)
            && s'.disk == s.disk - {name} && s'.capacity == s.capacity
  {
    FoundIndex(s.list, name);
    var i := IndexOf(s.list, name);
    WithoutUnique(s.list, i);
    WithoutMembers(s.list, i);
    IndexOfFirst(Without(s.list, i), name);
  }

  lemma DeleteOnDisk(s: Store, name: string)
    requires UniquePaths(s.list) && Found(s.list, name) && OnDisk(s.list, s.disk)
    ensures OnDisk(Delete(s, name).0.list, Delete(s, name).0.disk)
  {
    DeleteFacts(s, name);
    var s' := Delete(s, name).0;
    forall x ensures x in s'.disk <==> Found(s'.list, x) {
      StillFound(s.list, s'.list, name, x);
    }
  }

  /** A new head for the entries that remain. */
  lemma HeadReplaced(list: seq<Entry>, rest: seq<Entry>, e: Entry)
    requires UniquePaths(rest) && IndexOf(rest, e.path) == |rest|
    requires forall x: Entry :: x.path != e.path ==> (x in rest <==> x in list)
    ensures Replaced(list, [e] + rest, e)
  {
    var list' := [e] + rest;
    IndexOfFirst(rest, e.path);
    assert list'[0] == e && forall i :: 0 < i < |list'| ==> list'[i] == rest[i - 1];
    assert forall x :: x in list' <==> x == e || x in rest;
  }

  lemma HeadOnDisk(rest: seq<Entry>, disk: Disk, e: Entry, content: Bytes)
    requires OnDisk(rest, disk)
    ensures OnDisk([e] + rest, disk[e.path := content])
  {
    forall name ensures name in disk[e.path := content] <==> Found([e] + rest, name) {
      FoundHead(e, rest, name);
    }
  }
}
