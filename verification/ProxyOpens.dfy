/** Opening a file: every successful open keeps what holds of a proxy. */
module ProxyOpens {
  import opened Files
  import opened LruCache
  import opened LruTheorems
  import opened ChunkTransfer
  import opened PathNames
  import opened ProxyModel
  import opened ProxyLinkage
  import opened ProxySafety

  // ----- open -----

  lemma KnownAdvances(svc: Service, path: string)
    ensures Advances(svc, Known(svc, path))
    ensures Advances(svc, Known(svc.(disk := Created(svc.disk, path)), path))
  {
  }

  lemma AdvancesOn(a: Service, b: Service, c: Service)
    requires Advances(a, b) && Advances(b, c)
    ensures Advances(a, c)
  {
  }

  /** One more reference on a copy that is already current. */
  lemma OpenCurrent(paths: set<string>, care: Care, svc: Service, p: Proxy, path: string)
    requires ProxyOk(paths, p) && Copies(paths, care, svc, p.folder, p.store.list, p.store.disk)
    requires path in paths && Found(p.store.list, CachePath(p.folder, path))
    ensures var s := Count(p.store, CachePath(p.folder, path), 1);
            && Good(paths, care, svc, p.folder, p.descs[p.next := Desc(path, true, 0)], s.list, s.disk)
            && Consistent(s)
  {
    var name := CachePath(p.folder, path);
    var s := Count(p.store, name, 1);
    CountFacts(p.store, name, 1);
    var held := p.store.list[IndexOf(p.store.list, name)];
    var e := Counted(held, 1);
    forall x ensures x in s.disk <==> Found(s.list, x) {
      ReplacedFound(p.store.list, s.list, e, x);
    }
    OpenLinked(paths, p.folder, p.descs, p.next, path, p.store.list, p.store.disk, s.list, s.disk, e);
    assert held in p.store.list;
    ReplacedCopies(paths, care, svc, p.folder, p.store.list, p.store.disk, s.list, s.disk, e);
  }

  /** `s` is `before` without the file `e.path`, which has just been written
      again with a good copy of `path`; `e` is its new entry. */
  ghost predicate Fetching(care: Care, svc: Service, folder: string, before: Store, path: string, s: Store, e: Entry) {
    && e.path == CachePath(folder, path)
    && UniquePaths(s.list) && IndexOf(s.list, e.path) == |s.list| && OnDisk(s.list, s.disk - {e.path})
    && (forall x: Entry :: x.path != e.path ==> (x in s.list <==> x in before.list))
    && e.path in s.disk && CopyOk(care, svc, path, e.version, s.disk[e.path])
    && (forall x :: x != e.path ==> Content(s.disk, x) == Content(before.disk, x))
  }

  lemma PutFetching(care: Care, svc: Service, folder: string, before: Store, path: string, s: Store, e: Entry,
                    content: Bytes)
    requires e.path == CachePath(folder, path) && CopyOk(care, svc, path, e.version, content)
    requires UniquePaths(s.list) && IndexOf(s.list, e.path) == |s.list| && OnDisk(s.list, s.disk)
    requires forall x: Entry :: x.path != e.path ==> (x in s.list <==> x in before.list)
    requires s.disk == before.disk - {e.path}
    ensures Fetching(care, svc, folder, before, path, Put(s, e.path, content), e)
  {
    assert Put(s, e.path, content).disk - {e.path} == s.disk;
  }

  lemma FetchedOnDisk(care: Care, svc: Service, folder: string, before: Store, path: string, s: Store, e: Entry)
    requires Fetching(care, svc, folder, before, path, s, e)
    ensures Replaced(before.list, [e] + s.list, e) && OnDisk([e] + s.list, s.disk)
    ensures Created(s.disk, e.path) == s.disk
  {
    HeadReplaced(before.list, s.list, e);
    HeadOnDisk(s.list, s.disk - {e.path}, e, s.disk[e.path]);
    assert (s.disk - {e.path})[e.path := s.disk[e.path]] == s.disk;
  }

  lemma FetchedCopies(paths: set<string>, care: Care, svc: Service, folder: string, before: Store, path: string,
                      s: Store, e: Entry)
    requires Fetching(care, svc, folder, before, path, s, e)
    requires Copies(paths, care, svc, folder, before.list, before.disk)
    ensures Copies(paths, care, svc, folder, [e] + s.list, s.disk)
  {
    FetchedOnDisk(care, svc, folder, before, path, s, e);
    forall q | q in paths && e.path == CachePath(folder, q)
      ensures CopyOk(care, svc, q, e.version, Content(s.disk, e.path))
    {
      CachePathInjective(folder, q, path);
    }
    ReplacedCopies(paths, care, svc, folder, before.list, before.disk, [e] + s.list, s.disk, e);
  }

  lemma FetchedLinked(paths: set<string>, care: Care, svc: Service, p: Proxy, path: string, s: Store, e: Entry)
    requires ProxyOk(paths, p) && path in paths && Fetching(care, svc, p.folder, p.store, path, s, e)
    requires e.opens == OpensOf(p.store.list, e.path) + 1
    ensures Linked(paths, p.folder, p.descs[p.next := Desc(path, true, 0)], [e] + s.list, s.disk)
  {
    FetchedOnDisk(care, svc, p.folder, p.store, path, s, e);
    OpenLinked(paths, p.folder, p.descs, p.next, path, p.store.list, p.store.disk, [e] + s.list, s.disk, e);
  }

  /** Inserting a fresh copy of the server's file for a READ reference. */
  lemma OpenFresh(paths: set<string>, care: Care, svc: Service, p: Proxy, path: string, s: Store, e: Entry)
    requires ProxyOk(paths, p) && Copies(paths, care, svc, p.folder, p.store.list, p.store.disk)
    requires path in paths && Fetching(care, svc, p.folder, p.store, path, s, e)
    requires e.opens == OpensOf(p.store.list, e.path) + 1
    requires AddNew(s, e).1
    ensures var s' := AddNew(s, e).0;
            && Good(paths, care, svc, p.folder, p.descs[p.next := Desc(path, true, 0)], s'.list, s'.disk)
            && Consistent(s')
  {
    FetchedLinked(paths, care, svc, p, path, s, e);
    FetchedCopies(paths, care, svc, p.folder, p.store, path, s, e);
    FetchedOnDisk(care, svc, p.folder, p.store, path, s, e);
    AddNewGood(paths, care, svc, p.folder, p.descs[p.next := Desc(path, true, 0)], s, e);
  }

  lemma FetchedWhole(content: Bytes)
    ensures Fetched([], content) == content
  {
    FetchedExact([], content);
  }

  lemma OpenMissGood(paths: set<string>, care: Care, svc: Service, p: Proxy, path: string, option: string)
    requires ProxyOk(paths, p) && Copies(paths, care, svc, p.folder, p.store.list, p.store.disk) && path in paths
    requires !Found(p.store.list, CachePath(p.folder, path))
    requires OpenMiss(svc, p.folder, p.store, path, option).2
    ensures var (svc', s', _) := OpenMiss(svc, p.folder, p.store, path, option);
            && Advances(svc, svc')
            && Good(paths, care, svc', p.folder, p.descs[p.next := Desc(path, true, 0)], s'.list, s'.disk)
            && Consistent(s')
  {
    var svc1 := Known(svc.(disk := Created(svc.disk, path)), path);
    KnownAdvances(svc, path);
    AdvancesCopies(paths, care, svc, svc1, p.folder, p.store.list, p.store.disk);
    var e := Entry(CachePath(p.folder, path), 1, svc1.versions[path], Mode(option));
    MissFetches(paths, care, svc1, p, path, e);
    OpenFresh(paths, care, svc1, p, path, Put(p.store, e.path, svc1.disk[path]), e);
  }

  lemma MissFetches(paths: set<string>, care: Care, svc: Service, p: Proxy, path: string, e: Entry)
    requires ProxyOk(paths, p) && path in svc.disk && path in svc.versions
    requires !Found(p.store.list, CachePath(p.folder, path))
    requires e.path == CachePath(p.folder, path) && e.version == svc.versions[path]
    ensures Fetched(Content(p.store.disk, e.path), svc.disk[path]) == svc.disk[path]
    ensures Fetching(care, svc, p.folder, p.store, path, Put(p.store, e.path, svc.disk[path]), e)
    ensures OpensOf(p.store.list, e.path) == 0
  {
    FetchedWhole(svc.disk[path]);
    FoundIndex(p.store.list, e.path);
    IndexOfFirst(p.store.list, e.path);
    assert p.store.disk - {e.path} == p.store.disk;
    PutFetching(care, svc, p.folder, p.store, path, p.store, e, svc.disk[path]);
  }

  lemma OpenHitGood(paths: set<string>, care: Care, svc: Service, p: Proxy, path: string, option: string)
    requires ProxyOk(paths, p) && Copies(paths, care, svc, p.folder, p.store.list, p.store.disk) && path in paths
    requires Found(p.store.list, CachePath(p.folder, path))
    requires IndexOf(p.store.list, CachePath(p.folder, path)) < |p.store.list|
    requires OpenHit(svc, p.folder, p.store, path, option).2
    ensures var (svc', s', _) := OpenHit(svc, p.folder, p.store, path, option);
            && Advances(svc, svc')
            && Good(paths, care, svc', p.folder, p.descs[p.next := Desc(path, true, 0)], s'.list, s'.disk)
            && Consistent(s')
  {
    hide Touch, AddNew, Delete, Count, UniquePaths, Total, NameOk, DescOk;
    var name := CachePath(p.folder, path);
    var svc1 := Known(svc, path);
    KnownAdvances(svc, path);
    AdvancesCopies(paths, care, svc, svc1, p.folder, p.store.list, p.store.disk);
    FoundIndex(p.store.list, name);
    var held := p.store.list[IndexOf(p.store.list, name)];
    if held.version == svc1.versions[path] {
      OpenCurrent(paths, care, svc1, p, path);
      TouchConsistent(paths, care, svc1, p.folder, p.descs[p.next := Desc(path, true, 0)], Count(p.store, name, 1),
                      path);
    } else {
      OpenStaleGood(paths, care, svc1, p, path, option, held.opens + 1);
    }
  }

  lemma UpdateAdvances(svc: Service, path: string, option: string)
    requires path in svc.versions && !UpdateReply(svc, path, option, 0).1.Error?
    ensures var svc' := UpdateReply(svc, path, option, 0).0;
            && Advances(svc, svc') && svc'.versions == svc.versions
            && path in svc'.disk && svc'.disk[path] == Content(svc.disk, path)
  {
  }

  /** A cached file of another version is fetched again. */
  lemma OpenStaleGood(paths: set<string>, care: Care, svc: Service, p: Proxy, path: string, option: string, opens: int)
    requires ProxyOk(paths, p) && Copies(paths, care, svc, p.folder, p.store.list, p.store.disk) && path in paths
    requires Found(p.store.list, CachePath(p.folder, path)) && path in svc.versions
    requires opens == OpensOf(p.store.list, CachePath(p.folder, path)) + 1
    requires var name := CachePath(p.folder, path);
             Refetched(svc, Count(p.store, name, 1), opens, svc.versions[path], path, option, name).2
    ensures var name := CachePath(p.folder, path);
            var (svc', s', _) := Refetched(svc, Count(p.store, name, 1), opens, svc.versions[path], path, option, name);
            && Advances(svc, svc')
            && Good(paths, care, svc', p.folder, p.descs[p.next := Desc(path, true, 0)], s'.list, s'.disk)
            && Consistent(s')
  {
    hide Touch, AddNew, Delete, Count, UniquePaths, Total, NameOk, DescOk;
    var e := Entry(CachePath(p.folder, path), opens, svc.versions[path], Mode(option));
    UpdateAdvances(svc, path, option);
    var svc' := UpdateReply(svc, path, option, 0).0;
    AdvancesCopies(paths, care, svc, svc', p.folder, p.store.list, p.store.disk);
    RefreshFetches(paths, care, svc', p, path, e);
    OpenFresh(paths, care, svc', p, path, Refreshed(svc', p, path), e);
  }

  /** The cache just before the refreshed entry is inserted. */
  function Refreshed(svc: Service, p: Proxy, path: string): Store
    requires path in svc.disk
  {
    Put(Delete(Count(p.store, CachePath(p.folder, path), 1), CachePath(p.folder, path)).0,
        CachePath(p.folder, path), svc.disk[path])
  }

  lemma RefreshFetches(paths: set<string>, care: Care, svc: Service, p: Proxy, path: string, e: Entry)
    requires ProxyOk(paths, p) && path in svc.disk && path in svc.versions
    requires Found(p.store.list, CachePath(p.folder, path))
    requires e.path == CachePath(p.folder, path) && e.version == svc.versions[path]
    ensures Fetched(Content(Delete(Count(p.store, e.path, 1), e.path).0.disk, e.path), svc.disk[path]) == svc.disk[path]
    ensures Fetching(care, svc, p.folder, p.store, path, Refreshed(svc, p, path), e)
  {
    CountDelete(p.store, e.path, 1);
    FetchedWhole(svc.disk[path]);
    PutFetching(care, svc, p.folder, p.store, path, Delete(Count(p.store, e.path, 1), e.path).0, e, svc.disk[path]);
  }

  lemma CountDelete(s: Store, name: string, change: int)
    requires UniquePaths(s.list) && Found(s.list, name) && OnDisk(s.list, s.disk)
    ensures var s' := Delete(Count(s, name, change), name).0;
            && UniquePaths(s'.list) && IndexOf(s'.list, name) == |s'.list|
            && (forall x: Entry :: x.path != name ==> (x in s'.list <==> x in s.list))
            && s'.disk == s.disk - {name} && OnDisk(s'.list, s'.disk)
  {
    var counted := Count(s, name, change);
    CountFacts(s, name, change);
    DeleteFacts(counted, name);
    forall x ensures x in counted.disk <==> Found(counted.list, x) {
      ReplacedFound(s.list, counted.list, Counted(s.list[IndexOf(s.list, name)], change), x);
    }
    DeleteOnDisk(counted, name);
  }

  /** getLocal: a READ reference becomes one with a private copy. */
  lemma CopyLocalGood(paths: set<string>, care: Care, svc: Service, folder: string, descs: map<int, Desc>, s: Store,
                      path: string, fd: int)
    requires Good(paths, care, svc, folder, descs, s.list, s.disk) && Consistent(s)
    requires fd in descs && descs[fd] == Desc(path, true, 0)
    requires CopyLocal(s, CachePath(folder, path), LocalPath(folder, path, fd)).1
    ensures var s' := CopyLocal(s, CachePath(folder, path), LocalPath(folder, path, fd)).0;
            && Good(paths, care, svc, folder, descs[fd := Desc(path, false, 0)], s'.list, s'.disk)
            && Consistent(s')
  {
    var name, e := CachePath(folder, path), Entry(LocalPath(folder, path, fd), 1, 1, "rw");
    assert DescOk(paths, folder, s.list, descs[fd], fd);
    var copied := Put(s, e.path, s.disk[name]);
    CopyLocalPlaced(paths, care, svc, folder, descs, s, path, fd, copied, e);
    AddNewGood(paths, care, svc, folder, descs[fd := Desc(path, false, 0)], copied, e);
  }

  lemma CopyLocalPlaced(paths: set<string>, care: Care, svc: Service, folder: string, descs: map<int, Desc>, s: Store,
                        path: string, fd: int, copied: Store, e: Entry)
    requires Good(paths, care, svc, folder, descs, s.list, s.disk)
    requires fd in descs && descs[fd] == Desc(path, true, 0)
    requires e.path == LocalPath(folder, path, fd) && e.opens == 1
    requires exists content :: copied == Put(s, e.path, content)
    ensures IndexOf(copied.list, e.path) == |copied.list| && Created(copied.disk, e.path) == copied.disk
    ensures Good(paths, care, svc, folder, descs[fd := Desc(path, false, 0)], [e] + copied.list, copied.disk)
  {
    assert DescOk(paths, folder, s.list, descs[fd], fd);
    LocalFresh(paths, folder, descs, s.list, s.disk, path, fd);
    FoundIndex(s.list, e.path);
    IndexOfFirst(s.list, e.path);
    HeadReplaced(s.list, s.list, e);
    HeadOnDisk(s.list, s.disk, e, copied.disk[e.path]);
    assert s.disk[e.path := copied.disk[e.path]] == copied.disk;
    LocalLinked(paths, folder, descs, fd, 0, s.list, s.disk, e, [e] + s.list, copied.disk);
    LocalIsNoCopy(paths, folder, path, fd);
    ReplacedCopies(paths, care, svc, folder, s.list, s.disk, [e] + s.list, copied.disk, e);
  }

  lemma LocalIsNoCopy(paths: set<string>, folder: string, path: string, fd: int)
    requires Apart(paths) && path in paths && fd >= FIRST_FD
    ensures forall q :: q in paths ==> CachePath(folder, q) != LocalPath(folder, path, fd)
  {
    forall q | q in paths ensures CachePath(folder, q) != LocalPath(folder, path, fd) {
      NamesDistinct(folder, q, path, fd, fd);
    }
  }

  lemma OpenCachedGood(paths: set<string>, care: Care, svc: Service, p: Proxy, path: string, option: string)
    requires ProxyOk(paths, p) && Copies(paths, care, svc, p.folder, p.store.list, p.store.disk) && path in paths
    requires OpenCached(svc, p.folder, p.store, path, option).2
    ensures var r := OpenCached(svc, p.folder, p.store, path, option);
            && Advances(svc, r.0)
            && Good(paths, care, r.0, p.folder, p.descs[p.next := Desc(path, true, 0)], r.1.list, r.1.disk)
            && Consistent(r.1)
  {
    FoundIndex(p.store.list, CachePath(p.folder, path));
    if IndexOf(p.store.list, CachePath(p.folder, path)) < |p.store.list| {
      OpenHitGood(paths, care, svc, p, path, option);
    } else {
      OpenMissGood(paths, care, svc, p, path, option);
    }
  }

  /** What every successful operation leaves behind. */
  ghost predicate Keeps(paths: set<string>, care: Care, svc: Service, svc': Service, p: Proxy, p': Proxy) {
    && Advances(svc, svc') && ProxyOk(paths, p') && p'.folder == p.folder
    && Copies(paths, care, svc', p.folder, p'.store.list, p'.store.disk)
  }

  function Registered(p: Proxy, s: Store, d: Desc): Proxy {
    p.(store := s, next := p.next + 1, descs := p.descs[p.next := d])
  }

  lemma RegisterKeeps(paths: set<string>, care: Care, svc: Service, svc': Service, p: Proxy, s: Store, d: Desc)
    requires ProxyOk(paths, p) && Consistent(s) && Advances(svc, svc')
    requires Good(paths, care, svc', p.folder, p.descs[p.next := d], s.list, s.disk)
    ensures Keeps(paths, care, svc, svc', p, Registered(p, s, d))
  {
  }

  lemma OpenReadKeeps(paths: set<string>, care: Care, svc: Service, p: Proxy, path: string)
    requires ProxyOk(paths, p) && Copies(paths, care, svc, p.folder, p.store.list, p.store.disk) && path in paths
    requires OpenFile(svc, p, path, "READ").2
    ensures Keeps(paths, care, svc, OpenFile(svc, p, path, "READ").0, p, OpenFile(svc, p, path, "READ").1)
  {
    var r := OpenCached(svc, p.folder, p.store, path, "READ");
    OpenCachedGood(paths, care, svc, p, path, "READ");
    RegisterKeeps(paths, care, svc, r.0, p, r.1, Desc(path, true, 0));
  }

  lemma OpenFileUnfolds(svc: Service, p: Proxy, path: string, option: string)
    requires option != "READ" && OpenFile(svc, p, path, option).2
    ensures var r := OpenCached(svc, p.folder, p.store, path, option);
            var copied := CopyLocal(r.1, CachePath(p.folder, path), LocalPath(p.folder, path, p.next));
            && r.2 && copied.1
            && OpenFile(svc, p, path, option) == (r.0, Registered(p, copied.0, Desc(path, false, 0)), true)
  {
  }

  lemma OpenWriteKeeps(paths: set<string>, care: Care, svc: Service, p: Proxy, path: string, option: string)
    requires ProxyOk(paths, p) && Copies(paths, care, svc, p.folder, p.store.list, p.store.disk) && path in paths
    requires option != "READ" && OpenFile(svc, p, path, option).2
    ensures Keeps(paths, care, svc, OpenFile(svc, p, path, option).0, p, OpenFile(svc, p, path, option).1)
  {
    OpenFileUnfolds(svc, p, path, option);
    OpenCachedGood(paths, care, svc, p, path, option);
    var r := OpenCached(svc, p.folder, p.store, path, option);
    CopyRegistered(paths, care, svc, r.0, p, r.1, path);
  }

  lemma CopyRegistered(paths: set<string>, care: Care, svc: Service, svc': Service, p: Proxy, s: Store, path: string)
    requires ProxyOk(paths, p) && Consistent(s) && Advances(svc, svc')
    requires Good(paths, care, svc', p.folder, p.descs[p.next := Desc(path, true, 0)], s.list, s.disk)
    requires CopyLocal(s, CachePath(p.folder, path), LocalPath(p.folder, path, p.next)).1
    ensures Keeps(paths, care, svc, svc', p,
                  Registered(p, CopyLocal(s, CachePath(p.folder, path), LocalPath(p.folder, path, p.next)).0,
                             Desc(path, false, 0)))
  {
    var copied := CopyLocal(s, CachePath(p.folder, path), LocalPath(p.folder, path, p.next)).0;
    CopyLocalGood(paths, care, svc', p.folder, p.descs[p.next := Desc(path, true, 0)], s, path, p.next);
    Overwrite(p.descs, p.next, Desc(path, true, 0), Desc(path, false, 0));
    RegisterKeeps(paths, care, svc, svc', p, copied, Desc(path, false, 0));
  }

  lemma Overwrite(descs: map<int, Desc>, fd: int, d: Desc, d': Desc)
    ensures descs[fd := d][fd := d'] == descs[fd := d']
  {
  }

  // ----- the server's side -----

  /** A successful open never takes back a version or changes a file. */
  lemma OpenAdvances(svc: Service, p: Proxy, path: string, option: string)
    requires OpenFile(svc, p, path, option).2
    ensures Advances(svc, OpenFile(svc, p, path, option).0)
  {
    hide Added, Touch, Delete, Count, CopyLocal;
    KnownAdvances(svc, path);
    var name := CachePath(p.folder, path);
    var svc1 := Known(svc, path);
    var i := IndexOf(p.store.list, name);
    if i < |p.store.list| && p.store.list[i].version != svc1.versions[path] {
      UpdateAdvances(svc1, path, option);
      AdvancesOn(svc, svc1, UpdateReply(svc1, path, option, 0).0);
    }
  }
}
