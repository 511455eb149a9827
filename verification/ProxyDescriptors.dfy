/** Operations on an open descriptor: closing, reading, seeking and writing keep
    what holds of a proxy, and where an upload goes. */
module ProxyDescriptors {
  import opened Files
  import opened LruCache
  import opened LruTheorems
  import opened ChunkTransfer
  import opened PathNames
  import opened ProxyModel
  import opened ProxyLinkage
  import opened ProxySafety
  import opened ProxyOpens

  // ----- close -----

  lemma CloseReadKeeps(paths: set<string>, care: Care, svc: Service, p: Proxy, fd: int)
    requires ProxyOk(paths, p) && Copies(paths, care, svc, p.folder, p.store.list, p.store.disk)
    requires fd in p.descs && p.descs[fd].readOnly
    ensures CloseFile(svc, p, fd).2
    ensures Keeps(paths, care, svc, CloseFile(svc, p, fd).0, p, CloseFile(svc, p, fd).1)
  {
    var name := CachePath(p.folder, p.descs[fd].path);
    var s := Count(p.store, name, -1);
    assert DescOk(paths, p.folder, p.store.list, p.descs[fd], fd);
    CountFacts(p.store, name, -1);
    var e := Counted(p.store.list[IndexOf(p.store.list, name)], -1);
    forall x ensures x in s.disk <==> Found(s.list, x) {
      ReplacedFound(p.store.list, s.list, e, x);
    }
    CloseLinked(paths, p.folder, p.descs, fd, p.store.list, p.store.disk, s.list, s.disk, e);
    assert p.store.list[IndexOf(p.store.list, name)] in p.store.list;
    ReplacedCopies(paths, care, svc, p.folder, p.store.list, p.store.disk, s.list, s.disk, e);
  }

  lemma PiecesPositive(n: nat)
    ensures Pieces(n) >= 1
  {
  }

  /** An upload advances the server; what was uploaded is a good copy, equal to
      the server's file exactly when it is no shorter than the file was. */
  lemma UploadAdvances(svc: Service, path: string, content: Bytes)
    requires path in svc.disk && path in svc.versions
    ensures var svc' := Uploaded(svc, path, content).0;
            && Uploaded(svc, path, content).1 && Advances(svc, svc')
            && svc.versions[path] < svc'.versions[path]
            && content <= svc'.disk[path]
            && (content == svc'.disk[path] <==> |svc.disk[path]| <= |content|)
  {
    PiecesPositive(|content|);
    UploadKeepsTail(svc.disk[path], content);
  }

  /** Deleting the private copy: the descriptor is now like a READ one. */
  lemma LocalDeleted(paths: set<string>, care: Care, svc: Service, p: Proxy, fd: int)
    requires ProxyOk(paths, p) && Copies(paths, care, svc, p.folder, p.store.list, p.store.disk)
    requires fd in p.descs && !p.descs[fd].readOnly
    ensures var s := Delete(p.store, LocalPath(p.folder, p.descs[fd].path, fd)).0;
            && Delete(p.store, LocalPath(p.folder, p.descs[fd].path, fd)).1 == 0
            && Good(paths, care, svc, p.folder, p.descs[fd := p.descs[fd].(readOnly := true)], s.list, s.disk)
            && s.capacity == p.store.capacity
  {
    var local := LocalPath(p.folder, p.descs[fd].path, fd);
    var s := Delete(p.store, local).0;
    assert DescOk(paths, p.folder, p.store.list, p.descs[fd], fd);
    DeleteFacts(p.store, local);
    DeleteOnDisk(p.store, local);
    LocalGone(paths, p.folder, p.descs, fd, p.store.list, p.store.disk, s.list, s.disk);
    forall e, q | e in s.list && q in paths && e.path == CachePath(p.folder, q)
      ensures CopyOk(care, svc, q, e.version, Content(s.disk, e.path))
    {
      assert Content(s.disk, e.path) == Content(p.store.disk, e.path);
    }
  }

  function RebuiltEntry(s: Store, name: string, version: int): Entry
    requires IndexOf(s.list, name) < |s.list|
  {
    var held := s.list[IndexOf(s.list, name)];
    Entry(name, held.opens - 1, version, held.option)
  }

  function Emptied(s: Store, name: string, content: Bytes): Store {
    Put(Delete(Count(s, name, -1), name).0, name, content)
  }

  lemma RebuiltFetching(care: Care, svc: Service, folder: string, s: Store, path: string, content: Bytes, version: int)
    requires UniquePaths(s.list) && OnDisk(s.list, s.disk) && CopyOk(care, svc, path, version, content)
    requires IndexOf(s.list, CachePath(folder, path)) < |s.list|
    ensures var name := CachePath(folder, path);
            Fetching(care, svc, folder, s, path, Emptied(s, name, content), RebuiltEntry(s, name, version))
  {
    var name := CachePath(folder, path);
    FoundIndex(s.list, name);
    CountDelete(s, name, -1);
    PutFetching(care, svc, folder, s, path, Delete(Count(s, name, -1), name).0, RebuiltEntry(s, name, version),
                content);
  }

  /** Rebuilding the cached file from the uploaded bytes. */
  lemma RebuiltGood(paths: set<string>, care: Care, svc: Service, folder: string, descs: map<int, Desc>, fd: int,
                    s: Store, content: Bytes, version: int)
    requires Good(paths, care, svc, folder, descs, s.list, s.disk) && fd in descs && descs[fd].readOnly
    requires CopyOk(care, svc, descs[fd].path, version, content)
    requires IndexOf(s.list, CachePath(folder, descs[fd].path)) < |s.list|
    requires Rebuilt(s, CachePath(folder, descs[fd].path), content, version).1
    ensures var s' := Rebuilt(s, CachePath(folder, descs[fd].path), content, version).0;
            Good(paths, care, svc, folder, descs - {fd}, s'.list, s'.disk) && Consistent(s')
  {
    var name := CachePath(folder, descs[fd].path);
    RebuiltUnfolds(s, name, content, version);
    RebuiltPlaced(paths, care, svc, folder, descs, fd, s, content, version);
    AddNewGood(paths, care, svc, folder, descs - {fd}, Emptied(s, name, content), RebuiltEntry(s, name, version));
  }

  lemma RebuiltPlaced(paths: set<string>, care: Care, svc: Service, folder: string, descs: map<int, Desc>, fd: int,
                      s: Store, content: Bytes, version: int)
    requires Good(paths, care, svc, folder, descs, s.list, s.disk) && fd in descs && descs[fd].readOnly
    requires CopyOk(care, svc, descs[fd].path, version, content)
    requires IndexOf(s.list, CachePath(folder, descs[fd].path)) < |s.list|
    ensures var name := CachePath(folder, descs[fd].path);
            var (emptied, e) := (Emptied(s, name, content), RebuiltEntry(s, name, version));
            && UniquePaths(emptied.list) && IndexOf(emptied.list, name) == |emptied.list|
            && Good(paths, care, svc, folder, descs - {fd}, [e] + emptied.list, Created(emptied.disk, name))
  {
    var path := descs[fd].path;
    var name := CachePath(folder, path);
    var emptied, e := Emptied(s, name, content), RebuiltEntry(s, name, version);
    RebuiltFetching(care, svc, folder, s, path, content, version);
    FetchedOnDisk(care, svc, folder, s, path, emptied, e);
    FetchedCopies(paths, care, svc, folder, s, path, emptied, e);
    CloseLinked(paths, folder, descs, fd, s.list, s.disk, [e] + emptied.list, emptied.disk, e);
  }

  lemma RebuiltUnfolds(s: Store, name: string, content: Bytes, version: int)
    requires UniquePaths(s.list) && OnDisk(s.list, s.disk) && IndexOf(s.list, name) < |s.list|
    ensures Rebuilt(s, name, content, version)
         == AddNew(Emptied(s, name, content), RebuiltEntry(s, name, version))
  {
    hide AddNew, Delete, Overlay, Total;
    FoundIndex(s.list, name);
    CountDelete(s, name, -1);
    var deleted := Delete(Count(s, name, -1), name).0;
    UploadKeepsTail([], content);
    assert Content(deleted.disk, name) == [];
    assert Written(deleted.disk, name, 0, content) == deleted.disk[name := content];
  }

  /** Where a closing descriptor's bytes go on the server. */
  function Target(p: Proxy, fd: int): string
    requires fd in p.descs
  {
    ServerPath(p.folder, CachePath(p.folder, p.descs[fd].path))
  }

  /** The client's path does not contain the cache folder's name. */
  predicate Clear(p: Proxy, fd: int)
    requires fd in p.descs
  {
    p.folder == [] || !Occurs(p.descs[fd].path, p.folder)
  }

  /** The private copy is at least as long as the file it will be written over. */
  ghost predicate LongEnough(svc: Service, p: Proxy, fd: int)
    requires fd in p.descs
  {
    !p.descs[fd].readOnly && Target(p, fd) in svc.disk ==>
      |svc.disk[Target(p, fd)]| <= |Content(p.store.disk, LocalPath(p.folder, p.descs[fd].path, fd))|
  }

  /** An upload lands on the file the client opened exactly when the path is
      clear of the folder's name. */
  lemma UploadTargetExact(p: Proxy, fd: int)
    requires fd in p.descs
    ensures Target(p, fd) == p.descs[fd].path <==> Clear(p, fd)
  {
    ServerPathExact(p.folder, p.descs[fd].path);
  }

  lemma CloseUnfolds(svc: Service, p: Proxy, fd: int)
    requires fd in p.descs && !p.descs[fd].readOnly && CloseFile(svc, p, fd).2
    ensures var q := Target(p, fd);
            var (name, local) := (CachePath(p.folder, p.descs[fd].path), LocalPath(p.folder, p.descs[fd].path, fd));
            var content := Content(p.store.disk, local);
            var s1 := Delete(p.store, local).0;
            var svc1 := Uploaded(svc, q, content).0;
            && q in svc.disk && q in svc.versions && q in svc1.versions
            && IndexOf(s1.list, name) < |s1.list|
            && Rebuilt(s1, name, content, svc1.versions[q]).1
            && CloseFile(svc, p, fd)
               == (svc1, p.(descs := p.descs - {fd}, store := Rebuilt(s1, name, content, svc1.versions[q]).0), true)
  {
    IndexOfFirst(Delete(p.store, LocalPath(p.folder, p.descs[fd].path, fd)).0.list,
                 CachePath(p.folder, p.descs[fd].path));
  }

  lemma CloseWriteKeeps(paths: set<string>, care: Care, svc: Service, p: Proxy, fd: int)
    requires ProxyOk(paths, p) && Copies(paths, care, svc, p.folder, p.store.list, p.store.disk)
    requires fd in p.descs && !p.descs[fd].readOnly && CloseFile(svc, p, fd).2
    requires Tracks(care) ==> Clear(p, fd)
    requires care.Careful? ==> LongEnough(svc, p, fd)
    ensures Keeps(paths, care, svc, CloseFile(svc, p, fd).0, p, CloseFile(svc, p, fd).1)
  {
    hide Rebuilt, Uploaded, Delete, Linked, Evict, AddNew;
    var q := Target(p, fd);
    var local := LocalPath(p.folder, p.descs[fd].path, fd);
    var content := Content(p.store.disk, local);
    CloseUnfolds(svc, p, fd);
    UploadAdvances(svc, q, content);
    UploadTargetExact(p, fd);
    var svc1 := Uploaded(svc, q, content).0;
    LocalDeleted(paths, care, svc, p, fd);
    var s1, descs := Delete(p.store, local).0, p.descs[fd := p.descs[fd].(readOnly := true)];
    AdvancesCopies(paths, care, svc, svc1, p.folder, s1.list, s1.disk);
    RebuiltGood(paths, care, svc1, p.folder, descs, fd, s1, content, svc1.versions[q]);
    RemoveOverwritten(p.descs, fd, p.descs[fd].(readOnly := true));
  }

  lemma CloseAdvances(svc: Service, p: Proxy, fd: int)
    requires fd in p.descs && CloseFile(svc, p, fd).2
    ensures Advances(svc, CloseFile(svc, p, fd).0)
  {
    if !p.descs[fd].readOnly {
      CloseUnfolds(svc, p, fd);
      UploadAdvances(svc, Target(p, fd), Content(p.store.disk, LocalPath(p.folder, p.descs[fd].path, fd)));
    }
  }

  lemma RemoveOverwritten(descs: map<int, Desc>, fd: int, d: Desc)
    ensures descs[fd := d] - {fd} == descs - {fd}
  {
  }

  // ----- write, read and lseek -----

  lemma PosKeeps(paths: set<string>, care: Care, svc: Service, p: Proxy, s: Store, fd: int, pos: nat)
    requires ProxyOk(paths, p) && fd in p.descs && Consistent(s)
    requires Good(paths, care, svc, p.folder, p.descs, s.list, s.disk)
    ensures Keeps(paths, care, svc, svc, p, Repositioned(p, s, fd, pos))
  {
    PosLinked(paths, p.folder, p.descs, fd, pos, s.list, s.disk);
  }

  lemma TouchBothConsistent(paths: set<string>, care: Care, svc: Service, folder: string, descs: map<int, Desc>,
                            s: Store, name: string, local: string)
    requires Good(paths, care, svc, folder, descs, s.list, s.disk) && Consistent(s)
    requires Found(s.list, name) && Found(s.list, local)
    ensures TouchBoth(s, name, local).1
    ensures var s' := TouchBoth(s, name, local).0;
            Good(paths, care, svc, folder, descs, s'.list, s'.disk) && Consistent(s')
  {
    TouchFits(s, name);
    TouchConsistent(paths, care, svc, folder, descs, s, name);
    TouchConsistent(paths, care, svc, folder, descs, Touch(s, name).0, local);
  }

  lemma UseKeeps(paths: set<string>, care: Care, svc: Service, p: Proxy, fd: int, pos: nat)
    requires ProxyOk(paths, p) && Copies(paths, care, svc, p.folder, p.store.list, p.store.disk)
    requires fd in p.descs
    ensures UseFile(p, fd, pos).1
    ensures Keeps(paths, care, svc, svc, p, UseFile(p, fd, pos).0)
  {
    var d := p.descs[fd];
    var name, local := CachePath(p.folder, d.path), LocalPath(p.folder, d.path, fd);
    assert DescOk(paths, p.folder, p.store.list, d, fd);
    if d.readOnly {
      TouchConsistent(paths, care, svc, p.folder, p.descs, p.store, name);
      PosKeeps(paths, care, svc, p, Touch(p.store, name).0, fd, pos);
    } else {
      TouchBothConsistent(paths, care, svc, p.folder, p.descs, p.store, name, local);
      PosKeeps(paths, care, svc, p, TouchBoth(p.store, name, local).0, fd, pos);
    }
  }

  /** Both entries are still there after a write's two updateCache calls. */
  ghost predicate Kept(p: Proxy, fd: int, data: Bytes)
    requires fd in p.descs
  {
    var (name, local) := (CachePath(p.folder, p.descs[fd].path), LocalPath(p.folder, p.descs[fd].path, fd));
    var touched := TouchFiles(Grown(p, fd, data), p.folder, p.descs[fd], fd);
    touched.1 && Found(touched.0.list, name) && Found(touched.0.list, local)
  }

  lemma GrownGood(paths: set<string>, care: Care, svc: Service, p: Proxy, fd: int, data: Bytes)
    requires ProxyOk(paths, p) && Copies(paths, care, svc, p.folder, p.store.list, p.store.disk)
    requires fd in p.descs && !p.descs[fd].readOnly
    ensures Good(paths, care, svc, p.folder, p.descs, Grown(p, fd, data).list, Grown(p, fd, data).disk)
    ensures Found(p.store.list, CachePath(p.folder, p.descs[fd].path))
    ensures Found(p.store.list, LocalPath(p.folder, p.descs[fd].path, fd))
    ensures LocalPath(p.folder, p.descs[fd].path, fd) in p.store.disk
  {
    var s := Grown(p, fd, data);
    assert DescOk(paths, p.folder, p.store.list, p.descs[fd], fd);
    LocalIsNoCopy(paths, p.folder, p.descs[fd].path, fd);
    forall e, q | e in s.list && q in paths && e.path == CachePath(p.folder, q)
      ensures CopyOk(care, svc, q, e.version, Content(s.disk, e.path))
    {
      assert Content(s.disk, e.path) == Content(p.store.disk, e.path);
    }
  }

  lemma TouchBothGood(paths: set<string>, care: Care, svc: Service, folder: string, descs: map<int, Desc>, s: Store,
                      name: string, local: string)
    requires Good(paths, care, svc, folder, descs, s.list, s.disk)
    requires Found(s.list, name) && Found(s.list, local)
    requires TouchBoth(s, name, local).1
    requires Found(TouchBoth(s, name, local).0.list, name) && Found(TouchBoth(s, name, local).0.list, local)
    ensures var s' := TouchBoth(s, name, local).0;
            Good(paths, care, svc, folder, descs, s'.list, s'.disk) && Consistent(s')
  {
    var s1 := Touch(s, name).0;
    TouchNeverAdds(s, name);
    TouchNeverAdds(s1, local);
    TouchUnfolds(s, name);
    TouchGood(paths, care, svc, folder, descs, s, name);
    TouchGood(paths, care, svc, folder, descs, s1, local);
  }

  lemma TouchedKeeps(paths: set<string>, care: Care, svc: Service, p: Proxy, fd: int, data: Bytes, pos: nat)
    requires ProxyOk(paths, p) && Copies(paths, care, svc, p.folder, p.store.list, p.store.disk)
    requires fd in p.descs && !p.descs[fd].readOnly && Kept(p, fd, data)
    ensures Keeps(paths, care, svc, svc, p,
                  Repositioned(p, TouchFiles(Grown(p, fd, data), p.folder, p.descs[fd], fd).0, fd, pos))
  {
    var d := p.descs[fd];
    GrownGood(paths, care, svc, p, fd, data);
    TouchBothGood(paths, care, svc, p.folder, p.descs, Grown(p, fd, data),
                  CachePath(p.folder, d.path), LocalPath(p.folder, d.path, fd));
    PosKeeps(paths, care, svc, p, TouchFiles(Grown(p, fd, data), p.folder, d, fd).0, fd, pos);
  }

  lemma WriteUnfolds(p: Proxy, fd: int, data: Bytes)
    requires fd in p.descs && WriteFile(p, fd, data).1
    ensures !p.descs[fd].readOnly && TouchFiles(Grown(p, fd, data), p.folder, p.descs[fd], fd).1
    ensures WriteFile(p, fd, data).0
         == Repositioned(p, TouchFiles(Grown(p, fd, data), p.folder, p.descs[fd], fd).0, fd, p.descs[fd].pos + |data|)
  {
  }

  lemma WriteKeeps(paths: set<string>, care: Care, svc: Service, p: Proxy, fd: int, data: Bytes)
    requires ProxyOk(paths, p) && Copies(paths, care, svc, p.folder, p.store.list, p.store.disk)
    requires fd in p.descs && WriteFile(p, fd, data).1 && Kept(p, fd, data)
    ensures Keeps(paths, care, svc, svc, p, WriteFile(p, fd, data).0)
  {
    hide *;
    WriteUnfolds(p, fd, data);
    TouchedKeeps(paths, care, svc, p, fd, data, p.descs[fd].pos + |data|);
  }

  /** updateCache brings back nothing that was lost. */
  lemma TouchNeverAdds(s: Store, name: string)
    requires UniquePaths(s.list)
    ensures UniquePaths(Touch(s, name).0.list)
    ensures forall other :: Found(Touch(s, name).0.list, other) ==> Found(s.list, other)
  {
    TouchUnfolds(s, name);
    if Found(s.list, name) {
      var i := IndexOf(s.list, name);
      var e, s1 := s.list[i], s.(list := Without(s.list, i));
      WithoutUnique(s.list, i);
      WithoutMembers(s.list, i);
      AddNewMembers(s1, e);
    }
  }

  lemma AddNewMembers(s: Store, e: Entry)
    requires UniquePaths(s.list) && IndexOf(s.list, e.path) == |s.list|
    ensures UniquePaths(AddNew(s, e).0.list)
    ensures forall x :: x in AddNew(s, e).0.list ==> x == e || x in s.list
  {
    AddNewExact(s, e);
    var n := if AddNew(s, e).1 then Needed(s, Length(s.disk, e.path), 0) else Closed(s.list);
    SurvivorsKept(s.list, n);
    HeadConsistent(s, e, n);
    RecentAll(s.list, Closed(s.list));
  }
}
