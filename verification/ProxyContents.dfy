/** Where bytes go: what writes leave in a private copy, that nothing else changes
    it, and what a close sends to the server. */
module ProxyContents {
  import opened Files
  import opened LruCache
  import opened LruTheorems
  import opened ChunkTransfer
  import opened PathNames
  import opened ProxyModel
  import opened ProxyLinkage
  import opened ProxySafety
  import opened ProxyOpens
  import opened ProxyDescriptors
  import opened ProxyCoherence

  /** The bytes a writing descriptor works on. */
  function CopyOf(p: Proxy, fd: int): Bytes
    requires fd in p.descs
  {
    Content(p.store.disk, LocalPath(p.folder, p.descs[fd].path, fd))
  }

  ghost predicate Writer(p: Proxy, fd: int) {
    fd in p.descs && !p.descs[fd].readOnly
  }

  // ----- what the cache does to files it does not name -----

  /** The file is unchanged or gone. */
  ghost predicate KeptOrGone(disk: Disk, disk': Disk, name: string) {
    name in disk' ==> name in disk && disk'[name] == disk[name]
  }

  lemma {:induction false} EvictFiles(s: Store, data: nat, name: string)
    ensures KeptOrGone(s.disk, Evict(s, data).0.disk, name)
    decreases |s.list|
  {
    if s.size + data > s.capacity && EvictOne(s).1 {
      EvictFiles(EvictOne(s).0, data, name);
    }
  }

  lemma AddNewFiles(s: Store, e: Entry, name: string)
    requires name != e.path
    ensures KeptOrGone(s.disk, AddNew(s, e).0.disk, name)
  {
    EvictFiles(s.(size := Total(s.list, s.disk)), Length(s.disk, e.path), name);
  }

  lemma AddedFiles(s: Store, e: Entry, name: string)
    requires name != e.path
    ensures KeptOrGone(s.disk, Added(s, e).0.disk, name)
  {
    AddNewFiles(s, e, name);
  }

  lemma TouchFilesElsewhere(s: Store, path: string, name: string)
    requires name != path
    ensures KeptOrGone(s.disk, Touch(s, path).0.disk, name)
  {
    IndexOfFirst(s.list, path);
    var i := IndexOf(s.list, path);
    if i < |s.list| {
      AddNewFiles(s.(list := Without(s.list, i)), s.list[i], name);
    }
  }

  /** A file that is touched itself keeps its bytes. */
  lemma TouchFilesKept(s: Store, path: string, name: string)
    requires UniquePaths(s.list) && OnDisk(s.list, s.disk)
    ensures KeptOrGone(s.disk, Touch(s, path).0.disk, name)
  {
    TouchUnfolds(s, path);
    if Found(s.list, path) {
      var i := IndexOf(s.list, path);
      var s1 := s.(list := Without(s.list, i));
      WithoutUnique(s.list, i);
      WithoutMembers(s.list, i);
      IndexOfFirst(s1.list, path);
      AddNewExact(s1, s.list[i]);
      DroppedElsewhere(s1.list, Needed(s1, Length(s1.disk, path), 0), path);
    }
  }

  // ----- one write -----

  /** The bytes of a write by `fd` stand in its private copy from its pointer on;
      the copy's other bytes, and every other file, are as they were or, being
      closed, evicted; a gap is filled with zeros. */
  ghost predicate Lands(p: Proxy, p': Proxy, fd: int, data: Bytes)
    requires fd in p.descs && fd in p'.descs
  {
    var (before, after, pos) := (CopyOf(p, fd), CopyOf(p', fd), p.descs[fd].pos);
    && p'.descs == p.descs[fd := p.descs[fd].(pos := pos + |data|)]
    && LocalPath(p.folder, p.descs[fd].path, fd) in p'.store.disk
    && |after| == (if data == [] || pos + |data| <= |before| then |before| else pos + |data|)
    && (forall k :: 0 <= k < |after| ==>
          after[k] == if pos <= k < pos + |data| then data[k - pos] else if k < |before| then before[k] else 0)
    && (forall name :: name != LocalPath(p.folder, p.descs[fd].path, fd) ==>
          KeptOrGone(p.store.disk, p'.store.disk, name))
  }

  const Nobody := Service(map[], map[])

  lemma WriteFiles(paths: set<string>, p: Proxy, fd: int, data: Bytes)
    requires ProxyOk(paths, p) && Writer(p, fd) && Kept(p, fd, data)
    ensures var p' := WriteFile(p, fd, data).0;
            && p'.folder == p.folder && p'.descs == p.descs[fd := p.descs[fd].(pos := p.descs[fd].pos + |data|)]
            && LocalPath(p.folder, p.descs[fd].path, fd) in p'.store.disk
            && forall name :: KeptOrGone(Grown(p, fd, data).disk, p'.store.disk, name)
  {
    hide Touch, Linked, Grown;
    var d := p.descs[fd];
    var name, local := CachePath(p.folder, d.path), LocalPath(p.folder, d.path, fd);
    var s := Grown(p, fd, data);
    GrownGood(paths, Roomy, Nobody, p, fd, data);
    var s1 := Touch(s, name).0;
    LinkedOnDisk(paths, p.folder, p.descs, s);
    TouchNeverAdds(s, name);
    var s2 := Touch(s1, local).0;
    TouchNeverAdds(s1, local);
    TouchGood(paths, Roomy, Nobody, p.folder, p.descs, s, name);
    LinkedOnDisk(paths, p.folder, p.descs, s1);
    TouchGood(paths, Roomy, Nobody, p.folder, p.descs, s1, local);
    LinkedOnDisk(paths, p.folder, p.descs, s2);
    forall other ensures KeptOrGone(s.disk, s2.disk, other) {
      TouchFilesKept(s, name, other);
      TouchFilesKept(s1, local, other);
    }
  }

  lemma LinkedOnDisk(paths: set<string>, folder: string, descs: map<int, Desc>, s: Store)
    requires Linked(paths, folder, descs, s.list, s.disk)
    ensures UniquePaths(s.list) && OnDisk(s.list, s.disk)
  {
  }

  lemma WriteLands(paths: set<string>, p: Proxy, fd: int, data: Bytes)
    requires ProxyOk(paths, p) && Writer(p, fd) && Kept(p, fd, data)
    ensures Lands(p, WriteFile(p, fd, data).0, fd, data)
  {
    hide WriteFile, Kept, Overlay, ProxyOk, Grown, KeptOrGone, LocalPath;
    var local := LocalPath(p.folder, p.descs[fd].path, fd);
    var p' := WriteFile(p, fd, data).0;
    WriteFiles(paths, p, fd, data);
    WriteBecomes(paths, p, fd, data);
    OverlayExact(CopyOf(p, fd), p.descs[fd].pos, data);
    forall name | name != local ensures KeptOrGone(p.store.disk, p'.store.disk, name) {
      GrownElsewhere(p, fd, data, p'.store.disk, name);
    }
  }

  lemma GrownElsewhere(p: Proxy, fd: int, data: Bytes, disk: Disk, name: string)
    requires Writer(p, fd) && name != LocalPath(p.folder, p.descs[fd].path, fd)
    requires KeptOrGone(Grown(p, fd, data).disk, disk, name)
    ensures KeptOrGone(p.store.disk, disk, name)
  {
  }

  /** Two writes leave the copy, and the pointer, that one write of both leaves. */
  lemma WriteTwice(paths: set<string>, p: Proxy, fd: int, first: Bytes, second: Bytes)
    requires ProxyOk(paths, p) && Writer(p, fd)
    requires Kept(p, fd, first) && Kept(p, fd, first + second)
    ensures var p1 := WriteFile(p, fd, first).0;
            && Writer(p1, fd)
            && (Kept(p1, fd, second) ==>
                  var p2, once := WriteFile(p1, fd, second).0, WriteFile(p, fd, first + second).0;
                  && fd in p2.descs && fd in once.descs
                  && p2.descs == once.descs && CopyOf(p2, fd) == CopyOf(once, fd))
  {
    hide WriteFile, Kept, ProxyOk, Overlay, Content;
    var p1 := WriteFile(p, fd, first).0;
    WriteFiles(paths, p, fd, first);
    WriteBecomes(paths, p, fd, first);
    WriteBecomes(paths, p, fd, first + second);
    if Kept(p1, fd, second) {
      WroteOk(paths, p, fd, first);
      WriteBecomes(paths, p1, fd, second);
      OverlayOn(CopyOf(p, fd), p.descs[fd].pos, first, second);
    }
  }

  lemma WroteOk(paths: set<string>, p: Proxy, fd: int, data: Bytes)
    requires ProxyOk(paths, p) && Writer(p, fd) && Kept(p, fd, data)
    ensures ProxyOk(paths, WriteFile(p, fd, data).0)
  {
    hide Kept, WriteFile;
    WriteKeptExact(paths, p, fd, data);
    WriteKeeps(paths, Roomy, Nobody, p, fd, data);
  }

  lemma WriteBecomes(paths: set<string>, p: Proxy, fd: int, data: Bytes)
    requires ProxyOk(paths, p) && Writer(p, fd) && Kept(p, fd, data)
    ensures var p' := WriteFile(p, fd, data).0;
            && p'.folder == p.folder && p'.descs == p.descs[fd := p.descs[fd].(pos := p.descs[fd].pos + |data|)]
            && CopyOf(p', fd) == Overlay(CopyOf(p, fd), p.descs[fd].pos, data)
  {
    hide WriteFile, Kept, Overlay;
    WriteFiles(paths, p, fd, data);
    var local := LocalPath(p.folder, p.descs[fd].path, fd);
    assert KeptOrGone(Grown(p, fd, data).disk, WriteFile(p, fd, data).0.store.disk, local);
  }

  // ----- reads and seeks -----

  /** They move the pointer and change no file. */
  lemma UseMoves(paths: set<string>, p: Proxy, fd: int, pos: nat)
    requires ProxyOk(paths, p) && fd in p.descs
    ensures var p' := UseFile(p, fd, pos).0;
            && ProxyOk(paths, p') && p'.folder == p.folder && p'.descs == p.descs[fd := p.descs[fd].(pos := pos)]
            && forall name :: KeptOrGone(p.store.disk, p'.store.disk, name)
  {
    hide Touch, Linked, ProxyOk;
    UseKeeps(paths, Roomy, Nobody, p, fd, pos);
    var name, local := CachePath(p.folder, p.descs[fd].path), LocalPath(p.folder, p.descs[fd].path, fd);
    var s1 := Touch(p.store, name).0;
    OkGood(paths, p);
    LinkedOnDisk(paths, p.folder, p.descs, p.store);
    TouchConsistent(paths, Roomy, Nobody, p.folder, p.descs, p.store, name);
    LinkedOnDisk(paths, p.folder, p.descs, s1);
    forall other ensures KeptOrGone(p.store.disk, UseFile(p, fd, pos).0.store.disk, other) {
      TouchFilesKept(p.store, name, other);
      TouchFilesKept(s1, local, other);
    }
  }

  lemma OkGood(paths: set<string>, p: Proxy)
    requires ProxyOk(paths, p)
    ensures Good(paths, Roomy, Nobody, p.folder, p.descs, p.store.list, p.store.disk) && Consistent(p.store)
  {
  }

  /** A write after lseek lands at the position sought, in the copy as it was. */
  lemma SeekThenWrite(paths: set<string>, p: Proxy, fd: int, pos: nat, data: Bytes)
    requires ProxyOk(paths, p) && Writer(p, fd)
    ensures var p1 := UseFile(p, fd, pos).0;
            && Writer(p1, fd)
            && (Kept(p1, fd, data) ==>
                  var p2 := WriteFile(p1, fd, data).0;
                  && Lands(p1, p2, fd, data) && p1.descs[fd].pos == pos && CopyOf(p1, fd) == CopyOf(p, fd))
  {
    hide UseFile, WriteFile, Kept, Lands;
    var p1 := UseFile(p, fd, pos).0;
    UseMoves(paths, p, fd, pos);
    SameCopy(paths, p, p1, fd);
    if Kept(p1, fd, data) {
      WriteLands(paths, p1, fd, data);
    }
  }

  /** A live writer's copy is there, so if it can only have been kept or gone, it
      has been kept. */
  lemma SameCopy(paths: set<string>, p: Proxy, p': Proxy, fd: int)
    requires ProxyOk(paths, p') && Writer(p, fd) && Writer(p', fd) && p'.folder == p.folder
    requires p'.descs[fd].path == p.descs[fd].path
    requires KeptOrGone(p.store.disk, p'.store.disk, LocalPath(p.folder, p.descs[fd].path, fd))
    ensures CopyOf(p', fd) == CopyOf(p, fd)
  {
    assert DescOk(paths, p'.folder, p'.store.list, p'.descs[fd], fd);
  }

  // ----- calls that leave a private copy alone -----

  /** The cached file of a path, and another descriptor's copy, are other files. */
  lemma OtherNames(paths: set<string>, p: Proxy, fd: int, q: string, other: int)
    requires ProxyOk(paths, p) && Writer(p, fd) && q in paths && other != fd
    ensures var local := LocalPath(p.folder, p.descs[fd].path, fd);
            local != CachePath(p.folder, q) && local != LocalPath(p.folder, q, other)
  {
    assert DescOk(paths, p.folder, p.store.list, p.descs[fd], fd);
    LocalIsNoCopy(paths, p.folder, p.descs[fd].path, fd);
    NamesDistinct(p.folder, p.descs[fd].path, q, fd, other);
  }

  lemma OpenHitFiles(svc: Service, p: Proxy, path: string, option: string, name: string)
    requires UniquePaths(p.store.list) && OnDisk(p.store.list, p.store.disk)
    requires IndexOf(p.store.list, CachePath(p.folder, path)) < |p.store.list|
    requires name != CachePath(p.folder, path)
    ensures KeptOrGone(p.store.disk, OpenHit(svc, p.folder, p.store, path, option).1.disk, name)
  {
    hide Touch, AddNew, Added;
    var cached := CachePath(p.folder, path);
    FoundIndex(p.store.list, cached);
    CountFacts(p.store, cached, 1);
    var s := Count(p.store, cached, 1);
    var e := Counted(p.store.list[IndexOf(p.store.list, cached)], 1);
    forall x ensures x in s.disk <==> Found(s.list, x) {
      ReplacedFound(p.store.list, s.list, e, x);
    }
    TouchFilesKept(s, path, name);
    RefetchedFiles(svc, s, path, option, cached, name);
  }

  lemma RefetchedFiles(svc: Service, s: Store, path: string, option: string, cached: string, name: string)
    requires name != cached
    ensures forall svc1: Service, opens: int, version: int ::
              KeptOrGone(s.disk, Refetched(svc1, s, opens, version, path, option, cached).1.disk, name)
  {
    hide AddNew, Added;
    IndexOfFirst(s.list, cached);
    var deleted := Delete(s, cached).0;
    forall svc1: Service, opens: int, version: int
      ensures KeptOrGone(s.disk, Refetched(svc1, s, opens, version, path, option, cached).1.disk, name)
    {
      var content := Fetched(Content(deleted.disk, cached), Content(svc1.disk, path));
      AddedFiles(Put(deleted, cached, content), Entry(cached, opens, version, Mode(option)), name);
    }
  }

  lemma OpenMissFiles(svc: Service, p: Proxy, path: string, option: string, name: string)
    requires name != CachePath(p.folder, path)
    ensures KeptOrGone(p.store.disk, OpenMiss(svc, p.folder, p.store, path, option).1.disk, name)
  {
    hide AddNew, Added;
    var cached := CachePath(p.folder, path);
    if !OpenError(svc.disk, option, path).Error? {
      var svc1 := Known(svc.(disk := Created(svc.disk, path)), path);
      var fetched := Put(p.store, cached, Fetched(Content(p.store.disk, cached), svc1.disk[path]));
      AddedFiles(fetched, Entry(cached, 1, svc1.versions[path], Mode(option)), name);
    }
  }

  lemma OpenFiles(paths: set<string>, svc: Service, p: Proxy, path: string, option: string, name: string)
    requires ProxyOk(paths, p)
    requires name != CachePath(p.folder, path) && name != LocalPath(p.folder, path, p.next)
    ensures KeptOrGone(p.store.disk, OpenFile(svc, p, path, option).1.store.disk, name)
  {
    hide OpenHit, OpenMiss, Added;
    LinkedOnDisk(paths, p.folder, p.descs, p.store);
    if IndexOf(p.store.list, CachePath(p.folder, path)) < |p.store.list| {
      OpenHitFiles(svc, p, path, option, name);
    } else {
      OpenMissFiles(svc, p, path, option, name);
    }
    var s1 := OpenCached(svc, p.folder, p.store, path, option).1;
    var local := LocalPath(p.folder, path, p.next);
    if CachePath(p.folder, path) in s1.disk {
      AddedFiles(Put(s1, local, s1.disk[CachePath(p.folder, path)]), Entry(local, 1, 1, "rw"), name);
    }
  }

  lemma CloseFiles(svc: Service, p: Proxy, fd: int, name: string)
    requires fd in p.descs && CloseFile(svc, p, fd).2
    requires name != CachePath(p.folder, p.descs[fd].path)
    ensures KeptOrGone(p.store.disk, CloseFile(svc, p, fd).1.store.disk, name)
  {
    hide AddNew, Added;
    var d := p.descs[fd];
    if !d.readOnly {
      var cached, local := CachePath(p.folder, d.path), LocalPath(p.folder, d.path, fd);
      CloseUnfolds(svc, p, fd);
      var s1 := Delete(p.store, local).0;
      IndexOfFirst(p.store.list, local);
      var svc1 := Uploaded(svc, Target(p, fd), CopyOf(p, fd)).0;
      RebuiltFiles(s1, cached, CopyOf(p, fd), svc1.versions[Target(p, fd)], name);
    }
  }

  lemma RebuiltFiles(s: Store, cached: string, content: Bytes, version: int, name: string)
    requires IndexOf(s.list, cached) < |s.list| && name != cached
    ensures KeptOrGone(s.disk, Rebuilt(s, cached, content, version).0.disk, name)
  {
    hide AddNew, Added, Overlay;
    var counted := Count(s, cached, -1);
    IndexOfFirst(counted.list, cached);
    var held := Counted(s.list[IndexOf(s.list, cached)], -1);
    var deleted := Delete(counted, cached).0;
    var rebuilt := deleted.(disk := Written(deleted.disk, cached, 0, content));
    AddedFiles(rebuilt, Entry(cached, held.opens, version, held.option), name);
  }

  lemma OtherWriteFiles(p: Proxy, fd: int, data: Bytes, name: string)
    requires fd in p.descs && WriteFile(p, fd, data).1
    requires name != CachePath(p.folder, p.descs[fd].path) && name != LocalPath(p.folder, p.descs[fd].path, fd)
    ensures KeptOrGone(p.store.disk, WriteFile(p, fd, data).0.store.disk, name)
  {
    hide Touch, Overlay;
    var cached, local := CachePath(p.folder, p.descs[fd].path), LocalPath(p.folder, p.descs[fd].path, fd);
    var s := Grown(p, fd, data);
    TouchFilesElsewhere(s, cached, name);
    TouchFilesElsewhere(Touch(s, cached).0, local, name);
  }
}
