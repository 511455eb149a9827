/** Open-close sessions: a writing descriptor works on its own copy, which only its
    own calls change, and its close sends just these bytes to the server. */
module ProxySessions {
  import opened Files
  import opened LruCache
  import opened LruTheorems
  import opened ChunkTransfer
  import opened PathNames
  import opened ProxyModel
  import opened ProxyLinkage
  import opened ProxySafety
  import opened ProxyOpens
  import opened ProxyDescriptors
  import opened ProxyCoherence
  import opened ProxyContents

  // ----- a file as one descriptor sees it -----

  /** What a descriptor's own calls do to plain bytes and a pointer. */
  function Own(calls: seq<Call>, x: string, fd: int, bytes: Bytes, pos: nat): (Bytes, nat)
    decreases |calls|
  {
    if calls == [] then (bytes, pos)
    else
      match calls[0]
      case Write(at, g, data) =>
        if at == x && g == fd then Own(calls[1..], x, fd, Overlay(bytes, pos, data), pos + |data|)
        else Own(calls[1..], x, fd, bytes, pos)
      case Use(at, g, to) => Own(calls[1..], x, fd, bytes, if at == x && g == fd then to else pos)
      case _ => Own(calls[1..], x, fd, bytes, pos)
  }

  ghost predicate Closes(calls: seq<Call>, x: string, fd: int) {
    exists c :: c in calls && c.Close? && c.at == x && c.fd == fd
  }

  lemma OwnHead(c: Call, rest: seq<Call>, x: string, fd: int, bytes: Bytes, pos: nat)
    ensures var step := Own([c], x, fd, bytes, pos);
            Own([c] + rest, x, fd, bytes, pos) == Own(rest, x, fd, step.0, step.1)
  {
    assert [c][1..] == [] && ([c] + rest)[1..] == rest;
  }

  // ----- one call -----

  lemma OwnWrite(paths: set<string>, s: System, c: Call, x: string, fd: int)
    requires c.Write? && c.at == x && c.fd == fd && Succeeds(s, c) && Minds(Roomy, s, c)
    requires ProxyGood(paths, Roomy, s.svc, s.proxies[x]) && Writer(s.proxies[x], fd)
    ensures var p, p' := s.proxies[x], After(s, c).proxies[x];
            && p'.folder == p.folder && p'.descs == p.descs[fd := p.descs[fd].(pos := p.descs[fd].pos + |c.data|)]
            && CopyOf(p', fd) == Overlay(CopyOf(p, fd), p.descs[fd].pos, c.data)
  {
    hide WriteFile, Kept, Overlay;
    WriteBecomes(paths, s.proxies[x], fd, c.data);
  }

  lemma OwnUse(paths: set<string>, s: System, c: Call, x: string, fd: int)
    requires c.Use? && c.at == x && c.fd == fd && Succeeds(s, c)
    requires ProxyGood(paths, Roomy, s.svc, s.proxies[x]) && Writer(s.proxies[x], fd)
    ensures var p, p' := s.proxies[x], After(s, c).proxies[x];
            && p'.folder == p.folder && p'.descs == p.descs[fd := p.descs[fd].(pos := c.pos)]
            && CopyOf(p', fd) == CopyOf(p, fd)
  {
    hide UseFile;
    UseMoves(paths, s.proxies[x], fd, c.pos);
    SameCopy(paths, s.proxies[x], After(s, c).proxies[x], fd);
  }

  lemma OtherCallFiles(paths: set<string>, s: System, c: Call, x: string, fd: int)
    requires Succeeds(s, c) && c.at == x && (c.Open? ==> c.path in paths) && (!c.Open? ==> c.fd != fd)
    requires ProxyGood(paths, Roomy, s.svc, s.proxies[x]) && Writer(s.proxies[x], fd)
    ensures var p, p' := s.proxies[x], After(s, c).proxies[x];
            && p'.folder == p.folder && Writer(p', fd) && p'.descs[fd] == p.descs[fd]
            && KeptOrGone(p.store.disk, p'.store.disk, LocalPath(p.folder, p.descs[fd].path, fd))
  {
    hide OpenStore, CopyClosed, TouchFiles, Count, Linked;
    var p := s.proxies[x];
    var local := LocalPath(p.folder, p.descs[fd].path, fd);
    match c {
      case Open(_, path, option) =>
        OtherNames(paths, p, fd, path, p.next);
        OpenFiles(paths, s.svc, p, path, option, local);
      case Close(_, g) =>
        KnownPath(paths, p, g);
        OtherNames(paths, p, fd, p.descs[g].path, g);
        CloseFiles(s.svc, p, g, local);
      case Write(_, g, data) =>
        KnownPath(paths, p, g);
        OtherNames(paths, p, fd, p.descs[g].path, g);
        OtherWriteFiles(p, g, data, local);
      case Use(_, g, pos) =>
        UseMoves(paths, p, g, pos);
    }
  }

  lemma KnownPath(paths: set<string>, p: Proxy, g: int)
    requires ProxyOk(paths, p) && g in p.descs
    ensures p.descs[g].path in paths
  {
    assert DescOk(paths, p.folder, p.store.list, p.descs[g], g);
  }

  /** Every call does to a private copy what its own descriptor's calls do to
      plain bytes, and nothing else. */
  lemma CallOwns(paths: set<string>, s: System, c: Call, x: string, fd: int)
    requires Succeeds(s, c) && (c.at == x ==> Minds(Roomy, s, c) && (c.Open? ==> c.path in paths))
    requires x in s.proxies && ProxyGood(paths, Roomy, s.svc, s.proxies[x]) && Writer(s.proxies[x], fd)
    requires !(c.Close? && c.at == x && c.fd == fd)
    ensures var (p, s') := (s.proxies[x], After(s, c));
            && x in s'.proxies && s'.proxies[x].folder == p.folder && Writer(s'.proxies[x], fd)
            && s'.proxies[x].descs[fd].path == p.descs[fd].path
            && (CopyOf(s'.proxies[x], fd), s'.proxies[x].descs[fd].pos)
               == Own([c], x, fd, CopyOf(p, fd), p.descs[fd].pos)
  {
    hide After, OpenFile, CloseFile, WriteFile, UseFile, ProxyOk, Copies, Overlay, Minds, Content;
    CallAdvances(s, c);
    assert [c][1..] == [];
    if c.at == x {
      StepKeepsGood(paths, Roomy, s, c, x);
      if !c.Open? && c.fd == fd {
        if c.Write? {
          OwnWrite(paths, s, c, x, fd);
        } else {
          OwnUse(paths, s, c, x, fd);
        }
      } else {
        OtherCallFiles(paths, s, c, x, fd);
        SameCopy(paths, s.proxies[x], After(s, c).proxies[x], fd);
      }
    }
  }

  // ----- runs -----

  /** Whatever else happens at this proxy and at others, the private copy of a
      descriptor is what its own writes, at the positions its own calls moved to,
      make of the bytes it began with. */
  lemma {:induction false} CopyExact(paths: set<string>, s: System, calls: seq<Call>, x: string, fd: int)
    requires Runs(s, calls) && MindsAt(Roomy, s, calls, x) && OpenedAt(calls, x) <= paths && !Closes(calls, x, fd)
    requires x in s.proxies && ProxyGood(paths, Roomy, s.svc, s.proxies[x]) && Writer(s.proxies[x], fd)
    ensures var (p, s') := (s.proxies[x], Final(s, calls));
            && x in s'.proxies && ProxyGood(paths, Roomy, s'.svc, s'.proxies[x])
            && s'.proxies[x].folder == p.folder && Writer(s'.proxies[x], fd)
            && s'.proxies[x].descs[fd].path == p.descs[fd].path
            && (CopyOf(s'.proxies[x], fd), s'.proxies[x].descs[fd].pos)
               == Own(calls, x, fd, CopyOf(p, fd), p.descs[fd].pos)
    decreases |calls|
  {
    hide ProxyGood, Minds, After, OpenFile, CloseFile, WriteFile, UseFile, Own, CopyOf;
    if calls == [] {
      OwnNothing(x, fd, CopyOf(s.proxies[x], fd), s.proxies[x].descs[fd].pos);
    } else {
      var c, rest := calls[0], calls[1..];
      assert calls == [c] + rest && c in calls && forall d :: d in rest ==> d in calls;
      OpenedTail(calls, x);
      CallOwns(paths, s, c, x, fd);
      StepKeepsGood(paths, Roomy, s, c, x);
      CopyExact(paths, After(s, c), rest, x, fd);
      OwnHead(c, rest, x, fd, CopyOf(s.proxies[x], fd), s.proxies[x].descs[fd].pos);
    }
  }

  lemma OwnNothing(x: string, fd: int, bytes: Bytes, pos: nat)
    ensures Own([], x, fd, bytes, pos) == (bytes, pos)
  {
  }

  // ----- from open to close -----

  /** The copy a writer starts with is the cached file, from its first byte. */
  lemma OpenCopies(paths: set<string>, s: System, c: Call)
    requires c.Open? && c.option != "READ" && Succeeds(s, c) && c.path in paths
    requires ProxyGood(paths, Roomy, s.svc, s.proxies[c.at])
    ensures var (p, p') := (s.proxies[c.at], After(s, c).proxies[c.at]);
            && p'.folder == p.folder && Writer(p', p.next) && p'.descs[p.next] == Desc(c.path, false, 0)
            && CopyOf(p', p.next) == Content(p'.store.disk, CachePath(p.folder, c.path))
            && ProxyGood(paths, Roomy, After(s, c).svc, p')
  {
    hide OpenCached, AddNew, Evict, Linked;
    var p := s.proxies[c.at];
    StepKeepsGood(paths, Roomy, s, c, c.at);
    OpenFileUnfolds(s.svc, p, c.path, c.option);
    OpenCachedGood(paths, Roomy, s.svc, p, c.path, c.option);
    var r := OpenCached(s.svc, p.folder, p.store, c.path, c.option);
    CopyHolds(paths, r.0, p, r.1, c.path);
  }

  lemma CopyHolds(paths: set<string>, svc: Service, p: Proxy, s: Store, path: string)
    requires ProxyOk(paths, p) && Consistent(s)
    requires Good(paths, Roomy, svc, p.folder, p.descs[p.next := Desc(path, true, 0)], s.list, s.disk)
    requires CopyLocal(s, CachePath(p.folder, path), LocalPath(p.folder, path, p.next)).1
    ensures var (cached, local) := (CachePath(p.folder, path), LocalPath(p.folder, path, p.next));
            var s' := CopyLocal(s, cached, local).0;
            Content(s'.disk, local) == Content(s'.disk, cached) == Content(s.disk, cached)
  {
    hide AddNew, Evict;
    var cached, e := CachePath(p.folder, path), Entry(LocalPath(p.folder, path, p.next), 1, 1, "rw");
    var descs := p.descs[p.next := Desc(path, true, 0)];
    var copied := Put(s, e.path, s.disk[cached]);
    CopyLocalPlaced(paths, Roomy, svc, p.folder, descs, s, path, p.next, copied, e);
    CopyLocalGood(paths, Roomy, svc, p.folder, descs, s, path, p.next);
    AddNewGood(paths, Roomy, svc, p.folder, descs[p.next := Desc(path, false, 0)], copied, e);
    var s' := AddNew(copied, e).0;
    assert DescOk(paths, p.folder, s'.list, Desc(path, false, 0), p.next) by {
      assert descs[p.next := Desc(path, false, 0)][p.next] == Desc(path, false, 0);
    }
    assert cached in s'.disk && e.path in s'.disk;
    LocalIsNoCopy(paths, p.folder, path, p.next);
  }

  // ----- what an open sees -----

  /** Every entry of this name has this version. */
  ghost predicate AtVersion(list: seq<Entry>, name: string, version: int) {
    forall e :: e in list && e.path == name ==> e.version == version
  }

  lemma AddedVersion(s: Store, e: Entry, name: string, version: int)
    requires UniquePaths(s.list) && IndexOf(s.list, e.path) == |s.list|
    requires AtVersion(s.list, name, version) && (e.path == name ==> e.version == version)
    ensures AtVersion(Added(s, e).0.list, name, version)
  {
    AddNewMembers(s, e);
  }

  lemma TouchVersion(s: Store, path: string, name: string, version: int)
    requires UniquePaths(s.list) && AtVersion(s.list, name, version)
    ensures AtVersion(Touch(s, path).0.list, name, version)
  {
    TouchUnfolds(s, path);
    if Found(s.list, path) {
      var i := IndexOf(s.list, path);
      var s1 := s.(list := Without(s.list, i));
      WithoutUnique(s.list, i);
      WithoutMembers(s.list, i);
      IndexOfFirst(s1.list, path);
      AddNewMembers(s1, s.list[i]);
    }
  }

  lemma HitVersion(svc: Service, folder: string, s: Store, path: string, option: string)
    requires UniquePaths(s.list) && IndexOf(s.list, CachePath(folder, path)) < |s.list|
    requires OpenHit(svc, folder, s, path, option).2
    ensures var r := OpenHit(svc, folder, s, path, option);
            path in r.0.versions && AtVersion(r.1.list, CachePath(folder, path), r.0.versions[path])
  {
    hide Touch, Refetched, Count, UniquePaths;
    var name := CachePath(folder, path);
    var counted, held := Count(s, name, 1), s.list[IndexOf(s.list, name)];
    var version := Known(svc, path).versions[path];
    CountedVersion(s, name);
    if held.version == version {
      TouchVersion(counted, path, name, version);
    } else {
      RefetchedVersion(Known(svc, path), counted, held.opens + 1, version, path, option, name);
    }
  }

  lemma RefetchedVersion(svc: Service, s: Store, opens: int, version: int, path: string, option: string, name: string)
    requires UniquePaths(s.list) && Found(s.list, name)
    requires Refetched(svc, s, opens, version, path, option, name).2
    ensures var r := Refetched(svc, s, opens, version, path, option, name);
            r.0.versions == svc.versions && AtVersion(r.1.list, name, version)
  {
    hide Added, Delete, Fetched, UniquePaths;
    DeleteFacts(s, name);
    var deleted := Delete(s, name).0;
    var content := Fetched(Content(deleted.disk, name), Content(svc.disk, path));
    AddedVersion(Put(deleted, name, content), Entry(name, opens, version, Mode(option)), name, version);
  }

  lemma CountedVersion(s: Store, name: string)
    requires UniquePaths(s.list) && IndexOf(s.list, name) < |s.list|
    ensures UniquePaths(Count(s, name, 1).list) && Found(Count(s, name, 1).list, name)
    ensures AtVersion(Count(s, name, 1).list, name, s.list[IndexOf(s.list, name)].version)
  {
    FoundIndex(s.list, name);
    CountFacts(s, name, 1);
  }

  lemma MissVersion(svc: Service, folder: string, s: Store, path: string, option: string)
    requires UniquePaths(s.list) && IndexOf(s.list, CachePath(folder, path)) == |s.list|
    requires OpenMiss(svc, folder, s, path, option).2
    ensures var r := OpenMiss(svc, folder, s, path, option);
            path in r.0.versions && AtVersion(r.1.list, CachePath(folder, path), r.0.versions[path])
  {
    hide Added;
    var name := CachePath(folder, path);
    IndexOfFirst(s.list, name);
    var svc1 := Known(svc.(disk := Created(svc.disk, path)), path);
    var fetched := Put(s, name, Fetched(Content(s.disk, name), svc1.disk[path]));
    AddedVersion(fetched, Entry(name, 1, svc1.versions[path], Mode(option)), name, svc1.versions[path]);
  }

  lemma OpenedVersion(paths: set<string>, svc: Service, p: Proxy, path: string, option: string)
    requires ProxyOk(paths, p) && path in paths && OpenFile(svc, p, path, option).2
    ensures var r := OpenFile(svc, p, path, option);
            && path in r.0.versions
            && AtVersion(r.1.store.list, CachePath(p.folder, path), r.0.versions[path])
  {
    hide OpenHit, OpenMiss, Added, Linked;
    var name := CachePath(p.folder, path);
    UniqueList(paths, p);
    IndexOfFirst(p.store.list, name);
    if IndexOf(p.store.list, name) < |p.store.list| {
      HitVersion(svc, p.folder, p.store, path, option);
    } else {
      MissVersion(svc, p.folder, p.store, path, option);
    }
    if option != "READ" {
      var r := OpenCached(svc, p.folder, p.store, path, option);
      OpenCachedGood(paths, Roomy, svc, p, path, option);
      CopyVersion(paths, r.0, p, r.1, path, r.0.versions[path]);
    }
  }

  lemma UniqueList(paths: set<string>, p: Proxy)
    requires ProxyOk(paths, p)
    ensures UniquePaths(p.store.list)
  {
  }

  lemma CopyVersion(paths: set<string>, svc: Service, p: Proxy, s: Store, path: string, version: int)
    requires ProxyOk(paths, p) && path in paths
    requires Good(paths, Roomy, svc, p.folder, p.descs[p.next := Desc(path, true, 0)], s.list, s.disk)
    requires AtVersion(s.list, CachePath(p.folder, path), version)
    requires CopyLocal(s, CachePath(p.folder, path), LocalPath(p.folder, path, p.next)).1
    ensures AtVersion(CopyLocal(s, CachePath(p.folder, path), LocalPath(p.folder, path, p.next)).0.list,
                      CachePath(p.folder, path), version)
  {
    hide Added;
    var cached, e := CachePath(p.folder, path), Entry(LocalPath(p.folder, path, p.next), 1, 1, "rw");
    var descs := p.descs[p.next := Desc(path, true, 0)];
    LocalFresh(paths, p.folder, descs, s.list, s.disk, path, p.next);
    FoundIndex(s.list, e.path);
    IndexOfFirst(s.list, e.path);
    LocalIsNoCopy(paths, p.folder, path, p.next);
    AddedVersion(Put(s, e.path, s.disk[cached]), e, cached, version);
  }

  /** Close-to-open: after a successful open the cached file has the server's
      version, so it begins with, and in careful runs is, the server's file; and a
      writer's private copy is the same. */
  lemma OpenSeesServer(paths: set<string>, care: Care, s: System, c: Call)
    requires c.Open? && Succeeds(s, c) && c.path in paths && Tracks(care)
    requires ProxyGood(paths, care, s.svc, s.proxies[c.at])
    ensures var (p, s') := (s.proxies[c.at], After(s, c));
            var (p', name) := (s'.proxies[c.at], CachePath(p.folder, c.path));
            && c.path in s'.svc.disk && c.path in s'.svc.versions
            && (exists e :: e in p'.store.list && e.path == name && e.version == s'.svc.versions[c.path])
            && Content(p'.store.disk, name) <= s'.svc.disk[c.path]
            && (care.Careful? ==> Content(p'.store.disk, name) == s'.svc.disk[c.path])
            && p.next in p'.descs
            && (c.option != "READ" ==> CopyOf(p', p.next) == Content(p'.store.disk, name))
  {
    hide OpenFile, Linked;
    var p := s.proxies[c.at];
    var p' := After(s, c).proxies[c.at];
    StepKeepsGood(paths, care, s, c, c.at);
    OpenedVersion(paths, s.svc, p, c.path, c.option);
    OpenedDesc(s.svc, p, c.path, c.option);
    Referred(paths, p', p.next);
    var e :| e in p'.store.list && e.path == CachePath(p.folder, c.path);
    assert CopyOk(care, After(s, c).svc, c.path, e.version, Content(p'.store.disk, e.path));
    if c.option != "READ" {
      GoodAnyway(paths, care, s.svc, p);
      OpenCopies(paths, s, c);
    }
  }

  lemma OpenedDesc(svc: Service, p: Proxy, path: string, option: string)
    requires OpenFile(svc, p, path, option).2
    ensures var p' := OpenFile(svc, p, path, option).1;
            p'.folder == p.folder && p'.descs == p.descs[p.next := Desc(path, option == "READ", 0)]
  {
    hide OpenStore;
  }

  lemma Referred(paths: set<string>, p: Proxy, fd: int)
    requires ProxyOk(paths, p) && fd in p.descs
    ensures Found(p.store.list, CachePath(p.folder, p.descs[fd].path))
  {
    assert DescOk(paths, p.folder, p.store.list, p.descs[fd], fd);
  }

  lemma GoodAnyway(paths: set<string>, care: Care, svc: Service, p: Proxy)
    requires ProxyGood(paths, care, svc, p)
    ensures ProxyGood(paths, Roomy, svc, p)
  {
  }

  /** A writer's close sends its whole copy, over what the server has under the
      name cut out of the cached file's, and changes no other file there. */
  lemma CloseSends(s: System, c: Call)
    requires c.Close? && Succeeds(s, c) && Writer(s.proxies[c.at], c.fd)
    ensures var (p, q) := (s.proxies[c.at], Target(s.proxies[c.at], c.fd));
            && q in s.svc.disk
            && After(s, c).svc.disk == s.svc.disk[q := Overlay(s.svc.disk[q], 0, CopyOf(p, c.fd))]
  {
    hide Rebuilt, Overlay;
    CloseUnfolds(s.svc, s.proxies[c.at], c.fd);
  }

  /** A whole session of a writer: whatever other descriptors and other proxies do
      meanwhile, its close leaves the server's files as they were but for one, which
      begins with what the session's own writes made of the cached file.  If the
      path is clear of the folder's name that is the file it opened, and if it is
      not shorter than the server's it is the whole file. */
  lemma SessionExact(paths: set<string>, s: System, path: string, option: string, calls: seq<Call>, x: string)
    requires x in s.proxies && ProxyGood(paths, Roomy, s.svc, s.proxies[x])
    requires Succeeds(s, Open(x, path, option)) && path in paths && option != "READ"
    requires var s1 := After(s, Open(x, path, option));
             && Runs(s1, calls) && MindsAt(Roomy, s1, calls, x) && OpenedAt(calls, x) <= paths
             && !Closes(calls, x, s.proxies[x].next)
             && Succeeds(Final(s1, calls), Close(x, s.proxies[x].next))
    ensures var (fd, s1) := (s.proxies[x].next, After(s, Open(x, path, option)));
            var folder := s.proxies[x].folder;
            var s2 := Final(s1, calls);
            var (s3, cached) := (After(s2, Close(x, fd)), Content(s1.proxies[x].store.disk, CachePath(folder, path)));
            var (bytes, q) := (Own(calls, x, fd, cached, 0).0, ServerPath(folder, CachePath(folder, path)));
            && q in s2.svc.disk && s3.svc.disk.Keys == s2.svc.disk.Keys
            && (forall other :: other in s2.svc.disk && other != q ==> s3.svc.disk[other] == s2.svc.disk[other])
            && bytes <= s3.svc.disk[q]
            && (folder == [] || !Occurs(path, folder) ==> q == path)
            && (s3.svc.disk[q] == bytes <==> |s2.svc.disk[q]| <= |bytes|)
  {
    hide ProxyGood, After, Succeeds, Runs, Final, MindsAt, Own, CopyOf, OpenedAt;
    var fd := s.proxies[x].next;
    var s1 := After(s, Open(x, path, option));
    CallAdvances(s, Open(x, path, option));
    OpenCopies(paths, s, Open(x, path, option));
    CopyExact(paths, s1, calls, x, fd);
    var s2 := Final(s1, calls);
    CloseSends(s2, Close(x, fd));
    ServerPathExact(s.proxies[x].folder, path);
    UploadKeepsTail(s2.svc.disk[Target(s2.proxies[x], fd)], CopyOf(s2.proxies[x], fd));
  }
}
