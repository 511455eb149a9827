/** Main results for the caching proxies: over every interleaving of successful
    calls, the cache bookkeeping is exact and cached copies agree with the server. */
module ProxyCoherence {
  import opened Files
  import opened LruCache
  import opened LruTheorems
  import opened ChunkTransfer
  import opened PathNames
  import opened ProxyModel
  import opened ProxyLinkage
  import opened ProxySafety
  import opened ProxyOpens
  import opened ProxyDescriptors

  datatype System = System(svc: Service, proxies: map<string, Proxy>)

  /** A client call at proxy `at`. */
  datatype Call =
    | Open(at: string, path: string, option: string)
    | Close(at: string, fd: int)
    | Write(at: string, fd: int, data: Bytes)
    | Use(at: string, fd: int, pos: nat)

  function After(s: System, c: Call): System
    requires c.at in s.proxies && (!c.Open? ==> c.fd in s.proxies[c.at].descs)
  {
    var p := s.proxies[c.at];
    match c
    case Open(at, path, option) =>
      var r := OpenFile(s.svc, p, path, option);
      System(r.0, s.proxies[at := r.1])
    case Close(at, fd) =>
      var r := CloseFile(s.svc, p, fd);
      System(r.0, s.proxies[at := r.1])
    case Write(at, fd, data) => s.(proxies := s.proxies[at := WriteFile(p, fd, data).0])
    case Use(at, fd, pos) => s.(proxies := s.proxies[at := UseFile(p, fd, pos).0])
  }

  /** The call succeeds; no file is so long that its offsets wrap. */
  ghost predicate Succeeds(s: System, c: Call) {
    && c.at in s.proxies && (!c.Open? ==> c.fd in s.proxies[c.at].descs)
    && var p := s.proxies[c.at];
       match c
       case Open(_, path, option) => |Content(s.svc.disk, path)| <= LARGEST && OpenFile(s.svc, p, path, option).2
       case Close(_, fd) =>
         && |Content(p.store.disk, LocalPath(p.folder, p.descs[fd].path, fd))| <= LARGEST
         && CloseFile(s.svc, p, fd).2
       case Write(_, fd, data) => WriteFile(p, fd, data).1
       case Use(_, fd, pos) => UseFile(p, fd, pos).1
  }

  ghost predicate Runs(s: System, calls: seq<Call>)
    decreases |calls|
  {
    calls == [] || (Succeeds(s, calls[0]) && Runs(After(s, calls[0]), calls[1..]))
  }

  ghost function Final(s: System, calls: seq<Call>): System
    requires Runs(s, calls)
    decreases |calls|
  {
    if calls == [] then s else Final(After(s, calls[0]), calls[1..])
  }

  /** The paths opened at one proxy. */
  function OpenedAt(calls: seq<Call>, x: string): set<string> {
    set c | c in calls && c.Open? && c.at == x :: c.path
  }

  /** What updateCache does not report: a write's entries are still there.
      Beyond that, what closing writers keep to. */
  ghost predicate Minds(care: Care, s: System, c: Call)
    requires Succeeds(s, c)
  {
    var p := s.proxies[c.at];
    match c
    case Write(_, fd, data) => Kept(p, fd, data)
    case Close(_, fd) =>
      && (Tracks(care) && !p.descs[fd].readOnly ==> Clear(p, fd))
      && (care.Careful? ==> LongEnough(s.svc, p, fd))
    case _ => true
  }

  /** Proxy `x`'s own calls keep to `care`; the others need not. */
  ghost predicate MindsAt(care: Care, s: System, calls: seq<Call>, x: string)
    requires Runs(s, calls)
    decreases |calls|
  {
    calls == [] ||
    ((calls[0].at == x ==> Minds(care, s, calls[0])) && MindsAt(care, After(s, calls[0]), calls[1..], x))
  }

  /** Empty caches over any server contents. */
  ghost predicate Fresh(s: System) {
    forall x :: x in s.proxies ==>
      && s.proxies[x].store == Store([], map[], 0, s.proxies[x].store.capacity)
      && s.proxies[x].store.capacity >= 0 && s.proxies[x].descs == map[] && s.proxies[x].next == FIRST_FD
  }

  // ----- every call -----

  ghost predicate ProxyGood(paths: set<string>, care: Care, svc: Service, p: Proxy) {
    ProxyOk(paths, p) && Copies(paths, care, svc, p.folder, p.store.list, p.store.disk)
  }

  lemma FreshGood(paths: set<string>, care: Care, s: System, x: string)
    requires Fresh(s) && x in s.proxies && Apart(paths)
    ensures ProxyGood(paths, care, s.svc, s.proxies[x])
  {
  }

  lemma OpenCallKeeps(paths: set<string>, care: Care, svc: Service, p: Proxy, path: string, option: string)
    requires ProxyGood(paths, care, svc, p) && path in paths && OpenFile(svc, p, path, option).2
    ensures Keeps(paths, care, svc, OpenFile(svc, p, path, option).0, p, OpenFile(svc, p, path, option).1)
  {
    if option == "READ" {
      OpenReadKeeps(paths, care, svc, p, path);
    } else {
      OpenWriteKeeps(paths, care, svc, p, path, option);
    }
  }

  lemma CloseCallKeeps(paths: set<string>, care: Care, svc: Service, p: Proxy, fd: int)
    requires ProxyGood(paths, care, svc, p) && fd in p.descs && CloseFile(svc, p, fd).2
    requires Tracks(care) && !p.descs[fd].readOnly ==> Clear(p, fd)
    requires care.Careful? ==> LongEnough(svc, p, fd)
    ensures Keeps(paths, care, svc, CloseFile(svc, p, fd).0, p, CloseFile(svc, p, fd).1)
  {
    if p.descs[fd].readOnly {
      CloseReadKeeps(paths, care, svc, p, fd);
    } else {
      CloseWriteKeeps(paths, care, svc, p, fd);
    }
  }

  /** A call at the proxy itself. */
  lemma OwnCallKeeps(paths: set<string>, care: Care, s: System, c: Call)
    requires Succeeds(s, c) && Minds(care, s, c) && ProxyGood(paths, care, s.svc, s.proxies[c.at])
    requires c.Open? ==> c.path in paths
    ensures Keeps(paths, care, s.svc, After(s, c).svc, s.proxies[c.at], After(s, c).proxies[c.at])
  {
    hide OpenFile, CloseFile, WriteFile, UseFile, ProxyOk, Copies, Keeps;
    var p := s.proxies[c.at];
    match c {
      case Open(_, path, option) => OpenCallKeeps(paths, care, s.svc, p, path, option);
      case Close(_, fd) => CloseCallKeeps(paths, care, s.svc, p, fd);
      case Write(_, fd, data) => WriteKeeps(paths, care, s.svc, p, fd, data);
      case Use(_, fd, pos) => UseKeeps(paths, care, s.svc, p, fd, pos);
    }
  }

  /** Whatever state its proxy is in, a successful call only advances the server. */
  lemma CallAdvances(s: System, c: Call)
    requires Succeeds(s, c)
    ensures Advances(s.svc, After(s, c).svc)
    ensures After(s, c).proxies.Keys == s.proxies.Keys
    ensures forall x :: x in s.proxies && x != c.at ==> After(s, c).proxies[x] == s.proxies[x]
  {
    hide OpenFile, CloseFile, WriteFile, UseFile;
    var p := s.proxies[c.at];
    match c {
      case Open(_, path, option) => OpenAdvances(s.svc, p, path, option);
      case Close(_, fd) => CloseAdvances(s.svc, p, fd);
      case _ =>
    }
  }

  lemma StepKeepsGood(paths: set<string>, care: Care, s: System, c: Call, x: string)
    requires Succeeds(s, c) && (c.at == x ==> Minds(care, s, c) && (c.Open? ==> c.path in paths))
    requires x in s.proxies && ProxyGood(paths, care, s.svc, s.proxies[x])
    ensures x in After(s, c).proxies && ProxyGood(paths, care, After(s, c).svc, After(s, c).proxies[x])
  {
    hide ProxyOk, Copies, Minds, After, OpenFile, CloseFile, WriteFile, UseFile;
    CallAdvances(s, c);
    if c.at == x {
      OwnCallKeeps(paths, care, s, c);
    } else {
      var p := s.proxies[x];
      AdvancesCopies(paths, care, s.svc, After(s, c).svc, p.folder, p.store.list, p.store.disk);
    }
  }

  lemma {:induction false} RunKeepsGood(paths: set<string>, care: Care, s: System, calls: seq<Call>, x: string)
    requires Runs(s, calls) && MindsAt(care, s, calls, x) && OpenedAt(calls, x) <= paths
    requires x in s.proxies && ProxyGood(paths, care, s.svc, s.proxies[x])
    ensures var s' := Final(s, calls);
            x in s'.proxies && ProxyGood(paths, care, s'.svc, s'.proxies[x])
    decreases |calls|
  {
    hide ProxyGood, Minds, After, OpenFile, CloseFile, WriteFile, UseFile;
    if calls != [] {
      OpenedTail(calls, x);
      StepKeepsGood(paths, care, s, calls[0], x);
      RunKeepsGood(paths, care, After(s, calls[0]), calls[1..], x);
    }
  }

  lemma OpenedTail(calls: seq<Call>, x: string)
    requires calls != []
    ensures OpenedAt(calls[1..], x) <= OpenedAt(calls, x)
    ensures calls[0].Open? && calls[0].at == x ==> calls[0].path in OpenedAt(calls, x)
  {
    assert calls[0] in calls;
    assert forall c :: c in calls[1..] ==> c in calls;
  }

  // ----- main results -----

  /** Paths are unique, the size is the sum of the file lengths and within
      capacity, a count is the number of live descriptors, and every file with a
      live descriptor is in the cache and on disk. */
  ghost predicate Sound(p: Proxy) {
    && UniquePaths(p.store.list)
    && p.store.size == Total(p.store.list, p.store.disk) <= p.store.capacity
    && (forall e :: e in p.store.list ==> e.opens == |Refs(p.folder, p.descs, e.path)|)
    && (forall fd, name :: fd in p.descs && RefersTo(p.folder, p.descs[fd], fd, name) ==>
          Found(p.store.list, name) && name in p.store.disk)
  }

  lemma GoodIsSound(paths: set<string>, care: Care, svc: Service, p: Proxy)
    requires ProxyGood(paths, care, svc, p)
    ensures Sound(p)
  {
    forall fd, name | fd in p.descs && RefersTo(p.folder, p.descs[fd], fd, name)
      ensures Found(p.store.list, name) && name in p.store.disk
    {
      assert DescOk(paths, p.folder, p.store.list, p.descs[fd], fd);
    }
  }

  /** After any interleaving of successful calls: a proxy's bookkeeping is sound
      if none of its paths is another one with `@` and a descriptor behind it,
      and every write's entries are kept. */
  lemma CacheInvariant(s0: System, calls: seq<Call>, x: string)
    requires Fresh(s0) && Runs(s0, calls) && x in s0.proxies
    requires Apart(OpenedAt(calls, x)) && MindsAt(Roomy, s0, calls, x)
    ensures x in Final(s0, calls).proxies && Sound(Final(s0, calls).proxies[x])
  {
    hide ProxyGood, Sound;
    var paths := OpenedAt(calls, x);
    FreshGood(paths, Roomy, s0, x);
    RunKeepsGood(paths, Roomy, s0, calls, x);
    GoodIsSound(paths, Roomy, Final(s0, calls).svc, Final(s0, calls).proxies[x]);
  }

  /** A cached file of one of these paths is never newer than the server's; one
      of the same version is a prefix of it, and equal to it in careful runs. */
  ghost predicate Coherent(care: Care, paths: set<string>, svc: Service, p: Proxy) {
    forall e, path :: e in p.store.list && path in paths && e.path == CachePath(p.folder, path) ==>
      && path in svc.disk && path in svc.versions && e.version <= svc.versions[path]
      && (e.version == svc.versions[path] ==>
            && Content(p.store.disk, e.path) <= svc.disk[path]
            && (care.Careful? ==> Content(p.store.disk, e.path) == svc.disk[path]))
  }

  /** If also the paths of closing writers are clear of the cache folder's name,
      a cached file of the server's version is a prefix of the server's file,
      whatever other proxies do, and equal to it if no closing writer was
      shorter. */
  lemma CacheCoherence(care: Care, s0: System, calls: seq<Call>, x: string)
    requires Fresh(s0) && Runs(s0, calls) && x in s0.proxies
    requires Apart(OpenedAt(calls, x)) && MindsAt(care, s0, calls, x) && Tracks(care)
    ensures x in Final(s0, calls).proxies
    ensures Coherent(care, OpenedAt(calls, x), Final(s0, calls).svc, Final(s0, calls).proxies[x])
  {
    hide ProxyGood, Coherent;
    var paths := OpenedAt(calls, x);
    FreshGood(paths, care, s0, x);
    RunKeepsGood(paths, care, s0, calls, x);
    GoodIsCoherent(paths, care, Final(s0, calls).svc, Final(s0, calls).proxies[x]);
  }

  lemma GoodIsCoherent(paths: set<string>, care: Care, svc: Service, p: Proxy)
    requires ProxyGood(paths, care, svc, p) && Tracks(care)
    ensures Coherent(care, paths, svc, p)
  {
    forall e, path | e in p.store.list && path in paths && e.path == CachePath(p.folder, path)
      ensures CopyOk(care, svc, path, e.version, Content(p.store.disk, e.path))
    {
    }
  }

  // ----- a write that outgrows the cache -----

  /** The proxy is sound before and after every call of the run. */
  ghost predicate Throughout(s: System, calls: seq<Call>, x: string)
    requires Runs(s, calls)
    decreases |calls|
  {
    && x in s.proxies && Sound(s.proxies[x])
    && (calls == [] || Throughout(After(s, calls[0]), calls[1..], x))
  }

  /** A write whose entries are not kept leaves a live descriptor without its file. */
  lemma UnkeptUnsound(p: Proxy, fd: int, data: Bytes)
    requires fd in p.descs && WriteFile(p, fd, data).1 && !Kept(p, fd, data)
    ensures !Sound(WriteFile(p, fd, data).0)
  {
    hide WriteFile, TouchFiles, Grown, Total, UniquePaths, Refs, Found, CachePath, LocalPath;
    var p' := WriteFile(p, fd, data).0;
    WriteUnfolds(p, fd, data);
    assert fd in p'.descs && p'.descs[fd].path == p.descs[fd].path && !p'.descs[fd].readOnly;
    assert RefersTo(p'.folder, p'.descs[fd], fd, CachePath(p.folder, p.descs[fd].path));
    assert RefersTo(p'.folder, p'.descs[fd], fd, LocalPath(p.folder, p.descs[fd].path, fd));
  }

  lemma {:induction false} SoundWhileKept(paths: set<string>, s: System, calls: seq<Call>, x: string)
    requires Runs(s, calls) && OpenedAt(calls, x) <= paths
    requires x in s.proxies && ProxyGood(paths, Roomy, s.svc, s.proxies[x])
    ensures Throughout(s, calls, x) <==> MindsAt(Roomy, s, calls, x)
    decreases |calls|
  {
    hide ProxyGood, Sound, After, Kept, OpenFile, CloseFile, WriteFile, UseFile;
    GoodIsSound(paths, Roomy, s.svc, s.proxies[x]);
    if calls != [] {
      var c := calls[0];
      if c.at == x && !Minds(Roomy, s, c) {
        UnkeptEnds(s, c);
        assert !Throughout(After(s, c), calls[1..], x);
      } else {
        OpenedTail(calls, x);
        StepKeepsGood(paths, Roomy, s, c, x);
        SoundWhileKept(paths, After(s, c), calls[1..], x);
      }
    }
  }

  lemma UnkeptEnds(s: System, c: Call)
    requires Succeeds(s, c) && !Minds(Roomy, s, c)
    ensures c.at in After(s, c).proxies && !Sound(After(s, c).proxies[c.at])
  {
    hide Sound, WriteFile, Kept;
    UnkeptUnsound(s.proxies[c.at], c.fd, c.data);
  }

  /** Every call succeeding, a proxy is sound throughout exactly when each of its
      writes keeps its entries, that is, when the open files, as grown, fit. */
  lemma SoundExactly(s0: System, calls: seq<Call>, x: string)
    requires Fresh(s0) && Runs(s0, calls) && x in s0.proxies && Apart(OpenedAt(calls, x))
    ensures Throughout(s0, calls, x) <==> MindsAt(Roomy, s0, calls, x)
  {
    FreshGood(OpenedAt(calls, x), Roomy, s0, x);
    SoundWhileKept(OpenedAt(calls, x), s0, calls, x);
  }

  // ----- the write that loses an entry -----

  lemma {:induction false} PinnedMembers(list: seq<Entry>, e: Entry)
    ensures e in PinnedOnly(list) <==> e in list && Pinned(e)
  {
    if list != [] {
      PinnedMembers(list[1..], e);
      assert list == [list[0]] + list[1..];
    }
  }

  lemma {:induction false} PinnedWithout(list: seq<Entry>, i: nat, disk: Disk)
    requires i < |list| && Pinned(list[i])
    ensures Total(PinnedOnly(list), disk) == Total(PinnedOnly(Without(list, i)), disk) + Length(disk, list[i].path)
  {
    hide Total;
    var h, t := list[0], list[1..];
    TotalCons(h, PinnedOnly(t), disk);
    if i == 0 {
      assert Without(list, 0) == t;
    } else {
      PinnedWithout(t, i - 1, disk);
      assert Without(list, i)[1..] == Without(t, i - 1) && Without(list, i)[0] == h;
      TotalCons(h, PinnedOnly(Without(t, i - 1)), disk);
      assert [] + PinnedOnly(t) == PinnedOnly(t);
      assert [] + PinnedOnly(Without(t, i - 1)) == PinnedOnly(Without(t, i - 1));
    }
  }

  /** The first updateCache keeps its pinned entry exactly when the pinned files
      fit; if not, the other pinned entries are still there. */
  lemma TouchPinned(s: Store, name: string, other: string)
    requires UniquePaths(s.list) && Found(s.list, name) && Found(s.list, other) && other != name
    requires forall e :: e in s.list && (e.path == name || e.path == other) ==> Pinned(e)
    ensures Found(Touch(s, name).0.list, name) <==> Total(PinnedOnly(s.list), s.disk) <= s.capacity
    ensures Found(Touch(s, name).0.list, other)
  {
    TouchUnfolds(s, name);
    TouchExact(s, name);
    var i := IndexOf(s.list, name);
    assert s.list[i] in s.list;
    PinnedWithout(s.list, i, s.disk);
    FoundIndex(Touch(s, name).0.list, name);
    var e :| e in s.list && e.path == other;
    TouchKeepsPinned(s, name, e);
  }

  lemma TouchKeepsPinned(s: Store, name: string, e: Entry)
    requires UniquePaths(s.list) && Found(s.list, name) && e in s.list && Pinned(e) && e.path != name
    ensures e in Touch(s, name).0.list
  {
    TouchUnfolds(s, name);
    var i := IndexOf(s.list, name);
    var s1 := s.(list := Without(s.list, i));
    WithoutUnique(s.list, i);
    WithoutMembers(s.list, i);
    AddNewExact(s1, s.list[i]);
    PinnedMembers(s1.list, e);
    SurvivorOrDropped(s1.list, Needed(s1, Length(s1.disk, name), 0), e);
  }

  /** A write by a live descriptor always reports success, but it keeps the
      entries of the file it wrote exactly when all open files, as grown, fit. */
  lemma WriteKeptExact(paths: set<string>, p: Proxy, fd: int, data: Bytes)
    requires ProxyOk(paths, p) && fd in p.descs && !p.descs[fd].readOnly
    ensures WriteFile(p, fd, data).1
    ensures Kept(p, fd, data) <==>
              Total(PinnedOnly(p.store.list), Grown(p, fd, data).disk) <= p.store.capacity
  {
    var d := p.descs[fd];
    var name, local := CachePath(p.folder, d.path), LocalPath(p.folder, d.path, fd);
    WriteTouches(paths, p, fd, data);
    var s := Grown(p, fd, data);
    TouchPinned(s, name, local);
    var s1 := Touch(s, name).0;
    TouchUnfolds(s, name);
    TouchNeverAdds(s, name);
    TouchUnfolds(s1, local);
    TouchNeverAdds(s1, local);
    if Found(s1.list, name) {
      TouchExact(s, name);
      FoundIndex(s1.list, name);
      TouchFits(s1, local);
    }
  }

  lemma WriteTouches(paths: set<string>, p: Proxy, fd: int, data: Bytes)
    requires ProxyOk(paths, p) && fd in p.descs && !p.descs[fd].readOnly
    ensures var d := p.descs[fd];
            var (name, local) := (CachePath(p.folder, d.path), LocalPath(p.folder, d.path, fd));
            && name != local && Found(p.store.list, name) && Found(p.store.list, local) && local in p.store.disk
            && forall e :: e in p.store.list && (e.path == name || e.path == local) ==> Pinned(e)
  {
    var d := p.descs[fd];
    assert DescOk(paths, p.folder, p.store.list, d, fd);
    LocalIsNoCopy(paths, p.folder, d.path, fd);
    forall e | e in p.store.list && (e.path == CachePath(p.folder, d.path) || e.path == LocalPath(p.folder, d.path, fd))
      ensures Pinned(e)
    {
      PinnedByDesc(paths, p.folder, p.descs, p.store.list, p.store.disk, fd, e);
    }
  }

  // ----- closing a shorter file -----

  /** After a successful close of a writer, the cache holds the written bytes
      under the new version of the file they went to.  That is the file the
      client opened exactly when its path is clear of the folder's name, and the
      bytes are that file's exactly when they are no fewer than it had. */
  lemma CloseAgreesExactly(paths: set<string>, svc: Service, p: Proxy, fd: int)
    requires ProxyOk(paths, p) && fd in p.descs && !p.descs[fd].readOnly
    ensures var r := CloseFile(svc, p, fd);
            r.2 ==>
              var q := Target(p, fd);
              var name := CachePath(p.folder, p.descs[fd].path);
              && q in svc.disk && q in r.0.versions && q in r.0.disk
              && (q == p.descs[fd].path <==> Clear(p, fd))
              && (exists e :: e in r.1.store.list && e.path == name && e.version == r.0.versions[q])
              && (Content(r.1.store.disk, name) == r.0.disk[q] <==> LongEnough(svc, p, fd))
  {
    if CloseFile(svc, p, fd).2 {
      CloseAgrees(paths, svc, p, fd);
      UploadTargetExact(p, fd);
    }
  }

  lemma CloseAgrees(paths: set<string>, svc: Service, p: Proxy, fd: int)
    requires ProxyOk(paths, p) && fd in p.descs && !p.descs[fd].readOnly && CloseFile(svc, p, fd).2
    ensures var r := CloseFile(svc, p, fd);
            var q := Target(p, fd);
            var name := CachePath(p.folder, p.descs[fd].path);
            && q in svc.disk && q in r.0.versions && q in r.0.disk
            && (exists e :: e in r.1.store.list && e.path == name && e.version == r.0.versions[q])
            && (Content(r.1.store.disk, name) == r.0.disk[q] <==> LongEnough(svc, p, fd))
  {
    hide Rebuilt, AddNew, Evict;
    var q := Target(p, fd);
    var local, name := LocalPath(p.folder, p.descs[fd].path, fd), CachePath(p.folder, p.descs[fd].path);
    var content := Content(p.store.disk, local);
    CloseUnfolds(svc, p, fd);
    UploadAdvances(svc, q, content);
    var svc1 := Uploaded(svc, q, content).0;
    LocalDeleted(paths, Roomy, svc, p, fd);
    RebuiltHolds(Delete(p.store, local).0, name, content, svc1.versions[q]);
  }

  lemma RebuiltHolds(s: Store, name: string, content: Bytes, version: int)
    requires UniquePaths(s.list) && OnDisk(s.list, s.disk) && IndexOf(s.list, name) < |s.list|
    requires Rebuilt(s, name, content, version).1
    ensures var s' := Rebuilt(s, name, content, version).0;
            && Content(s'.disk, name) == content
            && exists e :: e in s'.list && e.path == name && e.version == version
  {
    RebuiltUnfolds(s, name, content, version);
    FoundIndex(s.list, name);
    CountDelete(s, name, -1);
    var emptied, e := Emptied(s, name, content), RebuiltEntry(s, name, version);
    AddNewExact(emptied, e);
    DroppedElsewhere(emptied.list, Needed(emptied, |content|, 0), name);
    assert AddNew(emptied, e).0.list[0] == e;
  }

  // ----- an open that does not touch -----

  /** Opening a cached file of the current version counts a reference but leaves
      the recency order alone, unless some entry bears the client's own path. */
  lemma HitDoesNotTouch(svc: Service, p: Proxy, path: string, option: string)
    requires UniquePaths(p.store.list) && IndexOf(p.store.list, CachePath(p.folder, path)) < |p.store.list|
    requires path in svc.versions
    requires p.store.list[IndexOf(p.store.list, CachePath(p.folder, path))].version == svc.versions[path]
    requires !Found(p.store.list, path)
    ensures OpenHit(svc, p.folder, p.store, path, option)
         == (svc, Count(p.store, CachePath(p.folder, path), 1), true)
  {
    var name := CachePath(p.folder, path);
    FoundIndex(p.store.list, name);
    CountFacts(p.store, name, 1);
    var counted := Count(p.store, name, 1);
    forall x ensures Found(counted.list, x) <==> Found(p.store.list, x) {
      ReplacedFound(p.store.list, counted.list, Counted(p.store.list[IndexOf(p.store.list, name)], 1), x);
    }
    TouchUnfolds(counted, path);
  }
}
