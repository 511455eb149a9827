/** Runs in which every call succeeds and the caching proxies still go wrong: a
    client path that contains the cache folder's name, a closing writer that is
    too short, a write that outgrows the cache, and two paths of which one is
    named like the other's private copy. */
module ProxyDepartures {
  import opened Files
  import opened LruCache
  import opened LruTheorems
  import opened ChunkTransfer
  import opened PathNames
  import opened ProxyModel
  import opened ProxyLinkage
  import opened ProxySafety
  import opened ProxyOpens
  import opened ProxyDescriptors
  import opened ProxyCoherence

  // ----- one writer on an otherwise empty proxy -----

  function Empty(folder: string, fd: int, capacity: nat): Proxy {
    Proxy(folder, Store([], map[], 0, capacity), map[], fd)
  }

  function CacheEntry(folder: string, path: string, opens: int, version: int): Entry {
    Entry(CachePath(folder, path), opens, version, "rw")
  }

  function LocalEntry(folder: string, path: string, fd: int): Entry {
    Entry(LocalPath(folder, path, fd), 1, 1, "rw")
  }

  /** The proxy while its only descriptor, a writer, is open. */
  function Session(folder: string, fd: int, capacity: nat, path: string, version: int,
                   cached: Bytes, local: Bytes, pos: nat): Proxy
  {
    Proxy(folder,
          Store([LocalEntry(folder, path, fd), CacheEntry(folder, path, 1, version)],
                map[CachePath(folder, path) := cached, LocalPath(folder, path, fd) := local],
                |cached| + |local|, capacity),
          map[fd := Desc(path, false, pos)], fd + 1)
  }

  /** The proxy after that descriptor has been closed. */
  function Ended(folder: string, fd: int, capacity: nat, path: string, version: int, cached: Bytes): Proxy {
    Proxy(folder,
          Store([CacheEntry(folder, path, 0, version)], map[CachePath(folder, path) := cached], |cached|, capacity),
          map[], fd + 1)
  }

  lemma NamesDiffer(folder: string, path: string, fd: int)
    ensures CachePath(folder, path) != LocalPath(folder, path, fd)
  {
    assert |LocalPath(folder, path, fd)| > |CachePath(folder, path)|;
  }

  lemma TotalOfTwo(a: Entry, b: Entry, disk: Disk)
    ensures Total([a], disk) == Length(disk, a.path)
    ensures Total([a, b], disk) == Length(disk, a.path) + Length(disk, b.path)
  {
    TotalCons(a, [], disk);
    TotalCons(a, [b], disk);
    TotalCons(b, [], disk);
    assert [a] + [] == [a] && [b] + [] == [b] && [a] + [b] == [a, b];
  }

  lemma CopyAdded(folder: string, fd: int, capacity: nat, path: string, version: int, content: Bytes)
    requires 2 * |content| <= capacity
    ensures var s := Store([CacheEntry(folder, path, 1, version)], map[CachePath(folder, path) := content],
                           |content|, capacity);
            CopyLocal(s, CachePath(folder, path), LocalPath(folder, path, fd))
            == (Session(folder, fd, capacity, path, version, content, content, 0).store, true)
  {
    hide AddNew, Evict;
    var name, local := CachePath(folder, path), LocalPath(folder, path, fd);
    var e, l := CacheEntry(folder, path, 1, version), LocalEntry(folder, path, fd);
    NamesDiffer(folder, path, fd);
    var s := Put(Store([e], map[name := content], |content|, capacity), local, content);
    TotalOfTwo(e, l, s.disk);
    assert [e][1..] == [];
    AddNewFits(s, l);
    assert [l] + [e] == [l, e];
    assert s.disk == map[name := content, local := content];
  }

  lemma CacheAdded(folder: string, capacity: nat, path: string, version: int, content: Bytes)
    requires |content| <= capacity
    ensures var s := Store([], map[CachePath(folder, path) := content], 0, capacity);
            AddNew(s, CacheEntry(folder, path, 1, version))
            == (Store([CacheEntry(folder, path, 1, version)], s.disk, |content|, capacity), true)
  {
    var e := CacheEntry(folder, path, 1, version);
    var s := Store([], map[CachePath(folder, path) := content], 0, capacity);
    AddNewFits(s, e);
    assert [e] + [] == [e];
  }

  lemma OpenAlone(svc: Service, folder: string, fd: int, capacity: nat, path: string)
    requires path in svc.disk && path in svc.versions && 2 * |svc.disk[path]| <= capacity
    ensures OpenFile(svc, Empty(folder, fd, capacity), path, "WRITE")
         == (svc, Session(folder, fd, capacity, path, svc.versions[path], svc.disk[path], svc.disk[path], 0), true)
  {
    hide AddNew, Evict;
    var p, content, version := Empty(folder, fd, capacity), svc.disk[path], svc.versions[path];
    var name := CachePath(folder, path);
    FetchedWhole(content);
    CacheAdded(folder, capacity, path, version, content);
    assert Put(p.store, name, content) == Store([], map[name := content], 0, capacity);
    var s := Store([CacheEntry(folder, path, 1, version)], map[name := content], |content|, capacity);
    assert OpenCached(svc, folder, p.store, path, "WRITE") == (svc, s, true);
    CopyAdded(folder, fd, capacity, path, version, content);
  }

  lemma WriteAlone(folder: string, fd: int, capacity: nat, path: string, version: int, data: Bytes)
    requires |data| <= capacity
    ensures var p := Session(folder, fd, capacity, path, version, [], [], 0);
            && WriteFile(p, fd, data)
               == (Session(folder, fd, capacity, path, version, [], data, |data|), true)
            && Kept(p, fd, data)
  {
    hide AddNew, Evict, Total;
    var p := Session(folder, fd, capacity, path, version, [], [], 0);
    var name, local := CachePath(folder, path), LocalPath(folder, path, fd);
    var e, l := CacheEntry(folder, path, 1, version), LocalEntry(folder, path, fd);
    NamesDiffer(folder, path, fd);
    var s := Grown(p, fd, data);
    UploadKeepsTail([], data);
    assert s.disk == map[name := [], local := data];
    TotalOfTwo(l, e, s.disk);
    TotalOfTwo(e, l, s.disk);
    TouchSecond(s, l, e);
    TouchSecond(s.(list := [e, l], size := |data|), e, l);
    assert l in [l, e] && e in [l, e];
    assert p.descs[fd := Desc(path, false, |data|)] == map[fd := Desc(path, false, |data|)];
    assert TouchBoth(s, name, local).0.list == [l, e];
  }

  /** Touching the second of two entries that fit swaps them. */
  lemma TouchSecond(s: Store, a: Entry, b: Entry)
    requires s.list == [a, b] && a.path != b.path && b.path in s.disk
    requires Total([a, b], s.disk) <= s.capacity
    ensures Touch(s, b.path) == (s.(list := [b, a], size := Total([a, b], s.disk)), 0)
  {
    assert [a, b][1..] == [b];
    TouchExact(s, b.path);
    assert Without(s.list, 1) == [a];
    assert [b] + [a] == [b, a];
  }

  lemma CloseAlone(svc: Service, folder: string, fd: int, capacity: nat, path: string, version: int,
                   cached: Bytes, local: Bytes, pos: nat)
    requires |local| <= capacity
    requires var q := ServerPath(folder, CachePath(folder, path)); q in svc.disk && q in svc.versions
    ensures var q := ServerPath(folder, CachePath(folder, path));
            var svc' := Uploaded(svc, q, local).0;
            && q in svc'.versions
            && CloseFile(svc, Session(folder, fd, capacity, path, version, cached, local, pos), fd)
               == (svc', Ended(folder, fd, capacity, path, svc'.versions[q], local), true)
  {
    hide AddNew, Evict, Total, CachePath, LocalPath, ServerPath, Rebuilt, Overlay;
    var p := Session(folder, fd, capacity, path, version, cached, local, pos);
    var name, file := CachePath(folder, path), LocalPath(folder, path, fd);
    var q := ServerPath(folder, name);
    var e, l := CacheEntry(folder, path, 1, version), LocalEntry(folder, path, fd);
    NamesDiffer(folder, path, fd);
    assert [l, e][1..] == [e] && [e][1..] == [];
    var s := Delete(p.store, file).0;
    assert Without([l, e], 0) == [e];
    assert s.list == [e] && s.disk == map[name := cached];
    var svc' := Uploaded(svc, q, local).0;
    RebuildAlone(s, e, local, svc'.versions[q]);
    assert p.descs - {fd} == map[];
  }

  lemma RebuildAlone(s: Store, e: Entry, content: Bytes, version: int)
    requires s.list == [e] && s.disk.Keys == {e.path} && e.opens == 1 && |content| <= s.capacity
    ensures Rebuilt(s, e.path, content, version)
         == (Store([e.(opens := 0, version := version)], map[e.path := content], |content|, s.capacity), true)
  {
    hide AddNew, Evict;
    assert e in s.list && [e][1..] == [];
    RebuiltUnfolds(s, e.path, content, version);
    var counted := Count(s, e.path, -1);
    assert counted.list == [Counted(e, -1)];
    assert Without(counted.list, 0) == [];
    var emptied, e' := Emptied(s, e.path, content), RebuiltEntry(s, e.path, version);
    assert emptied.list == [] && emptied.disk == map[e.path := content];
    AddNewFits(emptied, e');
    assert [e'] + [] == [e'];
  }

  // ----- runs from their states -----

  lemma OneCall(care: Care, s: System, c: Call, rest: seq<Call>, x: string)
    requires Succeeds(s, c) && Runs(After(s, c), rest)
    requires (c.at == x ==> Minds(care, s, c)) && MindsAt(care, After(s, c), rest, x)
    ensures Runs(s, [c] + rest) && Final(s, [c] + rest) == Final(After(s, c), rest)
    ensures MindsAt(care, s, [c] + rest, x)
  {
    assert ([c] + rest)[1..] == rest;
  }

  lemma NoCall(care: Care, s: System, x: string)
    ensures Runs(s, []) && Final(s, []) == s && MindsAt(care, s, [], x)
  {
  }

  /** One call from one state to another, keeping to `care`. */
  ghost predicate Leads(care: Care, s: System, c: Call, s': System) {
    Succeeds(s, c) && Minds(care, s, c) && After(s, c) == s'
  }

  /** A run given by its states, in which every proxy keeps to `care`. */
  lemma {:induction false} Path(care: Care, calls: seq<Call>, states: seq<System>, x: string)
    requires |states| == |calls| + 1
    requires forall i :: 0 <= i < |calls| ==> Leads(care, states[i], calls[i], states[i + 1])
    ensures Runs(states[0], calls) && Final(states[0], calls) == states[|calls|]
    ensures MindsAt(care, states[0], calls, x)
    decreases |calls|
  {
    hide Runs, Final, Succeeds, After, Minds, MindsAt;
    if calls == [] {
      NoCall(care, states[0], x);
    } else {
      assert forall i :: 0 <= i < |calls[1..]| ==> Leads(care, states[1..][i], calls[1..][i], states[1..][i + 1]);
      Path(care, calls[1..], states[1..], x);
      assert Leads(care, states[0], calls[0], states[1]);
      OneCall(care, states[0], calls[0], calls[1..], x);
      assert [calls[0]] + calls[1..] == calls;
    }
  }

  /** One cached file is enough to spoil coherence. */
  lemma Incoherent(care: Care, paths: set<string>, svc: Service, p: Proxy, e: Entry, path: string)
    requires e in p.store.list && path in paths
    requires e.path == CachePath(p.folder, path) && path in svc.disk && path in svc.versions
    requires || e.version > svc.versions[path]
             || (&& e.version == svc.versions[path] && care.Careful?
                 && Content(p.store.disk, e.path) != svc.disk[path])
    ensures !Coherent(care, paths, svc, p)
  {
  }

  // ----- a path that contains the folder's name -----

  /** Whenever the folder's name occurs in a client's path, there are server
      files with which opening it for writing and closing it again, every call
      successful and nothing shortened, leaves a copy newer than its file: the
      bytes went to another file. */
  lemma CoherenceNeedsClearPaths(folder: string, path: string)
    requires folder != [] && Occurs(path, folder)
    ensures exists s0, calls ::
              && Fresh(s0) && "p" in s0.proxies && Runs(s0, calls) && MindsAt(Roomy, s0, calls, "p")
              && OpenedAt(calls, "p") == {path} && "p" in Final(s0, calls).proxies
              && !Coherent(Clean, {path}, Final(s0, calls).svc, Final(s0, calls).proxies["p"])
  {
    hide Runs, Final, Coherent, After, Stray, Fresh, MindsAt, Leads;
    var calls := [Open("p", path, "WRITE"), Close("p", FIRST_FD)];
    var states := [Stray(folder, path, 0), Stray(folder, path, 1), Stray(folder, path, 2)];
    StrayUpload(folder, path);
    StrayEnds(folder, path);
    Path(Roomy, calls, states, "p");
    assert calls[0] in calls && OpenedAt(calls, "p") == {path};
  }

  lemma StrayEnds(folder: string, path: string)
    requires folder != [] && Occurs(path, folder)
    ensures Fresh(Stray(folder, path, 0)) && "p" in Stray(folder, path, 0).proxies
    ensures var s := Stray(folder, path, 2);
            "p" in s.proxies && !Coherent(Clean, {path}, s.svc, s.proxies["p"])
  {
    hide Coherent;
    ServerPathExact(folder, path);
    var s := Stray(folder, path, 2);
    Incoherent(Clean, {path}, s.svc, s.proxies["p"], CacheEntry(folder, path, 0, 2), path);
  }

  /** The system before that run and after each of its two calls. */
  function Stray(folder: string, path: string, step: nat): System {
    var q := ServerPath(folder, CachePath(folder, path));
    var p := if step == 0 then Empty(folder, FIRST_FD, 0)
             else if step == 1 then Session(folder, FIRST_FD, 0, path, 1, [], [], 0)
             else Ended(folder, FIRST_FD, 0, path, 2, []);
    System(Service(map[path := [], q := []], map[path := 1, q := if step < 2 then 1 else 2]), map["p" := p])
  }

  lemma StrayUpload(folder: string, path: string)
    requires folder != [] && Occurs(path, folder)
    ensures Leads(Roomy, Stray(folder, path, 0), Open("p", path, "WRITE"), Stray(folder, path, 1))
    ensures Leads(Roomy, Stray(folder, path, 1), Close("p", FIRST_FD), Stray(folder, path, 2))
  {
    hide OpenFile, CloseFile, ServerPath, CachePath, LocalPath, Occurs;
    ServerPathExact(folder, path);
    var s0, s1, s2 := Stray(folder, path, 0), Stray(folder, path, 1), Stray(folder, path, 2);
    OpenAlone(s0.svc, folder, FIRST_FD, 0, path);
    CloseAlone(s1.svc, folder, FIRST_FD, 0, path, 1, [], [], 0);
    NamesDiffer(folder, path, FIRST_FD);
    var q := ServerPath(folder, CachePath(folder, path));
    assert s1.svc.disk[q := []] == s2.svc.disk && s1.svc.versions[q := 2] == s2.svc.versions;
    assert Overlay([], 0, []) == [];
  }

  // ----- a writer that is too short -----

  /** A writer that opened before another one extended the file closes: its
      upload shortens nothing, and its copy, of the server's version, is not the
      server's file.  Only the length condition fails. */
  lemma CoherenceNeedsLength(folder: string, path: string, data: Bytes)
    requires (folder == [] || !Occurs(path, folder)) && 0 < |data| <= LARGEST
    ensures exists s0, calls ::
              && Fresh(s0) && "a" in s0.proxies && Runs(s0, calls) && MindsAt(Clean, s0, calls, "a")
              && OpenedAt(calls, "a") == {path} && "a" in Final(s0, calls).proxies
              && !Coherent(Careful, {path}, Final(s0, calls).svc, Final(s0, calls).proxies["a"])
  {
    hide Runs, Final, Coherent, After, TwoWriters, MindsAt, Fresh, OpenedAt;
    var calls, states := TwoWritersRun(folder, path, data);
    Path(Clean, calls, states, "a");
    TwoWritersEnds(folder, path, data);
  }

  lemma TwoWritersRun(folder: string, path: string, data: Bytes) returns (calls: seq<Call>, states: seq<System>)
    requires (folder == [] || !Occurs(path, folder)) && 0 < |data| <= LARGEST
    ensures |calls| == 5 && |states| == 6 && OpenedAt(calls, "a") == {path}
    ensures states[0] == TwoWriters(folder, path, data, 0) && states[5] == TwoWriters(folder, path, data, 5)
    ensures forall i :: 0 <= i < 5 ==> Leads(Clean, states[i], calls[i], states[i + 1])
  {
    hide TwoWriters, Leads;
    ServerPathExact(folder, path);
    OpensOfTwo(folder, path, data);
    WriteOfTwo(folder, path, data);
    FirstCloseOfTwo(folder, path, data);
    SecondCloseOfTwo(folder, path, data);
    calls := [Open("a", path, "WRITE"), Open("b", path, "WRITE"), Write("b", FIRST_FD, data),
              Close("b", FIRST_FD), Close("a", FIRST_FD)];
    states := [TwoWriters(folder, path, data, 0), TwoWriters(folder, path, data, 1), TwoWriters(folder, path, data, 2),
               TwoWriters(folder, path, data, 3), TwoWriters(folder, path, data, 4), TwoWriters(folder, path, data, 5)];
    assert calls[0] in calls;
  }

  lemma TwoWritersEnds(folder: string, path: string, data: Bytes)
    requires data != []
    ensures Fresh(TwoWriters(folder, path, data, 0)) && "a" in TwoWriters(folder, path, data, 0).proxies
    ensures var s := TwoWriters(folder, path, data, 5);
            "a" in s.proxies && !Coherent(Careful, {path}, s.svc, s.proxies["a"])
  {
    hide Coherent, Pieces;
    var s := TwoWriters(folder, path, data, 5);
    Incoherent(Careful, {path}, s.svc, s.proxies["a"], CacheEntry(folder, path, 0, 2 + Pieces(|data|)), path);
  }

  /** The system before the run and after each of its five calls. */
  function TwoWriters(folder: string, path: string, data: Bytes, step: nat): System {
    var capacity := |data|;
    var idle, open := Empty(folder, FIRST_FD, capacity), Session(folder, FIRST_FD, capacity, path, 1, [], [], 0);
    var wrote := Session(folder, FIRST_FD, capacity, path, 1, [], data, |data|);
    var n := 1 + Pieces(|data|);
    var b := if step < 2 then idle else if step == 2 then open else if step == 3 then wrote
             else Ended(folder, FIRST_FD, capacity, path, n, data);
    var a := if step < 1 then idle else if step < 5 then open else Ended(folder, FIRST_FD, capacity, path, n + 1, []);
    var svc := if step < 4 then Service(map[path := []], map[path := 1])
               else Service(map[path := data], map[path := if step == 4 then n else n + 1]);
    System(svc, map["a" := a, "b" := b])
  }

  lemma OpensOfTwo(folder: string, path: string, data: Bytes)
    ensures Leads(Clean, TwoWriters(folder, path, data, 0), Open("a", path, "WRITE"), TwoWriters(folder, path, data, 1))
    ensures Leads(Clean, TwoWriters(folder, path, data, 1), Open("b", path, "WRITE"), TwoWriters(folder, path, data, 2))
  {
    hide OpenFile;
    var svc := Service(map[path := []], map[path := 1]);
    OpenAlone(svc, folder, FIRST_FD, |data|, path);
  }

  lemma WriteOfTwo(folder: string, path: string, data: Bytes)
    ensures Leads(Clean, TwoWriters(folder, path, data, 2), Write("b", FIRST_FD, data),
                  TwoWriters(folder, path, data, 3))
  {
    hide WriteFile, Kept;
    WriteAlone(folder, FIRST_FD, |data|, path, 1, data);
  }

  lemma FirstCloseOfTwo(folder: string, path: string, data: Bytes)
    requires |data| <= LARGEST && ServerPath(folder, CachePath(folder, path)) == path
    requires folder == [] || !Occurs(path, folder)
    ensures Leads(Clean, TwoWriters(folder, path, data, 3), Close("b", FIRST_FD), TwoWriters(folder, path, data, 4))
  {
    hide CloseFile, ServerPath, Pieces, CachePath, LocalPath, Occurs;
    var s3, s4 := TwoWriters(folder, path, data, 3), TwoWriters(folder, path, data, 4);
    NamesDiffer(folder, path, FIRST_FD);
    UploadKeepsTail([], data);
    CloseAlone(s3.svc, folder, FIRST_FD, |data|, path, 1, [], data, |data|);
    assert s3.svc.disk[path := data] == s4.svc.disk;
    assert s3.svc.versions[path := 1 + Pieces(|data|)] == s4.svc.versions;
  }

  lemma SecondCloseOfTwo(folder: string, path: string, data: Bytes)
    requires ServerPath(folder, CachePath(folder, path)) == path
    requires folder == [] || !Occurs(path, folder)
    ensures Leads(Clean, TwoWriters(folder, path, data, 4), Close("a", FIRST_FD), TwoWriters(folder, path, data, 5))
  {
    hide CloseFile, ServerPath, CachePath, LocalPath, Occurs;
    var s4, s5 := TwoWriters(folder, path, data, 4), TwoWriters(folder, path, data, 5);
    NamesDiffer(folder, path, FIRST_FD);
    CloseAlone(s4.svc, folder, FIRST_FD, |data|, path, 1, [], [], 0);
    assert s4.svc.disk[path := data] == s5.svc.disk;
    assert s4.svc.versions[path := 2 + Pieces(|data|)] == s5.svc.versions;
  }

  // ----- a write that outgrows the cache -----

  /** One open of an empty file for writing and one write of more bytes than the
      cache holds, both successful: the descriptor is live, and the cached file
      it belongs to is no longer in the cache. */
  lemma InvariantNeedsRoom(folder: string, path: string, data: Bytes)
    requires data != []
    ensures exists s0, calls ::
              && Fresh(s0) && "p" in s0.proxies && Runs(s0, calls) && |calls| == 2
              && OpenedAt(calls, "p") == {path} && Apart({path})
              && "p" in Final(s0, calls).proxies && !Sound(Final(s0, calls).proxies["p"])
  {
    hide Runs, Final, After, Crowded, Fresh, Sound, MindsAt, Minds, OpenFile, WriteFile, CloseFile, UseFile;
    var open, write := Open("p", path, "WRITE"), Write("p", FIRST_FD, data);
    var s0, s1 := Crowded(folder, path, data, 0), Crowded(folder, path, data, 1);
    CrowdedSteps(folder, path, data);
    CrowdedWrite(folder, path, data);
    NoCall(Roomy, After(s1, write), "q");
    OneCall(Roomy, s1, write, [], "q");
    assert [write] + [] == [write] && After(s0, open) == s1;
    OneCall(Roomy, s0, open, [write], "q");
    var calls := [open] + [write];
    assert calls[0] == open && calls[1] == write && OpenedAt(calls, "p") == {path};
    ApartAlone(path);
  }

  /** The system before that run and after its open. */
  function Crowded(folder: string, path: string, data: Bytes, step: nat): System {
    var capacity := if data == [] then 0 else |data| - 1;
    var p := if step == 0 then Empty(folder, FIRST_FD, capacity)
             else Session(folder, FIRST_FD, capacity, path, 1, [], [], 0);
    System(Service(map[path := []], map[path := 1]), map["p" := p])
  }

  lemma CrowdedSteps(folder: string, path: string, data: Bytes)
    ensures Fresh(Crowded(folder, path, data, 0)) && "p" in Crowded(folder, path, data, 0).proxies
    ensures Leads(Roomy, Crowded(folder, path, data, 0), Open("p", path, "WRITE"), Crowded(folder, path, data, 1))
  {
    hide OpenFile;
    var s0 := Crowded(folder, path, data, 0);
    OpenAlone(s0.svc, folder, FIRST_FD, s0.proxies["p"].store.capacity, path);
  }

  lemma CrowdedWrite(folder: string, path: string, data: Bytes)
    requires data != []
    ensures Succeeds(Crowded(folder, path, data, 1), Write("p", FIRST_FD, data))
    ensures var s := After(Crowded(folder, path, data, 1), Write("p", FIRST_FD, data));
            "p" in s.proxies && !Sound(s.proxies["p"])
  {
    hide OpenFile, WriteFile, Kept, Total, AddNew, PinnedOnly, ProxyGood, Sound;
    var s0, s1 := Crowded(folder, path, data, 0), Crowded(folder, path, data, 1);
    var p := s1.proxies["p"];
    CrowdedSteps(folder, path, data);
    ApartAlone(path);
    FreshGood({path}, Roomy, s0, "p");
    StepKeepsGood({path}, Roomy, s0, Open("p", path, "WRITE"), "p");
    WriteOutgrows(folder, path, data);
    UnkeptUnsound(p, FIRST_FD, data);
  }

  lemma WriteOutgrows(folder: string, path: string, data: Bytes)
    requires data != []
    requires ProxyGood({path}, Roomy, Crowded(folder, path, data, 1).svc, Crowded(folder, path, data, 1).proxies["p"])
    ensures var p := Crowded(folder, path, data, 1).proxies["p"];
            WriteFile(p, FIRST_FD, data).1 && !Kept(p, FIRST_FD, data)
  {
    hide WriteFile, Kept, Total, AddNew, ProxyOk, Copies;
    var p := Crowded(folder, path, data, 1).proxies["p"];
    var e, l := CacheEntry(folder, path, 1, 1), LocalEntry(folder, path, FIRST_FD);
    WriteKeptExact({path}, p, FIRST_FD, data);
    assert p.store.list == [l, e] && [l, e][1..] == [e] && [e][1..] == [];
    assert PinnedOnly([e]) == [e] + [] && [l] + [e] == [l, e];
    assert PinnedOnly(p.store.list) == [l, e];
    UploadKeepsTail([], data);
    var s := Grown(p, FIRST_FD, data);
    NamesDiffer(folder, path, FIRST_FD);
    TotalOfTwo(l, e, s.disk);
  }
}
