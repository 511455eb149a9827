/** Two client paths of which one is the other with `@` and a descriptor behind
    it: then one file's private copy is the other's cached file. */
module ProxyCollisions {
  import opened Decimal
  import opened Files
  import opened LruCache
  import opened LruTheorems
  import opened ChunkTransfer
  import opened PathNames
  import opened ProxyModel
  import opened ProxyLinkage
  import opened ProxySafety
  import opened ProxyOpens
  import opened ProxyDescriptors
  import opened ProxyCoherence
  import opened ProxyDepartures

  /** The folder's name takes no part in the collision. */
  ghost predicate FolderAside(folder: string, path: string, q: string) {
    folder != [] && !Occurs(path, folder) && CachePath(folder, path) != q
  }

  // ----- the copy first -----

  /** A writer's private copy, opened by its name. */
  function Shadowed(folder: string, path: string, q: string): Proxy {
    var s := Session(folder, FIRST_FD, 0, path, 1, [], [], 0);
    s.(store := s.store.(list := [LocalEntry(folder, path, FIRST_FD).(opens := 2), CacheEntry(folder, path, 1, 1)]),
       descs := s.descs[FIRST_FD + 1 := Desc(q, true, 0)], next := FIRST_FD + 2)
  }

  lemma OpenShadow(svc: Service, folder: string, path: string, q: string)
    requires FolderAside(folder, path, q) && IsCopyOf(q, path, FIRST_FD) && q !in svc.versions
    ensures OpenFile(svc, Session(folder, FIRST_FD, 0, path, 1, [], [], 0), q, "READ")
         == (Known(svc, q), Shadowed(folder, path, q), true)
  {
    hide Touch, AddNew;
    var p := Session(folder, FIRST_FD, 0, path, 1, [], [], 0);
    var name := CachePath(folder, q);
    NamesDistinct(folder, q, path, FIRST_FD, FIRST_FD);
    NamesDiffer(folder, path, FIRST_FD);
    var e, l := CacheEntry(folder, path, 1, 1), LocalEntry(folder, path, FIRST_FD);
    assert name == l.path && p.store.list == [l, e];
    assert |name| > |q|;
    assert Count(p.store, name, 1).list == [Counted(l, 1), e];
    HitDoesNotTouch(Known(svc, q), p, q, "READ");
  }

  lemma CloseShadowed(svc: Service, folder: string, path: string, q: string)
    requires FolderAside(folder, path, q) && IsCopyOf(q, path, FIRST_FD) && path in svc.disk && path in svc.versions
    ensures var r := CloseFile(svc, Shadowed(folder, path, q), FIRST_FD);
            && r.2 && r.1.folder == folder && r.1.descs == map[FIRST_FD + 1 := Desc(q, true, 0)]
            && !Found(r.1.store.list, CachePath(folder, q))
  {
    hide AddNew, Evict, Total, ServerPath, Rebuilt, Overlay, Occurs;
    var p := Shadowed(folder, path, q);
    ServerPathExact(folder, path);
    NamesDistinct(folder, q, path, FIRST_FD, FIRST_FD);
    NamesDiffer(folder, path, FIRST_FD);
    var e, l := CacheEntry(folder, path, 1, 1), LocalEntry(folder, path, FIRST_FD).(opens := 2);
    assert [l, e][1..] == [e] && [e][1..] == [];
    var s := Delete(p.store, l.path).0;
    assert Without([l, e], 0) == [e];
    assert s.list == [e] && s.disk == map[e.path := []];
    RebuildAlone(s, e, [], Uploaded(svc, path, []).0.versions[path]);
    assert p.descs - {FIRST_FD} == map[FIRST_FD + 1 := Desc(q, true, 0)];
  }

  function Alone(svc: Service, p: Proxy): System {
    System(svc, map["p" := p])
  }

  function OneFile(path: string): Service {
    Service(map[path := []], map[path := 1])
  }

  /** A writer opens `path` as the first descriptor, a reader opens the name of
      its private copy, and the writer closes: every call succeeds and keeps to
      all that is asked of it, and the reader's file is gone. */
  lemma CopyOpenedByName(folder: string, path: string, q: string)
    requires FolderAside(folder, path, q) && IsCopyOf(q, path, FIRST_FD)
    ensures exists s0, calls ::
              && Fresh(s0) && "p" in s0.proxies && Runs(s0, calls) && OpenedAt(calls, "p") <= {path, q}
              && MindsAt(Roomy, s0, calls, "p") && MindsAt(Careful, s0, calls, "p")
              && "p" in Final(s0, calls).proxies && !Sound(Final(s0, calls).proxies["p"])
  {
    hide Runs, Final, MindsAt, Sound, OpenedAt, Fresh, Leads;
    var calls, states := ShadowRun(folder, path, q);
    Path(Careful, calls, states, "p");
    forall i | 0 <= i < |calls| ensures Leads(Roomy, states[i], calls[i], states[i + 1]) {
      LessCare(states[i], calls[i], states[i + 1]);
    }
    Path(Roomy, calls, states, "p");
  }

  lemma LessCare(s: System, c: Call, s': System)
    requires Leads(Careful, s, c, s')
    ensures Leads(Roomy, s, c, s')
  {
  }

  lemma ShadowRun(folder: string, path: string, q: string) returns (calls: seq<Call>, states: seq<System>)
    requires FolderAside(folder, path, q) && IsCopyOf(q, path, FIRST_FD)
    ensures |states| == |calls| + 1 && OpenedAt(calls, "p") <= {path, q}
    ensures Fresh(states[0]) && "p" in states[0].proxies
    ensures forall i :: 0 <= i < |calls| ==> Leads(Careful, states[i], calls[i], states[i + 1])
    ensures "p" in states[|calls|].proxies && !Sound(states[|calls|].proxies["p"])
  {
    hide After, Minds, Sound, Session, Shadowed, OpenFile, CloseFile;
    calls := [Open("p", path, "WRITE"), Open("p", q, "READ"), Close("p", FIRST_FD)];
    var s0 := Alone(OneFile(path), Empty(folder, FIRST_FD, 0));
    var s1 := Alone(OneFile(path), Session(folder, FIRST_FD, 0, path, 1, [], [], 0));
    var s2 := Alone(Known(OneFile(path), q), Shadowed(folder, path, q));
    ShadowOpens(folder, path, q);
    ShadowCloses(folder, path, q);
    states := [s0, s1, s2, After(s2, calls[2])];
  }

  lemma ShadowOpens(folder: string, path: string, q: string)
    requires FolderAside(folder, path, q) && IsCopyOf(q, path, FIRST_FD)
    ensures var s0 := Alone(OneFile(path), Empty(folder, FIRST_FD, 0));
            var s1 := Alone(OneFile(path), Session(folder, FIRST_FD, 0, path, 1, [], [], 0));
            var s2 := Alone(Known(OneFile(path), q), Shadowed(folder, path, q));
            && Leads(Careful, s0, Open("p", path, "WRITE"), s1)
            && Leads(Careful, s1, Open("p", q, "READ"), s2)
  {
    hide OpenFile, Session, Shadowed;
    assert |q| > |path|;
    OpenAlone(OneFile(path), folder, FIRST_FD, 0, path);
    OpenShadow(OneFile(path), folder, path, q);
  }

  lemma ShadowCloses(folder: string, path: string, q: string)
    requires FolderAside(folder, path, q) && IsCopyOf(q, path, FIRST_FD)
    ensures var s2 := Alone(Known(OneFile(path), q), Shadowed(folder, path, q));
            && Succeeds(s2, Close("p", FIRST_FD)) && Minds(Careful, s2, Close("p", FIRST_FD))
            && "p" in After(s2, Close("p", FIRST_FD)).proxies && !Sound(After(s2, Close("p", FIRST_FD)).proxies["p"])
  {
    hide CloseFile, Total, UniquePaths, Refs;
    var s2 := Alone(Known(OneFile(path), q), Shadowed(folder, path, q));
    assert |q| > |path|;
    NamesDiffer(folder, path, FIRST_FD);
    CloseShadowed(s2.svc, folder, path, q);
    UploadTargetExact(s2.proxies["p"], FIRST_FD);
    var p := CloseFile(s2.svc, s2.proxies["p"], FIRST_FD).1;
    assert RefersTo(folder, p.descs[FIRST_FD + 1], FIRST_FD + 1, CachePath(folder, q));
  }

  // ----- the cached file first -----

  /** `k` readers of the empty file `q`. */
  function Readers(folder: string, q: string, k: nat): Proxy {
    if k == 0 then Empty(folder, FIRST_FD, 0)
    else
      Proxy(folder, Store([Entry(CachePath(folder, q), k, 1, "r")], map[CachePath(folder, q) := []], 0, 0),
            ReaderDescs(q, k), FIRST_FD + k)
  }

  function ReaderDescs(q: string, k: nat): map<int, Desc> {
    if k == 0 then map[] else ReaderDescs(q, k - 1)[FIRST_FD + k - 1 := Desc(q, true, 0)]
  }

  function TwoFiles(path: string, q: string): Service {
    Service(map[path := [], q := []], map[path := 1, q := 1])
  }

  lemma OpenReader(svc: Service, folder: string, q: string, k: nat)
    requires folder != [] && q in svc.disk && svc.disk[q] == [] && q in svc.versions && svc.versions[q] == 1
    ensures OpenFile(svc, Readers(folder, q, k), q, "READ") == (svc, Readers(folder, q, k + 1), true)
  {
    hide Touch, AddNew, Evict;
    var p, p', name := Readers(folder, q, k), Readers(folder, q, k + 1), CachePath(folder, q);
    if k == 0 {
      var e := Entry(name, 1, 1, "r");
      FetchedWhole([]);
      AddNewFits(Store([], map[name := []], 0, 0), e);
      assert [e] + [] == [e];
    } else {
      assert |name| > |q|;
      HitDoesNotTouch(svc, p, q, "READ");
      assert Count(p.store, name, 1).list == [Counted(p.store.list[0], 1)];
    }
    assert p.descs[p.next := Desc(q, true, 0)] == p'.descs;
  }

  /** Linking a present name again. */
  lemma CopyOver(s: Store, e: Entry, f: Entry)
    requires s.list == [e, f] && e.path != f.path && e.path in s.disk
    ensures CopyLocal(s, e.path, f.path).1 && !UniquePaths(CopyLocal(s, e.path, f.path).0.list)
  {
    assert [e, f][1..] == [f] && [f][1..] == [];
    assert IndexOf(s.list, f.path) == 1;
    var list := CopyLocal(s, e.path, f.path).0.list;
    assert list[0].path == list[2].path;
  }

  /** A writer whose private copy is to be called `q` overwrites and links again
      the cached file of that name. */
  lemma OpenOver(svc: Service, folder: string, path: string, q: string, k: nat)
    requires k > 0 && folder != [] && IsCopyOf(q, path, FIRST_FD + k)
    requires path in svc.disk && svc.disk[path] == [] && path in svc.versions
    ensures var r := OpenFile(svc, Readers(folder, q, k), path, "WRITE");
            r.2 && !UniquePaths(r.1.store.list)
  {
    hide Touch, AddNew, Evict, Total, ReaderDescs, PieceOf;
    var p, name := Readers(folder, q, k), CachePath(folder, path);
    NamesDistinct(folder, q, path, FIRST_FD + k, FIRST_FD + k);
    assert |q| > |path|;
    NamesDistinct(folder, path, q, FIRST_FD + k, FIRST_FD + k);
    FetchedWhole([]);
    var e, f := Entry(name, 1, svc.versions[path], "rw"), p.store.list[0];
    var fetched := Put(p.store, name, []);
    assert [f][1..] == [];
    TotalOfTwo(f, f, fetched.disk);
    AddNewFits(fetched, e);
    CopyOver(AddNew(fetched, e).0, e, f);
  }

  lemma ReaderRun(folder: string, path: string, q: string, k: nat) returns (calls: seq<Call>, states: seq<System>)
    requires folder != []
    ensures |calls| == k && |states| == k + 1 && forall c :: c in calls ==> c == Open("p", q, "READ")
    ensures forall i :: 0 <= i <= k ==> states[i] == Alone(TwoFiles(path, q), Readers(folder, q, i))
    ensures forall i :: 0 <= i < k ==> Leads(Roomy, states[i], calls[i], states[i + 1])
  {
    hide OpenFile, Readers;
    var svc := TwoFiles(path, q);
    calls, states := [], [Alone(svc, Readers(folder, q, 0))];
    for i := 0 to k
      invariant |calls| == i && |states| == i + 1 && forall c :: c in calls ==> c == Open("p", q, "READ")
      invariant forall n :: 0 <= n <= i ==> states[n] == Alone(svc, Readers(folder, q, n))
      invariant forall n :: 0 <= n < i ==> Leads(Roomy, states[n], calls[n], states[n + 1])
    {
      OpenReader(svc, folder, q, i);
      var s, s' := Alone(svc, Readers(folder, q, i)), Alone(svc, Readers(folder, q, i + 1));
      assert Leads(Roomy, s, Open("p", q, "READ"), s');
      calls, states := calls + [Open("p", q, "READ")], states + [s'];
    }
  }

  /** After `k` readers of `q` a writer opens `path`, and its private copy takes
      the name of the file they read: every call succeeds, and that file is
      linked twice. */
  lemma CachedFileOverwritten(folder: string, path: string, q: string, k: nat)
    requires folder != [] && k > 0 && IsCopyOf(q, path, FIRST_FD + k)
    ensures exists s0, calls ::
              && Fresh(s0) && "p" in s0.proxies && Runs(s0, calls) && MindsAt(Roomy, s0, calls, "p")
              && OpenedAt(calls, "p") <= {path, q}
              && "p" in Final(s0, calls).proxies && !Sound(Final(s0, calls).proxies["p"])
  {
    hide Runs, Final, MindsAt, Sound, OpenFile, Leads;
    var calls, states := ReaderRun(folder, path, q, k);
    var s := states[k];
    OverwriteLeads(folder, path, q, k);
    var open := Open("p", path, "WRITE");
    Path(Roomy, calls + [open], states + [After(s, open)], "p");
  }

  lemma OverwriteLeads(folder: string, path: string, q: string, k: nat)
    requires folder != [] && k > 0 && IsCopyOf(q, path, FIRST_FD + k)
    ensures var s, open := Alone(TwoFiles(path, q), Readers(folder, q, k)), Open("p", path, "WRITE");
            && Leads(Roomy, s, open, After(s, open))
            && "p" in After(s, open).proxies && !Sound(After(s, open).proxies["p"])
  {
    hide OpenFile, Readers, UniquePaths;
    OpenOver(TwoFiles(path, q), folder, path, q, k);
  }

  // ----- the exact condition -----

  /** Whatever succeeds with these paths and keeps its writes leaves a proxy sound. */
  ghost predicate AlwaysSound(paths: set<string>) {
    forall s0, calls, x ::
      Fresh(s0) && x in s0.proxies && Runs(s0, calls) && MindsAt(Roomy, s0, calls, x) && OpenedAt(calls, x) <= paths ==>
        x in Final(s0, calls).proxies && Sound(Final(s0, calls).proxies[x])
  }

  lemma {:induction false} LongWord(s: string, word: string)
    requires |word| > |s|
    ensures !Occurs(s, word)
  {
    if s != [] {
      LongWord(s[1..], word);
    }
  }

  /** A proxy's bookkeeping is sound in all such runs over a set of paths exactly
      when none of them is another one with `@` and a descriptor behind it. */
  lemma ApartExactly(paths: set<string>)
    ensures AlwaysSound(paths) <==> Apart(paths)
  {
    hide Runs, Final, MindsAt, Sound, Fresh;
    if Apart(paths) {
      forall s0, calls, x |
        Fresh(s0) && x in s0.proxies && Runs(s0, calls) && MindsAt(Roomy, s0, calls, x) && OpenedAt(calls, x) <= paths
        ensures x in Final(s0, calls).proxies && Sound(Final(s0, calls).proxies[x])
      {
        CacheInvariant(s0, calls, x);
      }
    } else {
      var path, q, fd :| path in paths && q in paths && fd >= FIRST_FD && IsCopyOf(q, path, fd);
      CollisionUnsound(paths, path, q, fd);
    }
  }

  lemma CollisionUnsound(paths: set<string>, path: string, q: string, fd: int)
    requires path in paths && q in paths && fd >= FIRST_FD && IsCopyOf(q, path, fd)
    ensures !AlwaysSound(paths)
  {
    hide Runs, Final, MindsAt, Sound, Fresh, IsCopyOf;
    var folder := path + "c/";
    if fd == FIRST_FD {
      LongFolderAside(path, q, fd);
      CopyOpenedByName(folder, path, q);
    } else {
      CachedFileOverwritten(folder, path, q, fd - FIRST_FD);
    }
  }

  lemma LongFolderAside(path: string, q: string, fd: int)
    requires IsCopyOf(q, path, fd)
    ensures FolderAside(path + "c/", path, q)
  {
    LongWord(path, path + "c/");
    assert q[|path|] == '@';
    assert CachePath(path + "c/", path)[|path|] == 'c';
  }
}
