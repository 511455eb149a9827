/** A server on which different path strings may name one file, as `x` and `./x`
    do: its files go by the name a path resolves to, but its versions, and the
    proxies' caches, by the path as written (15440-p2/final/Server.java). */
module ProxySpellings {
  import opened Files
  import opened LruCache
  import opened LruTheorems
  import opened ChunkTransfer
  import opened PathNames
  import opened ProxyModel
  import opened ProxyLinkage
  import opened ProxySafety
  import opened ProxyOpens
  import opened ProxyDescriptors
  import opened ProxyCoherence
  import PD = ProxyDepartures
  import PC = ProxyCollisions

  datatype Site = Site(files: Disk, versions: map<string, int>, proxies: map<string, Proxy>)

  /** What is to be seen of the server's files through some paths. */
  function View(resolve: string -> string, s: Site, paths: set<string>): System {
    System(Service(map q | q in paths && resolve(q) in s.files :: s.files[resolve(q)], s.versions), s.proxies)
  }

  ghost predicate Addressed(s: Site, c: Call) {
    c.at in s.proxies && (!c.Open? ==> c.fd in s.proxies[c.at].descs)
  }

  /** The path a call works on. */
  function PathOf(s: Site, c: Call): string
    requires Addressed(s, c)
  {
    if c.Open? then c.path else Target(s.proxies[c.at], c.fd)
  }

  /** The call at work on the one file its path resolves to. */
  ghost function AfterSpelled(resolve: string -> string, s: Site, c: Call): Site
    requires Addressed(s, c)
  {
    var q := PathOf(s, c);
    var s' := After(View(resolve, s, {q}), c);
    Site(if q in s'.svc.disk then s.files[resolve(q) := s'.svc.disk[q]] else s.files, s'.svc.versions, s'.proxies)
  }

  ghost predicate SucceedsSpelled(resolve: string -> string, s: Site, c: Call) {
    Addressed(s, c) && Succeeds(View(resolve, s, {PathOf(s, c)}), c)
  }

  ghost predicate RunsSpelled(resolve: string -> string, s: Site, calls: seq<Call>)
    decreases |calls|
  {
    calls == []
    || (SucceedsSpelled(resolve, s, calls[0]) && RunsSpelled(resolve, AfterSpelled(resolve, s, calls[0]), calls[1..]))
  }

  ghost function FinalSpelled(resolve: string -> string, s: Site, calls: seq<Call>): Site
    requires RunsSpelled(resolve, s, calls)
    decreases |calls|
  {
    if calls == [] then s else FinalSpelled(resolve, AfterSpelled(resolve, s, calls[0]), calls[1..])
  }

  ghost predicate MindsSpelled(resolve: string -> string, care: Care, s: Site, calls: seq<Call>, x: string)
    requires RunsSpelled(resolve, s, calls)
    decreases |calls|
  {
    calls == [] ||
    (&& (calls[0].at == x ==> Minds(care, View(resolve, s, {PathOf(s, calls[0])}), calls[0]))
     && MindsSpelled(resolve, care, AfterSpelled(resolve, s, calls[0]), calls[1..], x))
  }

  /** The paths that the calls of a run work on. */
  ghost function PathsOf(resolve: string -> string, s: Site, calls: seq<Call>): set<string>
    requires RunsSpelled(resolve, s, calls)
    decreases |calls|
  {
    if calls == [] then {}
    else {PathOf(s, calls[0])} + PathsOf(resolve, AfterSpelled(resolve, s, calls[0]), calls[1..])
  }

  ghost predicate OneSpelling(resolve: string -> string, paths: set<string>) {
    forall p, q :: p in paths && q in paths && resolve(p) == resolve(q) ==> p == q
  }

  // ----- one spelling: as if every path were a file of its own -----

  /** Two servers alike as far as one path is concerned. */
  ghost predicate AlikeAt(a: Service, b: Service, q: string) {
    a.versions == b.versions && (q in a.disk <==> q in b.disk) && (q in a.disk ==> a.disk[q] == b.disk[q])
  }

  /** `a'` differs from `a` as `b'` does, at `q` only. */
  ghost predicate Follows(a: Service, a': Service, b': Service, q: string) {
    AlikeAt(a', b', q) && a'.disk == if q in b'.disk then a.disk[q := b'.disk[q]] else a.disk
  }

  lemma MissFollows(a: Service, b: Service, folder: string, s: Store, path: string, option: string)
    requires AlikeAt(a, b, path)
    ensures var (r, t) := (OpenMiss(a, folder, s, path, option), OpenMiss(b, folder, s, path, option));
            r.1 == t.1 && r.2 == t.2 && Follows(a, r.0, t.0, path)
  {
    hide Added, Fetched, PieceOf;
  }

  lemma UpdateFollows(a: Service, b: Service, path: string, option: string)
    requires AlikeAt(a, b, path)
    ensures var (r, t) := (UpdateReply(a, path, option, 0), UpdateReply(b, path, option, 0));
            (r.1.Error? <==> t.1.Error?) && Follows(a, r.0, t.0, path)
  {
  }

  lemma HitFollows(a: Service, b: Service, folder: string, s: Store, path: string, option: string)
    requires AlikeAt(a, b, path) && IndexOf(s.list, CachePath(folder, path)) < |s.list|
    ensures var (r, t) := (OpenHit(a, folder, s, path, option), OpenHit(b, folder, s, path, option));
            r.1 == t.1 && r.2 == t.2 && Follows(a, r.0, t.0, path)
  {
    hide Added, Touch, Delete, Count, UpdateReply;
    UpdateFollows(ProxyModel.Known(a, path), ProxyModel.Known(b, path), path, option);
  }

  lemma OpenFollows(a: Service, b: Service, p: Proxy, path: string, option: string)
    requires AlikeAt(a, b, path)
    ensures var (r, t) := (OpenFile(a, p, path, option), OpenFile(b, p, path, option));
            r.1 == t.1 && r.2 == t.2 && Follows(a, r.0, t.0, path)
  {
    hide OpenHit, OpenMiss, CopyLocal, Follows;
    if IndexOf(p.store.list, CachePath(p.folder, path)) < |p.store.list| {
      HitFollows(a, b, p.folder, p.store, path, option);
    } else {
      MissFollows(a, b, p.folder, p.store, path, option);
    }
  }

  lemma CloseFollows(a: Service, b: Service, p: Proxy, fd: int)
    requires fd in p.descs && AlikeAt(a, b, Target(p, fd))
    ensures var (r, t) := (CloseFile(a, p, fd), CloseFile(b, p, fd));
            r.1 == t.1 && r.2 == t.2 && Follows(a, r.0, t.0, Target(p, fd))
    ensures LongEnough(a, p, fd) <==> LongEnough(b, p, fd)
  {
    hide Rebuilt, Delete, Count;
  }

  lemma CallFollows(care: Care, a: System, b: System, c: Call, q: string)
    requires c.at in a.proxies && (!c.Open? ==> c.fd in a.proxies[c.at].descs) && a.proxies == b.proxies
    requires q == (if c.Open? then c.path else Target(a.proxies[c.at], c.fd)) && AlikeAt(a.svc, b.svc, q)
    ensures Succeeds(a, c) <==> Succeeds(b, c)
    ensures Succeeds(a, c) ==> (Minds(care, a, c) <==> Minds(care, b, c))
    ensures After(a, c).proxies == After(b, c).proxies && Follows(a.svc, After(a, c).svc, After(b, c).svc, q)
  {
    hide OpenFile, CloseFile, WriteFile, UseFile, LongEnough, Kept;
    var p := a.proxies[c.at];
    match c {
      case Open(_, path, option) => OpenFollows(a.svc, b.svc, p, path, option);
      case Close(_, fd) => CloseFollows(a.svc, b.svc, p, fd);
      case _ =>
    }
  }

  lemma ViewsAlike(resolve: string -> string, s: Site, paths: set<string>, q: string)
    requires q in paths
    ensures AlikeAt(View(resolve, s, paths).svc, View(resolve, s, {q}).svc, q)
  {
  }

  /** One call, seen through all paths of the run. */
  lemma CallSeen(resolve: string -> string, care: Care, s: Site, c: Call, paths: set<string>)
    requires OneSpelling(resolve, paths) && Addressed(s, c) && PathOf(s, c) in paths
    ensures SucceedsSpelled(resolve, s, c) <==> Succeeds(View(resolve, s, paths), c)
    ensures After(View(resolve, s, paths), c) == View(resolve, AfterSpelled(resolve, s, c), paths)
    ensures Succeeds(View(resolve, s, paths), c) ==>
              (Minds(care, View(resolve, s, paths), c) <==> Minds(care, View(resolve, s, {PathOf(s, c)}), c))
  {
    hide After, Succeeds, Minds, AlikeAt;
    var q := PathOf(s, c);
    var all, one := View(resolve, s, paths), View(resolve, s, {q});
    ViewsAlike(resolve, s, paths, q);
    CallFollows(care, all, one, c, q);
    ViewStored(resolve, s, AfterSpelled(resolve, s, c), paths, q, After(all, c).svc, After(one, c).svc);
  }

  /** Writing the one file back changes it in the view of all paths alike. */
  lemma ViewStored(resolve: string -> string, s: Site, s': Site, paths: set<string>, q: string, all: Service,
                   one: Service)
    requires OneSpelling(resolve, paths) && q in paths
    requires Follows(View(resolve, s, paths).svc, all, one, q)
    requires s'.files == (if q in one.disk then s.files[resolve(q) := one.disk[q]] else s.files)
    requires s'.versions == one.versions
    ensures View(resolve, s', paths).svc == all
  {
    var before, after := View(resolve, s, paths).svc.disk, View(resolve, s', paths).svc.disk;
    if q in one.disk {
      assert forall x :: x in paths && x != q ==> resolve(x) != resolve(q);
      assert q in after && after[q] == one.disk[q];
      assert forall x :: x != q ==> (x in after <==> x in before) && (x in after ==> after[x] == before[x]);
      assert after == before[q := one.disk[q]];
    } else {
      assert after == before;
    }
  }

  lemma {:induction false} RunSeen(resolve: string -> string, care: Care, s: Site, calls: seq<Call>, paths: set<string>,
                                   x: string)
    requires RunsSpelled(resolve, s, calls) && PathsOf(resolve, s, calls) <= paths && OneSpelling(resolve, paths)
    ensures Runs(View(resolve, s, paths), calls)
    ensures Final(View(resolve, s, paths), calls) == View(resolve, FinalSpelled(resolve, s, calls), paths)
    ensures MindsAt(care, View(resolve, s, paths), calls, x) <==> MindsSpelled(resolve, care, s, calls, x)
    decreases |calls|
  {
    hide After, Succeeds, Minds, OneSpelling, View, AfterSpelled;
    if calls != [] {
      CallSeen(resolve, care, s, calls[0], paths);
      RunSeen(resolve, care, AfterSpelled(resolve, s, calls[0]), calls[1..], paths, x);
    }
  }

  /** If no two paths that a run works on resolve to one file, coherence holds as
      if each were a file of its own. */
  lemma SpelledCoherence(resolve: string -> string, care: Care, s0: Site, calls: seq<Call>, x: string)
    requires RunsSpelled(resolve, s0, calls) && OneSpelling(resolve, PathsOf(resolve, s0, calls))
    requires Fresh(View(resolve, s0, {})) && x in s0.proxies
    requires Apart(OpenedAt(calls, x)) && MindsSpelled(resolve, care, s0, calls, x) && Tracks(care)
    ensures var s := FinalSpelled(resolve, s0, calls);
            x in s.proxies && Agrees(resolve, care, OpenedAt(calls, x), s, s.proxies[x])
  {
    hide Fresh, MindsAt, Coherent, After, Minds, Succeeds, AfterSpelled;
    var paths := PathsOf(resolve, s0, calls);
    RunSeen(resolve, care, s0, calls, paths, x);
    assert Fresh(View(resolve, s0, paths)) by {
      FreshView(resolve, s0, paths);
    }
    CacheCoherence(care, View(resolve, s0, paths), calls, x);
    var s := FinalSpelled(resolve, s0, calls);
    CoherentAgrees(resolve, care, OpenedAt(calls, x), paths, s, s.proxies[x]);
  }

  lemma FreshView(resolve: string -> string, s: Site, paths: set<string>)
    requires Fresh(View(resolve, s, {}))
    ensures Fresh(View(resolve, s, paths))
  {
  }

  /** The copy is not newer than the version entered for the path; of the same
      version, it is a prefix of the file the path resolves to, and in careful
      runs equal to it. */
  ghost predicate CopyAgrees(resolve: string -> string, care: Care, s: Site, path: string, version: int, copy: Bytes) {
    && resolve(path) in s.files && path in s.versions && version <= s.versions[path]
    && (version == s.versions[path] ==>
          copy <= s.files[resolve(path)] && (care.Careful? ==> copy == s.files[resolve(path)]))
  }

  /** Every cached file of one of these paths. */
  ghost predicate Agrees(resolve: string -> string, care: Care, paths: set<string>, s: Site, p: Proxy) {
    forall e, path {:trigger CopyAgrees(resolve, care, s, path, e.version, Content(p.store.disk, e.path))} ::
      e in p.store.list && path in paths && e.path == CachePath(p.folder, path) ==>
        CopyAgrees(resolve, care, s, path, e.version, Content(p.store.disk, e.path))
  }

  lemma CoherentAgrees(resolve: string -> string, care: Care, paths: set<string>, seen: set<string>, s: Site, p: Proxy)
    requires Coherent(care, paths, View(resolve, s, seen).svc, p)
    ensures Agrees(resolve, care, paths, s, p)
  {
    hide Content, CachePath;
  }

  // ----- two spellings -----

  /** One file of two spellings, at proxy `b` read as `p` and at `a` written as
      `q`, whose version is `n`. */
  function TwoSpellings(resolve: string -> string, p: string, q: string, content: Bytes, n: int, a: Proxy,
                        b: Proxy): Site {
    Site(map[resolve(p) := content], map[p := 1, q := n], map["a" := a, "b" := b])
  }

  /** One call on one of these paths, keeping to all that is asked. */
  ghost predicate LeadsSpelled(resolve: string -> string, paths: set<string>, s: Site, c: Call, s': Site) {
    && SucceedsSpelled(resolve, s, c) && AfterSpelled(resolve, s, c) == s' && PathOf(s, c) in paths
    && Minds(Careful, View(resolve, s, {PathOf(s, c)}), c)
  }

  lemma {:induction false} PathSpelled(resolve: string -> string, paths: set<string>, calls: seq<Call>,
                                       states: seq<Site>, x: string)
    requires |states| == |calls| + 1
    requires forall i :: 0 <= i < |calls| ==> LeadsSpelled(resolve, paths, states[i], calls[i], states[i + 1])
    ensures RunsSpelled(resolve, states[0], calls) && FinalSpelled(resolve, states[0], calls) == states[|calls|]
    ensures PathsOf(resolve, states[0], calls) <= paths && MindsSpelled(resolve, Careful, states[0], calls, x)
    decreases |calls|
  {
    hide Minds, View, AfterSpelled, SucceedsSpelled;
    if calls != [] {
      assert LeadsSpelled(resolve, paths, states[0], calls[0], states[1]);
      assert forall i :: 0 <= i < |calls[1..]| ==>
        LeadsSpelled(resolve, paths, states[1..][i], calls[1..][i], states[1..][i + 1]);
      PathSpelled(resolve, paths, calls[1..], states[1..], x);
    }
  }

  lemma ReadOfSpellings(resolve: string -> string, folder: string, p: string, q: string, a: Proxy)
    requires p != q && resolve(p) == resolve(q) && folder != []
    ensures LeadsSpelled(resolve, {p, q}, TwoSpellings(resolve, p, q, [], 1, a, PC.Readers(folder, p, 0)),
                         Open("b", p, "READ"), TwoSpellings(resolve, p, q, [], 1, a, PC.Readers(folder, p, 1)))
  {
    hide OpenFile, PC.Readers;
    PC.OpenReader(Service(map[p := []], map[p := 1, q := 1]), folder, p, 0);
    assert View(resolve, TwoSpellings(resolve, p, q, [], 1, a, PC.Readers(folder, p, 0)), {p}).svc.disk == map[p := []];
  }

  /** What the writer at `a` sees. */
  lemma WriterSees(resolve: string -> string, p: string, q: string, content: Bytes, n: int, a: Proxy, b: Proxy)
    requires p != q && resolve(p) == resolve(q)
    ensures var s := TwoSpellings(resolve, p, q, content, n, a, b);
            View(resolve, s, {q}) == System(Service(map[q := content], map[p := 1, q := n]), s.proxies)
  {
    assert View(resolve, TwoSpellings(resolve, p, q, content, n, a, b), {q}).svc.disk == map[q := content];
  }

  /** A call at `a` that the one file `q` leaves like this. */
  lemma WriterLeads(resolve: string -> string, p: string, q: string, content: Bytes, n: int, a: Proxy, b: Proxy,
                    c: Call, content': Bytes, n': int, a': Proxy)
    requires p != q && resolve(p) == resolve(q) && c.at == "a" && (!c.Open? ==> c.fd in a.descs)
    requires q == if c.Open? then c.path else Target(a, c.fd)
    requires var s := System(Service(map[q := content], map[p := 1, q := n]), map["a" := a, "b" := b]);
             && Succeeds(s, c) && Minds(Careful, s, c)
             && After(s, c) == System(Service(map[q := content'], map[p := 1, q := n']), map["a" := a', "b" := b])
    ensures LeadsSpelled(resolve, {p, q}, TwoSpellings(resolve, p, q, content, n, a, b), c,
                         TwoSpellings(resolve, p, q, content', n', a', b))
  {
    hide Succeeds, Minds, After, Target, View;
    WriterSees(resolve, p, q, content, n, a, b);
    assert map[resolve(p) := content][resolve(q) := content'] == map[resolve(p) := content'];
  }

  lemma OpenOfSpellings(resolve: string -> string, folder: string, p: string, q: string, data: Bytes, b: Proxy)
    requires p != q && resolve(p) == resolve(q)
    ensures LeadsSpelled(resolve, {p, q}, TwoSpellings(resolve, p, q, [], 1, PD.Empty(folder, FIRST_FD, |data|), b),
                         Open("a", q, "WRITE"),
                         TwoSpellings(resolve, p, q, [], 1, PD.Session(folder, FIRST_FD, |data|, q, 1, [], [], 0), b))
  {
    hide OpenFile, PD.Session;
    PD.OpenAlone(Service(map[q := []], map[p := 1, q := 1]), folder, FIRST_FD, |data|, q);
    WriterLeads(resolve, p, q, [], 1, PD.Empty(folder, FIRST_FD, |data|), b, Open("a", q, "WRITE"),
                [], 1, PD.Session(folder, FIRST_FD, |data|, q, 1, [], [], 0));
  }

  lemma WriteOfSpellings(resolve: string -> string, folder: string, p: string, q: string, data: Bytes, b: Proxy)
    requires p != q && resolve(p) == resolve(q) && folder != [] && !Occurs(q, folder)
    ensures LeadsSpelled(resolve, {p, q},
                         TwoSpellings(resolve, p, q, [], 1, PD.Session(folder, FIRST_FD, |data|, q, 1, [], [], 0), b),
                         Write("a", FIRST_FD, data),
                         TwoSpellings(resolve, p, q, [], 1,
                                      PD.Session(folder, FIRST_FD, |data|, q, 1, [], data, |data|), b))
  {
    hide WriteFile, Kept, LeadsSpelled;
    var a, a' := PD.Session(folder, FIRST_FD, |data|, q, 1, [], [], 0),
                 PD.Session(folder, FIRST_FD, |data|, q, 1, [], data, |data|);
    UploadTargetExact(a, FIRST_FD);
    PD.WriteAlone(folder, FIRST_FD, |data|, q, 1, data);
    WriterLeads(resolve, p, q, [], 1, a, b, Write("a", FIRST_FD, data), [], 1, a');
  }

  lemma CloseOfSpellings(resolve: string -> string, folder: string, p: string, q: string, data: Bytes, b: Proxy)
    requires p != q && resolve(p) == resolve(q) && folder != [] && !Occurs(q, folder) && |data| <= LARGEST
    ensures var n := 1 + Pieces(|data|);
            LeadsSpelled(resolve, {p, q},
                         TwoSpellings(resolve, p, q, [], 1,
                                      PD.Session(folder, FIRST_FD, |data|, q, 1, [], data, |data|), b),
                         Close("a", FIRST_FD),
                         TwoSpellings(resolve, p, q, data, n, PD.Ended(folder, FIRST_FD, |data|, q, n, data), b))
  {
    hide CloseFile, ServerPath, CachePath, LocalPath, Occurs, Pieces, LeadsSpelled, PD.Ended;
    var a := PD.Session(folder, FIRST_FD, |data|, q, 1, [], data, |data|);
    var svc := Service(map[q := []], map[p := 1, q := 1]);
    ServerPathExact(folder, q);
    UploadTargetExact(a, FIRST_FD);
    PD.NamesDiffer(folder, q, FIRST_FD);
    UploadKeepsTail([], data);
    PD.CloseAlone(svc, folder, FIRST_FD, |data|, q, 1, [], data, |data|);
    var n := 1 + Pieces(|data|);
    assert svc.disk[q := data] == map[q := data] && svc.versions[q := n] == map[p := 1, q := n];
    WriterLeads(resolve, p, q, [], 1, a, b, Close("a", FIRST_FD), data, n,
                PD.Ended(folder, FIRST_FD, |data|, q, n, data));
  }

  lemma SpellingsEnd(resolve: string -> string, folder: string, p: string, q: string, data: Bytes, n: int, a: Proxy)
    requires p != q && data != []
    ensures var s := TwoSpellings(resolve, p, q, data, n, a, PC.Readers(folder, p, 1));
            "b" in s.proxies && !Agrees(resolve, Careful, {p}, s, s.proxies["b"])
  {
    var s := TwoSpellings(resolve, p, q, data, n, a, PC.Readers(folder, p, 1));
    var e := s.proxies["b"].store.list[0];
    assert e in s.proxies["b"].store.list;
    assert !CopyAgrees(resolve, Careful, s, p, e.version, Content(s.proxies["b"].store.disk, e.path));
  }

  /** `b` still takes its copy for current when the file has been written through
      another spelling of its name: every call succeeds and keeps to all that is
      asked, and the copy is not the file. */
  lemma CoherenceNeedsOneSpelling(resolve: string -> string, folder: string, p: string, q: string, data: Bytes)
    requires p != q && resolve(p) == resolve(q) && 0 < |data| <= LARGEST
    requires folder != [] && !Occurs(q, folder)
    ensures exists s0, calls ::
              && RunsSpelled(resolve, s0, calls) && Fresh(View(resolve, s0, {})) && "b" in s0.proxies
              && PathsOf(resolve, s0, calls) <= {p, q} && OpenedAt(calls, "b") == {p}
              && MindsSpelled(resolve, Careful, s0, calls, "b")
              && "b" in FinalSpelled(resolve, s0, calls).proxies
              && !Agrees(resolve, Careful, {p}, FinalSpelled(resolve, s0, calls),
                         FinalSpelled(resolve, s0, calls).proxies["b"])
  {
    hide RunsSpelled, FinalSpelled, MindsSpelled, PathsOf, Agrees, Fresh, View, OpenedAt;
    var calls, states := SpellingsRun(resolve, folder, p, q, data);
    PathSpelled(resolve, {p, q}, calls, states, "b");
  }

  lemma SpellingsRun(resolve: string -> string, folder: string, p: string, q: string, data: Bytes)
    returns (calls: seq<Call>, states: seq<Site>)
    requires p != q && resolve(p) == resolve(q) && folder != [] && !Occurs(q, folder) && 0 < |data| <= LARGEST
    ensures |states| == |calls| + 1 && OpenedAt(calls, "b") == {p}
    ensures Fresh(View(resolve, states[0], {})) && "b" in states[0].proxies
    ensures forall i :: 0 <= i < |calls| ==> LeadsSpelled(resolve, {p, q}, states[i], calls[i], states[i + 1])
    ensures "b" in states[|calls|].proxies
    ensures !Agrees(resolve, Careful, {p}, states[|calls|], states[|calls|].proxies["b"])
  {
    hide LeadsSpelled, Agrees, PD.Session, PD.Ended, Pieces, TwoSpellings, PC.Readers, Fresh, View, OpenedAt;
    var none, reader := PC.Readers(folder, p, 0), PC.Readers(folder, p, 1);
    var n := 1 + Pieces(|data|);
    var a0, a1 := PD.Empty(folder, FIRST_FD, |data|), PD.Session(folder, FIRST_FD, |data|, q, 1, [], [], 0);
    var a2 := PD.Session(folder, FIRST_FD, |data|, q, 1, [], data, |data|);
    var a3 := PD.Ended(folder, FIRST_FD, |data|, q, n, data);
    ReadOfSpellings(resolve, folder, p, q, a0);
    OpenOfSpellings(resolve, folder, p, q, data, reader);
    WriteOfSpellings(resolve, folder, p, q, data, reader);
    CloseOfSpellings(resolve, folder, p, q, data, reader);
    SpellingsEnd(resolve, folder, p, q, data, n, a3);
    SpellingsStart(resolve, folder, p, q, data);
    SpellingsCalls(p, q, data);
    calls := [Open("b", p, "READ"), Open("a", q, "WRITE"), Write("a", FIRST_FD, data), Close("a", FIRST_FD)];
    states := [TwoSpellings(resolve, p, q, [], 1, a0, none), TwoSpellings(resolve, p, q, [], 1, a0, reader),
               TwoSpellings(resolve, p, q, [], 1, a1, reader), TwoSpellings(resolve, p, q, [], 1, a2, reader),
               TwoSpellings(resolve, p, q, data, n, a3, reader)];
  }

  lemma SpellingsStart(resolve: string -> string, folder: string, p: string, q: string, data: Bytes)
    ensures var s := TwoSpellings(resolve, p, q, [], 1, PD.Empty(folder, FIRST_FD, |data|), PC.Readers(folder, p, 0));
            Fresh(View(resolve, s, {})) && "b" in s.proxies
  {
  }

  lemma SpellingsCalls(p: string, q: string, data: Bytes)
    ensures OpenedAt([Open("b", p, "READ"), Open("a", q, "WRITE"), Write("a", FIRST_FD, data), Close("a", FIRST_FD)],
                     "b")
         == {p}
  {
    assert [Open("b", p, "READ"), Open("a", q, "WRITE"), Write("a", FIRST_FD, data), Close("a", FIRST_FD)][0]
        == Open("b", p, "READ");
  }

  /** Whatever succeeds on these paths leaves a careful proxy in agreement. */
  ghost predicate AlwaysAgrees(resolve: string -> string, paths: set<string>) {
    forall s0, calls, x ::
      && RunsSpelled(resolve, s0, calls) && Fresh(View(resolve, s0, {})) && x in s0.proxies
      && PathsOf(resolve, s0, calls) <= paths && Apart(OpenedAt(calls, x))
      && MindsSpelled(resolve, Careful, s0, calls, x) ==>
        var s := FinalSpelled(resolve, s0, calls);
        x in s.proxies && Agrees(resolve, Careful, OpenedAt(calls, x), s, s.proxies[x])
  }

  /** Careful proxies agree with the server in all runs over a set of paths
      exactly when no two of them resolve to one file. */
  lemma OneSpellingExactly(resolve: string -> string, paths: set<string>)
    ensures AlwaysAgrees(resolve, paths) <==> OneSpelling(resolve, paths)
  {
    hide RunsSpelled, FinalSpelled, MindsSpelled, PathsOf, Agrees, Fresh, View, Apart, OpenedAt;
    if OneSpelling(resolve, paths) {
      forall s0, calls, x |
        && RunsSpelled(resolve, s0, calls) && Fresh(View(resolve, s0, {})) && x in s0.proxies
        && PathsOf(resolve, s0, calls) <= paths && Apart(OpenedAt(calls, x))
        && MindsSpelled(resolve, Careful, s0, calls, x)
        ensures var s := FinalSpelled(resolve, s0, calls);
                x in s.proxies && Agrees(resolve, Careful, OpenedAt(calls, x), s, s.proxies[x])
      {
        SpelledCoherence(resolve, Careful, s0, calls, x);
      }
    } else {
      var p, q :| p in paths && q in paths && resolve(p) == resolve(q) && p != q;
      PC.LongWord(q, q + "c/");
      CoherenceNeedsOneSpelling(resolve, q + "c/", p, q, [0]);
      ApartAlone(p);
    }
  }
}
