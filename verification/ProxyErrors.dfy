/** Which opens fail: the server's error answers, and the room for a file that is
    not cached. */
module ProxyErrors {
  import opened Files
  import opened LruCache
  import opened LruTheorems
  import opened ChunkTransfer
  import opened PathNames
  import opened ProxyModel
  import opened ProxyLinkage
  import opened ProxySafety
  import opened ProxyOpens
  import opened ProxyCoherence

  /** The option and the server's file go together: READ and WRITE want it there,
      CREATE_NEW wants it not there, and CREATE takes both. */
  predicate Fitting(option: string, there: bool) {
    && (option == "READ" || option == "WRITE" ==> there)
    && (option == "CREATE_NEW" ==> !there)
  }

  // ----- the server -----

  /** The first answer to an open is ENOENT or EEXIST exactly when the option does
      not go with the file, and then nothing is created and no version given;
      otherwise the file is there afterwards, with its bytes and a version. */
  lemma OpenReplyExact(s: Service, option: string, path: string)
    ensures var (s', reply) := OpenReply(s, option, path, 0);
            && (reply == Error("ENOENT") <==> path !in s.disk && (option == "READ" || option == "WRITE"))
            && (reply == Error("EEXIST") <==> path in s.disk && option == "CREATE_NEW")
            && (reply.Error? <==> !Fitting(option, path in s.disk))
            && (reply.Error? ==> s' == s)
            && (reply.Data? ==>
                  && path in s'.disk && s'.disk[path] == Content(s.disk, path) && path in s'.versions
                  && reply.total == |s'.disk[path]|
                  && (forall other :: other != path ==>
                        Content(s'.disk, other) == Content(s.disk, other) && (other in s'.disk <==> other in s.disk)))
  {
  }

  /** A refresh is refused only for a file that is not there, and only
      CREATE_NEW makes it. */
  lemma UpdateReplyExact(s: Service, path: string, option: string)
    requires |Content(s.disk, path)| <= LARGEST
    ensures var (s', reply) := UpdateReply(s, path, option, 0);
            && (reply == Error("ENOENT") <==> path !in s.disk && option != "CREATE_NEW")
            && (reply.Error? <==> reply == Error("ENOENT"))
            && (path in s.disk || reply.Error? ==> s' == s)
            && (!reply.Error? ==> reply == Data(FirstPiece(Content(s.disk, path)), |Content(s.disk, path)|))
            && (path !in s.disk && !reply.Error? ==> s' == s.(disk := s.disk[path := []]))
  {
    FirstPieceOf(Content(s.disk, path));
  }

  // ----- the proxy -----

  ghost predicate Uncached(p: Proxy, path: string) {
    !Found(p.store.list, CachePath(p.folder, path))
  }

  /** An open of a file that is not cached, with an option that does not go with
      the server's file, fails, and the server and the cache are unchanged. */
  lemma OpenRefused(svc: Service, p: Proxy, path: string, option: string)
    requires Uncached(p, path) && !Fitting(option, path in svc.disk)
    ensures OpenFile(svc, p, path, option) == (svc, p.(next := p.next + 1), false)
  {
    FoundIndex(p.store.list, CachePath(p.folder, path));
    IndexOfFirst(p.store.list, CachePath(p.folder, path));
  }

  /** The server's error is only for files that the proxy has not cached: for a
      cached one CREATE_NEW does what CREATE does. */
  lemma CachedCreateNew(svc: Service, p: Proxy, path: string)
    requires !Uncached(p, path) && path in svc.disk
    ensures OpenFile(svc, p, path, "CREATE_NEW") == OpenFile(svc, p, path, "CREATE")
  {
    FoundIndex(p.store.list, CachePath(p.folder, path));
  }

  /** The room the file takes: a writer has a copy of its own. */
  function Footprint(option: string, content: Bytes): nat {
    if option == "READ" then |content| else 2 * |content|
  }

  /** The first open of a file succeeds exactly when the option goes with the
      server's file, and the file, with the private copy of a writer, fits beside
      the open files. */
  lemma FirstOpenExact(paths: set<string>, svc: Service, p: Proxy, path: string, option: string)
    requires ProxyOk(paths, p) && path in paths && Uncached(p, path)
    ensures OpenFile(svc, p, path, option).2 <==>
              && Fitting(option, path in svc.disk)
              && Footprint(option, Content(svc.disk, path)) + Total(PinnedOnly(p.store.list), p.store.disk)
                 <= p.store.capacity
  {
    hide OpenFile, OpenMiss, OpenCached, AddNew, Total, PinnedOnly, ProxyOk, Uncached, Fitting;
    if !Fitting(option, path in svc.disk) {
      OpenRefused(svc, p, path, option);
    } else {
      MissAdds(paths, svc, p, path, option);
      if option != "READ" {
        CopyAdds(paths, svc, p, path, option);
      }
    }
  }

  /** A first READ succeeds exactly when the file exists and fits beside the open
      files. */
  lemma OpenReadExact(paths: set<string>, svc: Service, p: Proxy, path: string)
    requires ProxyOk(paths, p) && Uncached(p, path)
    ensures OpenFile(svc, p, path, "READ").2 <==>
              && path in svc.disk
              && |svc.disk[path]| + Total(PinnedOnly(p.store.list), p.store.disk) <= p.store.capacity
  {
    hide OpenFile, Total, PinnedOnly, Linked;
    if path in svc.disk {
      MissAdds(paths, svc, p, path, "READ");
    } else {
      OpenRefused(svc, p, path, "READ");
    }
  }

  lemma FirstFits(paths: set<string>, p: Proxy, path: string, content: Bytes, e: Entry)
    requires ProxyOk(paths, p) && Uncached(p, path) && e.path == CachePath(p.folder, path)
    ensures IndexOf(p.store.list, e.path) == |p.store.list| && UniquePaths(p.store.list)
    ensures AddNew(Put(p.store, e.path, content), e).1 <==>
              |content| + Total(PinnedOnly(p.store.list), p.store.disk) <= p.store.capacity
  {
    hide AddNew, Total, PinnedOnly;
    var s := Put(p.store, e.path, content);
    FoundIndex(p.store.list, e.path);
    IndexOfFirst(p.store.list, e.path);
    AddNewOutcome(s, e);
    PinnedFrame(p.store.list, p.store.disk, s.disk, e.path);
  }

  /** A file that is not in the list does not count. */
  lemma PinnedFrame(list: seq<Entry>, disk: Disk, disk': Disk, path: string)
    requires IndexOf(list, path) == |list|
    requires forall name :: name != path ==> Length(disk', name) == Length(disk, name)
    ensures Total(PinnedOnly(list), disk') == Total(PinnedOnly(list), disk)
  {
    hide Total, PinnedOnly;
    IndexOfFirst(list, path);
    forall x | x in PinnedOnly(list) ensures Length(disk', x.path) == Length(disk, x.path) {
      PinnedMembers(list, x);
      var i :| 0 <= i < |list| && list[i] == x;
    }
    TotalFrame(PinnedOnly(list), disk', disk);
  }

  lemma MissAdds(paths: set<string>, svc: Service, p: Proxy, path: string, option: string)
    requires ProxyOk(paths, p) && Uncached(p, path) && Fitting(option, path in svc.disk)
    ensures var r := OpenMiss(svc, p.folder, p.store, path, option);
            var e := FirstEntry(svc, p, path, option);
            && r.1 == AddNew(Put(p.store, e.path, Content(svc.disk, path)), e).0
            && (r.2 <==> |Content(svc.disk, path)| + Total(PinnedOnly(p.store.list), p.store.disk) <= p.store.capacity)
    ensures OpenCached(svc, p.folder, p.store, path, option) == OpenMiss(svc, p.folder, p.store, path, option)
    ensures option == "READ" ==>
              OpenFile(svc, p, path, option).2 == OpenMiss(svc, p.folder, p.store, path, option).2
  {
    hide AddNew, Total, PinnedOnly, Linked;
    var e := FirstEntry(svc, p, path, option);
    FirstFits(paths, p, path, Content(svc.disk, path), e);
    assert Content(p.store.disk, e.path) == [] by {
      NotOnDisk(paths, p, path);
    }
    FetchedWhole(Content(svc.disk, path));
  }

  lemma NotOnDisk(paths: set<string>, p: Proxy, path: string)
    requires ProxyOk(paths, p) && Uncached(p, path)
    ensures CachePath(p.folder, path) !in p.store.disk
  {
  }

  function FirstEntry(svc: Service, p: Proxy, path: string, option: string): Entry {
    Entry(CachePath(p.folder, path), 1, if path in svc.versions then svc.versions[path] else 1, Mode(option))
  }

  // ----- the private copy of a writer -----

  /** Evictions take no open file. */
  lemma {:induction false} RecentPinned(list: seq<Entry>, n: nat)
    ensures PinnedOnly(Recent(list, n)) == PinnedOnly(list)
  {
    if list != [] {
      RecentPinned(list[1..], n);
      if Pinned(list[0]) || Closed(list) > n {
        assert Recent(list, n)[1..] == Recent(list[1..], n);
      } else {
        assert [] + PinnedOnly(list[1..]) == PinnedOnly(list[1..]);
      }
    }
  }

  lemma PinnedHead(e: Entry, list: seq<Entry>, disk: Disk)
    requires Pinned(e)
    ensures Total(PinnedOnly([e] + list), disk) == Length(disk, e.path) + Total(PinnedOnly(list), disk)
  {
    hide Total;
    assert ([e] + list)[1..] == list;
    TotalCons(e, PinnedOnly(list), disk);
  }

  /** After a successful insertion the open files are those of before and the new
      one, and they take as much room. */
  lemma PinnedAfter(s: Store, e: Entry)
    requires UniquePaths(s.list) && IndexOf(s.list, e.path) == |s.list| && AddNew(s, e).1
    requires Pinned(e) && e.path in s.disk
    ensures var s' := AddNew(s, e).0;
            && s'.capacity == s.capacity && e.path in s'.disk && s'.disk[e.path] == s.disk[e.path]
            && Total(PinnedOnly(s'.list), s'.disk) == |s.disk[e.path]| + Total(PinnedOnly(s.list), s.disk)
  {
    hide AddNew, Total, PinnedOnly, Recent, Dropped, Needed;
    var n := Needed(s, Length(s.disk, e.path), 0);
    AddNewExact(s, e);
    DroppedElsewhere(s.list, n, e.path);
    RecentPinned(s.list, n);
    PinnedHead(e, Recent(s.list, n), AddNew(s, e).0.disk);
    forall x | x in PinnedOnly(s.list) ensures Length(AddNew(s, e).0.disk, x.path) == Length(s.disk, x.path) {
      PinnedMembers(s.list, x);
      PinnedUndropped(s.list, n, x);
      IndexOfFirst(s.list, e.path);
    }
    TotalFrame(PinnedOnly(s.list), AddNew(s, e).0.disk, s.disk);
  }

  lemma {:induction false} PinnedUndropped(list: seq<Entry>, n: nat, x: Entry)
    requires UniquePaths(list) && x in list && Pinned(x)
    ensures x.path !in Dropped(list, n)
  {
    var i :| 0 <= i < |list| && list[i] == x;
    if i > 0 {
      assert list[1..][i - 1] == x;
      PinnedUndropped(list[1..], n, x);
      assert list[0].path != x.path;
    } else {
      DroppedNames(list[1..], n, x.path);
    }
  }

  lemma {:induction false} DroppedNames(list: seq<Entry>, n: nat, path: string)
    requires forall e :: e in list ==> e.path != path
    ensures path !in Dropped(list, n)
  {
    if list != [] {
      DroppedNames(list[1..], n, path);
    }
  }

  lemma CopyAdds(paths: set<string>, svc: Service, p: Proxy, path: string, option: string)
    requires ProxyOk(paths, p) && path in paths && Uncached(p, path)
    requires Fitting(option, path in svc.disk) && option != "READ"
    ensures OpenFile(svc, p, path, option).2 <==>
              2 * |Content(svc.disk, path)| + Total(PinnedOnly(p.store.list), p.store.disk) <= p.store.capacity
  {
    hide AddNew, Total, PinnedOnly, Linked, OpenMiss;
    MissAdds(paths, svc, p, path, option);
    var (name, local) := (CachePath(p.folder, path), LocalPath(p.folder, path, p.next));
    var content, e := Content(svc.disk, path), FirstEntry(svc, p, path, option);
    var r := OpenMiss(svc, p.folder, p.store, path, option);
    if r.2 {
      FirstFits(paths, p, path, content, e);
      var put := Put(p.store, name, content);
      PinnedFrame(p.store.list, p.store.disk, put.disk, name);
      PinnedAfter(put, e);
      RoomForCopy(paths, svc, p, path, option, content);
    }
  }

  lemma RoomForCopy(paths: set<string>, svc: Service, p: Proxy, path: string, option: string, content: Bytes)
    requires ProxyOk(paths, p) && path in paths && Uncached(p, path)
    requires OpenMiss(svc, p.folder, p.store, path, option).2
    requires var (s, name) := (OpenMiss(svc, p.folder, p.store, path, option).1, CachePath(p.folder, path));
             name in s.disk && s.disk[name] == content
    ensures var s := OpenMiss(svc, p.folder, p.store, path, option).1;
            CopyLocal(s, CachePath(p.folder, path), LocalPath(p.folder, path, p.next)).1 <==>
              |content| + Total(PinnedOnly(s.list), s.disk) <= s.capacity
  {
    hide AddNew, Total, PinnedOnly, OpenMiss;
    var s := OpenMiss(svc, p.folder, p.store, path, option).1;
    var local := LocalPath(p.folder, path, p.next);
    OpenMissGood(paths, Roomy, svc, p, path, option);
    var e := Entry(local, 1, 1, "rw");
    var put := Put(s, local, content);
    LocalFresh(paths, p.folder, p.descs[p.next := Desc(path, true, 0)], s.list, s.disk, path, p.next);
    FoundIndex(s.list, local);
    IndexOfFirst(s.list, local);
    AddNewOutcome(put, e);
    PinnedFrame(s.list, s.disk, put.disk, local);
  }
}
