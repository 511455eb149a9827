/** One proxy: how its cache entries, its open descriptors and their reference
    counts hang together, and how evictions and single entries keep that. */
module ProxyLinkage {
  import opened Files
  import opened LruCache
  import opened LruTheorems
  import opened ChunkTransfer
  import opened PathNames
  import opened ProxyModel

  // ----- the invariant of one proxy -----

  ghost predicate RefersTo(folder: string, d: Desc, fd: int, name: string) {
    || CachePath(folder, d.path) == name
    || (!d.readOnly && LocalPath(folder, d.path, fd) == name)
  }

  /** The live descriptors on a file of the cache. */
  ghost function Refs(folder: string, descs: map<int, Desc>, name: string): set<int> {
    set fd | fd in descs && RefersTo(folder, descs[fd], fd, name)
  }

  ghost predicate Found(list: seq<Entry>, name: string) {
    exists e :: e in list && e.path == name
  }

  ghost predicate NameOk(paths: set<string>, folder: string, descs: map<int, Desc>, name: string) {
    || (exists q :: q in paths && name == CachePath(folder, q))
    || (exists fd :: fd in descs && !descs[fd].readOnly && name == LocalPath(folder, descs[fd].path, fd))
  }

  ghost predicate DescOk(paths: set<string>, folder: string, list: seq<Entry>, d: Desc, fd: int) {
    && d.path in paths && fd >= FIRST_FD
    && Found(list, CachePath(folder, d.path))
    && (!d.readOnly ==> Found(list, LocalPath(folder, d.path, fd)))
  }

  /** Reference counts are live descriptors, every live descriptor's files are
      cached, and the cache folder holds just the cached files; `paths` are the
      client paths that may be opened here. */
  ghost predicate Linked(paths: set<string>, folder: string, descs: map<int, Desc>, list: seq<Entry>, disk: Disk) {
    && UniquePaths(list) && Apart(paths)
    && (forall e :: e in list ==> e.opens == |Refs(folder, descs, e.path)|)
    && (forall e {:trigger NameOk(paths, folder, descs, e.path)} :: e in list ==> NameOk(paths, folder, descs, e.path))
    && (forall fd {:trigger DescOk(paths, folder, list, descs[fd], fd)} ::
          fd in descs ==> DescOk(paths, folder, list, descs[fd], fd))
    && (forall name :: name in disk <==> Found(list, name))
  }

  ghost predicate ProxyOk(paths: set<string>, p: Proxy) {
    && Consistent(p.store)
    && Linked(paths, p.folder, p.descs, p.store.list, p.store.disk)
    && p.next >= FIRST_FD && (forall fd :: fd in p.descs ==> fd < p.next)
  }

  // ----- finding entries -----

  lemma FoundIndex(list: seq<Entry>, name: string)
    ensures Found(list, name) <==> IndexOf(list, name) < |list|
    ensures IndexOf(list, name) < |list| ==> list[IndexOf(list, name)].path == name
  {
    IndexOfFirst(list, name);
    if IndexOf(list, name) < |list| {
      assert list[IndexOf(list, name)] in list;
    }
  }

  lemma PinnedByDesc(paths: set<string>, folder: string, descs: map<int, Desc>, list: seq<Entry>, disk: Disk, fd: int,
                     e: Entry)
    requires Linked(paths, folder, descs, list, disk) && fd in descs && e in list
    requires RefersTo(folder, descs[fd], fd, e.path)
    ensures Pinned(e)
  {
    assert fd in Refs(folder, descs, e.path);
    assert Refs(folder, descs, e.path) != {};
  }

  // ----- what evictions and insertions keep -----

  /** `s'` is `s` without some closed entries and their files. */
  ghost predicate Evicted(list: seq<Entry>, disk: Disk, list': seq<Entry>, disk': Disk) {
    && UniquePaths(list')
    && (forall e :: e in list' ==> e in list)
    && (forall e :: e in list && Pinned(e) ==> e in list')
    && (forall name :: name in disk' ==> name in disk && disk'[name] == disk[name])
    && (forall name :: name in disk && name !in disk' ==> Found(list, name) && !Found(list', name))
    && (forall name :: name in disk' && Found(list, name) ==> Found(list', name))
  }

  lemma EvictedLinked(paths: set<string>, folder: string, descs: map<int, Desc>, list: seq<Entry>, disk: Disk,
                      list': seq<Entry>, disk': Disk)
    requires Linked(paths, folder, descs, list, disk)
    requires Evicted(list, disk, list', disk')
    ensures Linked(paths, folder, descs, list', disk')
  {
    forall fd | fd in descs ensures DescOk(paths, folder, list', descs[fd], fd) {
      var d := descs[fd];
      assert DescOk(paths, folder, list, d, fd);
      DescSurvives(paths, folder, descs, list, disk, list', fd, CachePath(folder, d.path));
      if !d.readOnly {
        DescSurvives(paths, folder, descs, list, disk, list', fd, LocalPath(folder, d.path, fd));
      }
    }
    forall name ensures name in disk' <==> Found(list', name) {
      if Found(list', name) {
        var e :| e in list' && e.path == name;
        assert Found(list, name);
      }
    }
  }

  /** A file with a live descriptor is never evicted. */
  lemma DescSurvives(paths: set<string>, folder: string, descs: map<int, Desc>, list: seq<Entry>, disk: Disk,
                     list': seq<Entry>, fd: int, name: string)
    requires Linked(paths, folder, descs, list, disk) && fd in descs
    requires RefersTo(folder, descs[fd], fd, name) && Found(list, name)
    requires forall e :: e in list && Pinned(e) ==> e in list'
    ensures Found(list', name)
  {
    var e :| e in list && e.path == name;
    PinnedByDesc(paths, folder, descs, list, disk, fd, e);
  }

  lemma {:induction false} SurvivorOrDropped(list: seq<Entry>, n: nat, e: Entry)
    requires e in list
    ensures e in Recent(list, n) || (!Pinned(e) && e.path in Dropped(list, n))
  {
    if e != list[0] {
      assert e in list[1..] by {
        var i :| 0 <= i < |list| && list[i] == e;
        assert list[1..][i - 1] == e;
      }
      SurvivorOrDropped(list[1..], n, e);
    }
  }

  /** Making room evicts closed entries only. */
  lemma RoomEvicts(list: seq<Entry>, disk: Disk, n: nat)
    requires UniquePaths(list)
    ensures Evicted(list, disk, Recent(list, n), disk - Dropped(list, n))
  {
    SurvivorsKept(list, n);
    forall e | e in list ensures e in Recent(list, n) || (!Pinned(e) && e.path in Dropped(list, n)) {
      SurvivorOrDropped(list, n, e);
    }
  }

  /** Inserting `e` at the head keeps whatever the insertion without evictions
      would keep. */
  lemma AddNewLinked(paths: set<string>, folder: string, descs: map<int, Desc>, s: Store, e: Entry)
    requires UniquePaths(s.list) && IndexOf(s.list, e.path) == |s.list| && AddNew(s, e).1
    requires Linked(paths, folder, descs, [e] + s.list, Created(s.disk, e.path))
    ensures Linked(paths, folder, descs, AddNew(s, e).0.list, AddNew(s, e).0.disk)
    ensures Consistent(AddNew(s, e).0)
  {
    var n := Needed(s, Length(s.disk, e.path), 0);
    AddNewExact(s, e);
    AddNewConsistent(s, e);
    HeadEvicted(s, e, n);
    EvictedLinked(paths, folder, descs, [e] + s.list, Created(s.disk, e.path),
                  [e] + Recent(s.list, n), Created(s.disk - Dropped(s.list, n), e.path));
  }

  lemma HeadEvicted(s: Store, e: Entry, n: nat)
    requires UniquePaths(s.list) && IndexOf(s.list, e.path) == |s.list|
    ensures Evicted([e] + s.list, Created(s.disk, e.path),
                    [e] + Recent(s.list, n), Created(s.disk - Dropped(s.list, n), e.path))
  {
    RoomEvicts(s.list, s.disk, n);
    HeadConsistent(s, e, n);
    DroppedElsewhere(s.list, n, e.path);
    forall name ensures Found([e] + s.list, name) <==> name == e.path || Found(s.list, name) {
      FoundHead(e, s.list, name);
    }
    forall name ensures Found([e] + Recent(s.list, n), name) <==> name == e.path || Found(Recent(s.list, n), name) {
      FoundHead(e, Recent(s.list, n), name);
    }
  }

  lemma FoundHead(e: Entry, list: seq<Entry>, name: string)
    ensures Found([e] + list, name) <==> name == e.path || Found(list, name)
  {
    assert e in [e] + list;
    forall x | x in list ensures x in [e] + list {
    }
  }

  // ----- replacing one entry -----

  /** `list'` has `e` for the entry of its name in `list`, if there was one, and
      otherwise the same entries. */
  ghost predicate Replaced(list: seq<Entry>, list': seq<Entry>, e: Entry) {
    && UniquePaths(list') && e in list'
    && (forall x: Entry :: x.path != e.path ==> (x in list <==> x in list'))
  }

  ghost predicate OnDisk(list: seq<Entry>, disk: Disk) {
    forall name :: name in disk <==> Found(list, name)
  }

  ghost function OpensOf(list: seq<Entry>, name: string): int {
    if IndexOf(list, name) < |list| then (IndexOfFirst(list, name); list[IndexOf(list, name)].opens) else 0
  }

  lemma ReplacedFound(list: seq<Entry>, list': seq<Entry>, e: Entry, name: string)
    requires Replaced(list, list', e)
    ensures Found(list', name) <==> name == e.path || Found(list, name)
  {
    if Found(list, name) && name != e.path {
      var x :| x in list && x.path == name;
      assert x in list';
    }
  }

  lemma ReplacedEntry(list: seq<Entry>, list': seq<Entry>, e: Entry, x: Entry)
    requires Replaced(list, list', e) && x in list'
    ensures x == e || (x.path != e.path && x in list)
  {
    if x.path == e.path {
      var i :| 0 <= i < |list'| && list'[i] == x;
      var j :| 0 <= j < |list'| && list'[j] == e;
      assert i == j;
    }
  }

  /** Opening with READ: one more reference on the cached file. */
  lemma OpenLinked(paths: set<string>, folder: string, descs: map<int, Desc>, fd: int, path: string,
                   list: seq<Entry>, disk: Disk, list': seq<Entry>, disk': Disk, e: Entry)
    requires Linked(paths, folder, descs, list, disk) && fd !in descs && fd >= FIRST_FD && path in paths
    requires Replaced(list, list', e) && OnDisk(list', disk')
    requires e.path == CachePath(folder, path) && e.opens == OpensOf(list, e.path) + 1
    ensures Linked(paths, folder, descs[fd := Desc(path, true, 0)], list', disk')
  {
    var descs' := descs[fd := Desc(path, true, 0)];
    RefsMatch(paths, folder, descs, list, disk, e.path);
    assert Refs(folder, descs', e.path) == Refs(folder, descs, e.path) + {fd};
    forall x | x in list' ensures x.opens == |Refs(folder, descs', x.path)| && NameOk(paths, folder, descs', x.path) {
      ReplacedEntry(list, list', e, x);
      if x != e {
        assert Refs(folder, descs', x.path) == Refs(folder, descs, x.path);
        NameKept(paths, folder, descs, fd, Desc(path, true, 0), x.path);
      }
    }
    forall g | g in descs' ensures DescOk(paths, folder, list', descs'[g], g) {
      assert g != fd ==> DescOk(paths, folder, list, descs[g], g);
      ReplacedDesc(paths, folder, list, list', e, descs'[g], g);
    }
  }

  lemma ReplacedDesc(paths: set<string>, folder: string, list: seq<Entry>, list': seq<Entry>, e: Entry, d: Desc,
                     fd: int)
    requires Replaced(list, list', e)
    requires || DescOk(paths, folder, list, d, fd)
             || (d.path in paths && fd >= FIRST_FD && d.readOnly && CachePath(folder, d.path) == e.path)
    ensures DescOk(paths, folder, list', d, fd)
  {
    ReplacedFound(list, list', e, CachePath(folder, d.path));
    ReplacedFound(list, list', e, LocalPath(folder, d.path, fd));
  }

  /** The count stored for a name is the number of its references, also when
      both are zero. */
  lemma RefsMatch(paths: set<string>, folder: string, descs: map<int, Desc>, list: seq<Entry>, disk: Disk, name: string)
    requires Linked(paths, folder, descs, list, disk)
    ensures OpensOf(list, name) == |Refs(folder, descs, name)|
  {
    FoundIndex(list, name);
    if IndexOf(list, name) < |list| {
      assert list[IndexOf(list, name)] in list;
    } else {
      forall fd | fd in descs ensures !RefersTo(folder, descs[fd], fd, name) {
        assert DescOk(paths, folder, list, descs[fd], fd);
      }
      assert Refs(folder, descs, name) == {};
    }
  }

  /** Closing a READ descriptor: one reference less. */
  lemma CloseLinked(paths: set<string>, folder: string, descs: map<int, Desc>, fd: int,
                    list: seq<Entry>, disk: Disk, list': seq<Entry>, disk': Disk, e: Entry)
    requires Linked(paths, folder, descs, list, disk) && fd in descs && descs[fd].readOnly
    requires Replaced(list, list', e) && OnDisk(list', disk')
    requires e.path == CachePath(folder, descs[fd].path) && e.opens == OpensOf(list, e.path) - 1
    ensures Linked(paths, folder, descs - {fd}, list', disk')
  {
    var descs' := descs - {fd};
    assert DescOk(paths, folder, list, descs[fd], fd);
    RefsMatch(paths, folder, descs, list, disk, e.path);
    assert fd in Refs(folder, descs, e.path);
    assert Refs(folder, descs', e.path) == Refs(folder, descs, e.path) - {fd};
    forall x | x in list' ensures x.opens == |Refs(folder, descs', x.path)| && NameOk(paths, folder, descs', x.path) {
      ReplacedEntry(list, list', e, x);
      if x != e {
        assert Refs(folder, descs', x.path) == Refs(folder, descs, x.path);
        assert NameOk(paths, folder, descs, x.path);
        StillNamed(paths, folder, descs, fd, x.path);
      } else {
        assert NameOk(paths, folder, descs', x.path);
      }
    }
    forall g | g in descs' ensures DescOk(paths, folder, list', descs'[g], g) {
      assert DescOk(paths, folder, list, descs[g], g);
      ReplacedDesc(paths, folder, list, list', e, descs'[g], g);
    }
  }

  lemma StillNamed(paths: set<string>, folder: string, descs: map<int, Desc>, fd: int, name: string)
    requires NameOk(paths, folder, descs, name) && fd in descs && descs[fd].readOnly
    ensures NameOk(paths, folder, descs - {fd}, name)
  {
    if !(exists q :: q in paths && name == CachePath(folder, q)) {
      var g :| g in descs && !descs[g].readOnly && name == LocalPath(folder, descs[g].path, g);
      assert g in descs - {fd};
    }
  }

  // ----- private copies -----

  /** The name of a private copy that no descriptor owns is not in the cache. */
  lemma LocalFresh(paths: set<string>, folder: string, descs: map<int, Desc>, list: seq<Entry>, disk: Disk,
                   path: string, fd: int)
    requires Linked(paths, folder, descs, list, disk) && path in paths && fd >= FIRST_FD
    requires fd in descs ==> descs[fd].readOnly
    ensures !Found(list, LocalPath(folder, path, fd))
  {
    var local := LocalPath(folder, path, fd);
    forall e | e in list ensures e.path != local {
      assert NameOk(paths, folder, descs, e.path);
      if e.path == local {
        forall q | q in paths ensures e.path != CachePath(folder, q) {
          NamesDistinct(folder, q, path, fd, fd);
        }
        var g :| g in descs && !descs[g].readOnly && local == LocalPath(folder, descs[g].path, g);
        assert DescOk(paths, folder, list, descs[g], g);
        NamesDistinct(folder, path, descs[g].path, fd, g);
      }
    }
  }

  /** Only its own descriptor refers to a private copy. */
  lemma LocalRefs(paths: set<string>, folder: string, descs: map<int, Desc>, path: string, fd: int, g: int)
    requires Apart(paths) && g in descs && descs[g].path in paths && path in paths && fd >= FIRST_FD
    ensures RefersTo(folder, descs[g], g, LocalPath(folder, path, fd)) <==>
              g == fd && !descs[g].readOnly && descs[g].path == path
  {
    NamesDistinct(folder, descs[g].path, path, g, fd);
    NamesDistinct(folder, descs[g].path, path, fd, fd);
  }

  /** A descriptor that also owns a private copy, in place of a READ one. */
  lemma LocalLinked(paths: set<string>, folder: string, descs: map<int, Desc>, fd: int, pos: nat, list: seq<Entry>,
                    disk: Disk, e: Entry,
                    list': seq<Entry>, disk': Disk)
    requires Linked(paths, folder, descs, list, disk) && fd in descs && descs[fd].readOnly
    requires e.path == LocalPath(folder, descs[fd].path, fd) && e.opens == 1
    requires Replaced(list, list', e) && OnDisk(list', disk')
    ensures Linked(paths, folder, descs[fd := Desc(descs[fd].path, false, pos)], list', disk')
  {
    var path := descs[fd].path;
    var descs' := descs[fd := Desc(path, false, pos)];
    assert DescOk(paths, folder, list, descs[fd], fd);
    LocalFresh(paths, folder, descs, list, disk, path, fd);
    forall g | g in descs' ensures RefersTo(folder, descs'[g], g, e.path) <==> g == fd {
      assert g in descs && DescOk(paths, folder, list, descs[g], g);
      LocalRefs(paths, folder, descs', path, fd, g);
    }
    assert Refs(folder, descs', e.path) == {fd};
    forall x | x in list' ensures x.opens == |Refs(folder, descs', x.path)| && NameOk(paths, folder, descs', x.path) {
      ReplacedEntry(list, list', e, x);
      if x != e {
        assert Refs(folder, descs', x.path) == Refs(folder, descs, x.path);
        NameKept(paths, folder, descs, fd, descs'[fd], x.path);
      } else {
        assert fd in descs' && !descs'[fd].readOnly;
      }
    }
    forall g | g in descs' ensures DescOk(paths, folder, list', descs'[g], g) {
      assert DescOk(paths, folder, list, descs[g], g);
      ReplacedFound(list, list', e, CachePath(folder, descs[g].path));
      ReplacedFound(list, list', e, LocalPath(folder, descs[g].path, g));
    }
  }

  lemma NameKept(paths: set<string>, folder: string, descs: map<int, Desc>, fd: int, d: Desc, name: string)
    requires NameOk(paths, folder, descs, name)
    requires fd in descs ==> descs[fd].readOnly || (d.path == descs[fd].path && !d.readOnly)
    ensures NameOk(paths, folder, descs[fd := d], name)
  {
    if !(exists q :: q in paths && name == CachePath(folder, q)) {
      var g :| g in descs && !descs[g].readOnly && name == LocalPath(folder, descs[g].path, g);
      assert g in descs[fd := d] && !descs[fd := d][g].readOnly;
      assert name == LocalPath(folder, descs[fd := d][g].path, g);
    }
  }

  /** Moving a file pointer changes nothing the cache depends on. */
  lemma PosLinked(paths: set<string>, folder: string, descs: map<int, Desc>, fd: int, pos: nat, list: seq<Entry>,
                  disk: Disk)
    requires Linked(paths, folder, descs, list, disk) && fd in descs
    ensures Linked(paths, folder, descs[fd := descs[fd].(pos := pos)], list, disk)
  {
    var descs' := descs[fd := descs[fd].(pos := pos)];
    forall x | x in list ensures x.opens == |Refs(folder, descs', x.path)| && NameOk(paths, folder, descs', x.path) {
      assert Refs(folder, descs', x.path) == Refs(folder, descs, x.path);
      NameKept(paths, folder, descs, fd, descs'[fd], x.path);
    }
    forall g | g in descs' ensures DescOk(paths, folder, list, descs'[g], g) {
      assert DescOk(paths, folder, list, descs[g], g);
    }
  }

  /** Deleting a private copy leaves its descriptor like a READ one. */
  lemma LocalGone(paths: set<string>, folder: string, descs: map<int, Desc>, fd: int, list: seq<Entry>, disk: Disk,
                  list': seq<Entry>, disk': Disk)
    requires Linked(paths, folder, descs, list, disk) && fd in descs && !descs[fd].readOnly
    requires UniquePaths(list') && OnDisk(list', disk')
    requires forall x :: x in list' <==> x in list && x.path != LocalPath(folder, descs[fd].path, fd)
    ensures Linked(paths, folder, descs[fd := descs[fd].(readOnly := true)], list', disk')
  {
    var path, local := descs[fd].path, LocalPath(folder, descs[fd].path, fd);
    var descs' := descs[fd := descs[fd].(readOnly := true)];
    assert DescOk(paths, folder, list, descs[fd], fd);
    forall x | x in list' ensures x.opens == |Refs(folder, descs', x.path)| && NameOk(paths, folder, descs', x.path) {
      assert Refs(folder, descs', x.path) == Refs(folder, descs, x.path);
      assert NameOk(paths, folder, descs, x.path);
      if !(exists q :: q in paths && x.path == CachePath(folder, q)) {
        var g :| g in descs && !descs[g].readOnly && x.path == LocalPath(folder, descs[g].path, g);
        assert g in descs' && !descs'[g].readOnly;
      }
    }
    forall g | g in descs' ensures DescOk(paths, folder, list', descs'[g], g) {
      assert DescOk(paths, folder, list, descs[g], g);
      NamesDistinct(folder, descs[g].path, path, g, fd);
      NamesDistinct(folder, descs[g].path, path, fd, fd);
      StillFound(list, list', local, CachePath(folder, descs[g].path));
      StillFound(list, list', local, LocalPath(folder, descs[g].path, g));
    }
  }

  lemma StillFound(list: seq<Entry>, list': seq<Entry>, gone: string, name: string)
    requires forall x :: x in list' <==> x in list && x.path != gone
    ensures name != gone && Found(list, name) ==> Found(list', name)
  {
    if name != gone && Found(list, name) {
      var x :| x in list && x.path == name;
      assert x in list';
    }
  }
}
