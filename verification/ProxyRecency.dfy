/** The recency order: an access by a descriptor puts the files it works on first. */
module ProxyRecency {
  import opened Files
  import opened LruCache
  import opened LruTheorems
  import opened ChunkTransfer
  import opened PathNames
  import opened ProxyModel
  import opened ProxyLinkage
  import opened ProxySafety
  import opened ProxyOpens
  import opened ProxyDescriptors
  import opened ProxyCoherence

  /** The other entries, in their order. */
  function Except(list: seq<Entry>, names: set<string>): seq<Entry> {
    if list == [] then []
    else (if list[0].path in names then [] else [list[0]]) + Except(list[1..], names)
  }

  lemma {:induction false} ExceptNone(list: seq<Entry>, names: set<string>)
    requires forall e :: e in list ==> e.path !in names
    ensures Except(list, names) == list
  {
    if list != [] {
      ExceptNone(list[1..], names);
      assert [list[0]] + list[1..] == list;
    }
  }

  lemma {:induction false} ExceptOne(list: seq<Entry>, i: nat, names: set<string>)
    requires UniquePaths(list) && i < |list| && list[i].path !in names
    ensures Except(Without(list, i), names) == Except(list, names + {list[i].path})
  {
    var more := names + {list[i].path};
    if i == 0 {
      assert Without(list, 0) == list[1..];
      SameExcept(list[1..], names, more);
      assert [] + Except(list[1..], more) == Except(list[1..], more);
    } else {
      assert Without(list, i)[0] == list[0] && Without(list, i)[1..] == Without(list[1..], i - 1);
      ExceptOne(list[1..], i - 1, names);
      assert list[0].path != list[i].path;
    }
  }

  lemma {:induction false} SameExcept(list: seq<Entry>, names: set<string>, more: set<string>)
    requires forall e :: e in list ==> (e.path in names <==> e.path in more)
    ensures Except(list, names) == Except(list, more)
  {
    if list != [] {
      SameExcept(list[1..], names, more);
    }
  }

  lemma TouchFirst(s: Store, name: string)
    requires UniquePaths(s.list) && Total(s.list, s.disk) <= s.capacity && Found(s.list, name)
    ensures var s' := Touch(s, name).0;
            && UniquePaths(s'.list) && Total(s'.list, s'.disk) <= s'.capacity
            && s'.list != [] && s'.list[0].path == name && s'.list[0] in s.list
            && s'.list == [s'.list[0]] + Except(s.list, {name})
            && forall other :: Found(s.list, other) ==> Found(s'.list, other)
  {
    hide Total;
    var i := IndexOf(s.list, name);
    TouchUnfolds(s, name);
    TouchExact(s, name);
    TouchFits(s, name);
    ExceptOne(s.list, i, {});
    WithoutMembers(s.list, i);
    ExceptNone(Without(s.list, i), {});
    assert {} + {name} == {name};
    FoundIndex(Touch(s, name).0.list, name);
  }

  /** A read or lseek puts a reader's file first; a writer's private copy, and
      behind it the cached file.  No entry goes, and the others keep their order. */
  lemma UseMovesFirst(paths: set<string>, p: Proxy, fd: int, pos: nat)
    requires ProxyOk(paths, p) && fd in p.descs
    ensures var (d, list, after) := (p.descs[fd], p.store.list, UseFile(p, fd, pos).0.store.list);
            var (name, local) := (CachePath(p.folder, d.path), LocalPath(p.folder, d.path, fd));
            && |after| == |list| && (forall e :: e in after ==> e in list)
            && (d.readOnly ==> |after| > 0 && after[0].path == name && after == [after[0]] + Except(list, {name}))
            && (!d.readOnly ==>
                  && |after| > 1 && after[0].path == local && after[1].path == name
                  && after == [after[0], after[1]] + Except(list, {name, local}))
  {
    hide Touch, Total, ProxyOk, Except, UniquePaths, CachePath, LocalPath;
    var d := p.descs[fd];
    var name, local := CachePath(p.folder, d.path), LocalPath(p.folder, d.path, fd);
    UseFound(paths, p, fd);
    TouchFirst(p.store, name);
    ExceptLength(p.store.list, name);
    ExceptMembers(p.store.list, {name});
    UseTouches(p, fd, pos, name, local);
    if !d.readOnly {
      TouchTwice(p.store, name, local);
    }
  }

  lemma TouchTwice(s: Store, name: string, local: string)
    requires UniquePaths(s.list) && Total(s.list, s.disk) <= s.capacity
    requires Found(s.list, name) && Found(s.list, local) && name != local
    ensures var after := Touch(Touch(s, name).0, local).0.list;
            && |after| == |s.list| > 1 && after[0].path == local && after[1].path == name
            && after == [after[0], after[1]] + Except(s.list, {name, local})
            && forall e :: e in after ==> e in s.list
  {
    hide Touch, Total, Except, UniquePaths;
    var s1 := Touch(s, name).0;
    var s2 := Touch(s1, local).0;
    TouchFirst(s, name);
    TouchFirst(s1, local);
    ExceptLength(s.list, name);
    ExceptLength(s1.list, local);
    ExceptHead(s1.list[0], s.list, name, local);
    assert s2.list == [s2.list[0], s1.list[0]] + Except(s.list, {name, local});
    ExceptMembers(s.list, {name, local});
    ExceptMembers(s.list, {name});
  }

  lemma UseFound(paths: set<string>, p: Proxy, fd: int)
    requires ProxyOk(paths, p) && fd in p.descs
    ensures var d := p.descs[fd];
            var (name, local) := (CachePath(p.folder, d.path), LocalPath(p.folder, d.path, fd));
            && UniquePaths(p.store.list) && Total(p.store.list, p.store.disk) <= p.store.capacity
            && Found(p.store.list, name) && (!d.readOnly ==> Found(p.store.list, local) && name != local)
  {
    assert DescOk(paths, p.folder, p.store.list, p.descs[fd], fd);
    if !p.descs[fd].readOnly {
      LocalIsNoCopy(paths, p.folder, p.descs[fd].path, fd);
    }
  }

  lemma UseTouches(p: Proxy, fd: int, pos: nat, name: string, local: string)
    requires fd in p.descs && name == CachePath(p.folder, p.descs[fd].path)
    requires local == LocalPath(p.folder, p.descs[fd].path, fd)
    requires UniquePaths(p.store.list) && Found(p.store.list, name)
    ensures UseFile(p, fd, pos).0.store
         == if p.descs[fd].readOnly then Touch(p.store, name).0 else Touch(Touch(p.store, name).0, local).0
  {
    TouchUnfolds(p.store, name);
  }

  lemma {:induction false} ExceptMembers(list: seq<Entry>, names: set<string>)
    ensures forall e :: e in Except(list, names) <==> e in list && e.path !in names
  {
    if list != [] {
      ExceptMembers(list[1..], names);
      assert list == [list[0]] + list[1..];
    }
  }

  lemma ExceptLength(list: seq<Entry>, name: string)
    requires UniquePaths(list) && Found(list, name)
    ensures |Except(list, {name})| == |list| - 1
  {
    FoundIndex(list, name);
    var i := IndexOf(list, name);
    ExceptOne(list, i, {});
    WithoutMembers(list, i);
    ExceptNone(Without(list, i), {});
    assert {} + {name} == {name};
  }

  lemma ExceptHead(e: Entry, list: seq<Entry>, name: string, local: string)
    requires UniquePaths([e] + Except(list, {name})) && e.path == name && name != local
    ensures Except([e] + Except(list, {name}), {local}) == [e] + Except(list, {name, local})
  {
    var rest := Except(list, {name});
    assert ([e] + rest)[1..] == rest;
    ExceptTwice(list, name, local);
  }

  lemma {:induction false} ExceptTwice(list: seq<Entry>, name: string, local: string)
    ensures Except(Except(list, {name}), {local}) == Except(list, {name, local})
  {
    if list != [] {
      ExceptTwice(list[1..], name, local);
      var rest := Except(list[1..], {name});
      if list[0].path == name {
        assert [] + rest == rest;
        assert [] + Except(list[1..], {name, local}) == Except(list[1..], {name, local});
      } else {
        assert ([list[0]] + rest)[1..] == rest;
      }
    }
  }

  /** A write that keeps its entries puts the private copy first, and behind it the
      cached file. */
  lemma WriteMovesFirst(paths: set<string>, p: Proxy, fd: int, data: Bytes)
    requires ProxyOk(paths, p) && fd in p.descs && !p.descs[fd].readOnly && Kept(p, fd, data)
    ensures var after := WriteFile(p, fd, data).0.store.list;
            && |after| >= 2
            && after[0].path == LocalPath(p.folder, p.descs[fd].path, fd)
            && after[1].path == CachePath(p.folder, p.descs[fd].path)
  {
    hide Touch, Linked, Total, Overlay;
    var d := p.descs[fd];
    var name, local := CachePath(p.folder, d.path), LocalPath(p.folder, d.path, fd);
    var s := Grown(p, fd, data);
    WriteTouches(paths, p, fd, data);
    UseFound(paths, p, fd);
    KeptTouches(p, fd, data, name, local);
    var s1 := Touch(s, name).0;
    TouchNeverAdds(s, name);
    TouchNeverAdds(s1, local);
    HeadOfTouch(s, name);
    assert s1.list[0] in s.list;
    SecondOfTouch(s1, local);
  }

  lemma KeptTouches(p: Proxy, fd: int, data: Bytes, name: string, local: string)
    requires fd in p.descs && !p.descs[fd].readOnly && name == CachePath(p.folder, p.descs[fd].path)
    requires local == LocalPath(p.folder, p.descs[fd].path, fd) && local in p.store.disk
    requires UniquePaths(p.store.list) && Found(p.store.list, name) && Kept(p, fd, data)
    ensures var s2 := Touch(Touch(Grown(p, fd, data), name).0, local).0;
            WriteFile(p, fd, data).0.store == s2 && Found(s2.list, name) && Found(s2.list, local)
  {
    TouchUnfolds(Grown(p, fd, data), name);
  }

  lemma HeadOfTouch(s: Store, name: string)
    requires UniquePaths(s.list) && Found(s.list, name) && Found(Touch(s, name).0.list, name)
    ensures var list := Touch(s, name).0.list;
            list != [] && list[0].path == name && list[0] in s.list
  {
    TouchUnfolds(s, name);
    TouchExact(s, name);
    FoundIndex(Touch(s, name).0.list, name);
  }

  /** A pinned head becomes the second when another entry is touched. */
  lemma SecondOfTouch(s: Store, name: string)
    requires UniquePaths(s.list) && Found(s.list, name) && Found(Touch(s, name).0.list, name)
    requires Pinned(s.list[0]) && s.list[0].path != name
    ensures var list := Touch(s, name).0.list;
            |list| >= 2 && list[0].path == name && list[1] == s.list[0]
  {
    HeadOfTouch(s, name);
    TouchUnfolds(s, name);
    var i := IndexOf(s.list, name);
    var s1 := s.(list := Without(s.list, i));
    WithoutUnique(s.list, i);
    WithoutMembers(s.list, i);
    IndexOfFirst(s1.list, name);
    FoundIndex(Touch(s, name).0.list, name);
    AddNewFound(s1, s.list[i]);
    AddNewExact(s1, s.list[i]);
    assert s1.list[0] == s.list[0];
  }
}
