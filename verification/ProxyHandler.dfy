/** The proxy's file handler as the program has it: descriptor maps, the shared
    cache and the file server, all updated in place
    (15440-p2/final/Proxy.java).  Each method is proved against ProxyModel. */
module ProxyHandler {
  import opened Files
  import opened LruCache
  import opened LruTheorems
  import opened ChunkTransfer
  import opened PathNames
  import opened ProxyModel
  import opened ProxyLinkage
  import opened ProxySafety
  import opened ProxyOpens
  import opened ProxyDescriptors

  class FileHandler {
    const folder: string
    const fs: FileSystem
    const cache: Cache
    const server: FileServer

    /** Whether the refresh loop passes its arguments in the declared order. */
    const declared: bool

    var fd: int
    var fileDict: map<int, string>
    var pointers: map<int, nat>
    var readOnlyDict: set<int>

    /** What the maps mean: the client's path, the mode and the position. */
    ghost var descs: map<int, Desc>

    ghost predicate Valid()
      reads this, cache, cache.cacheLinkedList
    {
      && cache.fs == fs && cache.Valid()
      && fileDict.Keys == descs.Keys && pointers.Keys == descs.Keys
      && (forall n :: n in readOnlyDict || n in descs ==> n < fd)
      && forall n :: n in descs ==>
           && pointers[n] == descs[n].pos && (n in readOnlyDict <==> descs[n].readOnly)
           && fileDict[n] == FileOf(descs[n], n)
    }

    ghost function FileOf(d: Desc, n: int): string
    {
      if d.readOnly then CachePath(folder, d.path) else LocalPath(folder, d.path, n)
    }

    ghost function Abs(): Proxy
      reads this, cache, fs
      requires cache.fs == fs
    {
      Proxy(folder, cache.Abs(), descs, fd)
    }

    constructor (folder: string, fs: FileSystem, server: FileServer, capacity: int, declared: bool)
      ensures Valid() && Abs() == Proxy(folder, Store([], fs.disk, 0, capacity), map[], 2000)
      ensures this.fs == fs && this.server == server && this.declared == declared && fresh(cache)
    {
      this.folder, this.fs, this.server, this.declared := folder, fs, server, declared;
      var c := new Cache(fs, capacity);
      this.cache := c;
      this.fd, fileDict, pointers, readOnlyDict, descs := 2000, map[], map[], {}, map[];
    }

    /** turnOn or turnOff on a cache entry's object. */
    method Reference(f: CacheFile, on: bool)
      requires cache.Valid() && UniquePaths(cache.entries)
      requires IndexOf(cache.entries, f.path) < |cache.entries|
      requires cache.cacheLinkedList[IndexOf(cache.entries, f.path)] == f
      modifies f, cache`entries
      ensures cache.Valid()
      ensures cache.Abs() == Count(old(cache.Abs()), f.path, if on then 1 else -1)
      ensures f.Value() == Counted(old(f.Value()), if on then 1 else -1)
    {
      ghost var i := IndexOf(cache.entries, f.path);
      if on {
        f.TurnOn();
      } else {
        f.TurnOff();
      }
      cache.Resync();
      assert forall j :: 0 <= j < |cache.entries| && j != i ==> cache.cacheLinkedList[j] != f;
      assert cache.entries == old(cache.entries)[i := f.Value()];
    }

    /** A new CacheFile, handed to addCache. */
    method Link(name: string, opens: int, version: int, option: string) returns (code: int)
      requires cache.fs == fs && cache.Valid() && UniquePaths(cache.entries)
      modifies cache, fs, cache.cacheLinkedList
      ensures cache.Valid()
      ensures forall f :: f in cache.cacheLinkedList ==> fresh(f) || f in old(cache.cacheLinkedList)
      ensures (cache.Abs(), code == 0) == Added(old(cache.Abs()), Entry(name, opens, version, option))
      ensures code == 0 || code == -1
    {
      var newCacheFile := new CacheFile(name, opens, version, option);
      code := cache.AddCache(newCacheFile);
    }

    method AddToCacheWhenFileOnCache(path: string, option: string, name: string) returns (status: Status)
      requires cache.fs == fs && cache.Valid() && UniquePaths(cache.entries)
      requires name == CachePath(folder, path) && IndexOf(cache.entries, name) < |cache.entries|
      requires |Content(server.disk, path)| <= LARGEST
      requires !declared ==> option !in server.disk && path != "CREATE_NEW"
      modifies cache, fs, server, cache.cacheLinkedList
      ensures cache.Valid()
      ensures forall f :: f in cache.cacheLinkedList ==> fresh(f) || f in old(cache.cacheLinkedList)
      ensures declared || |Content(old(server.disk), path)| <= CHUNK || status.Done? ==>
                (server.Abs(), cache.Abs(), status.Done?)
                == OpenHit(old(server.Abs()), folder, old(cache.Abs()), path, option)
    {
      hide Touch, Refetched, Count, UniquePaths, IndexOf;
      IndexOfFirst(cache.entries, name);
      var oldCacheFile := cache.FindCacheFile(name);
      var version := oldCacheFile.version;
      Reference(oldCacheFile, true);
      CountUnique(old(cache.Abs()), name, 1);
      assert forall i :: 0 <= i < |cache.cacheLinkedList| ==> cache.cacheLinkedList[i] in old(cache.cacheLinkedList);
      var versionServer := server.GetVersion(path);
      assert server.Abs() == Known(old(server.Abs()), path);
      assert cache.Abs() == Count(old(cache.Abs()), name, 1);
      assert version == old(cache.entries)[IndexOf(old(cache.entries), name)].version;
      if version == versionServer {
        var touched := cache.UpdateCache(path, 0);
        return Done;
      }
      status := Refresh(oldCacheFile.isOpen, versionServer, path, option, name);
    }

    /** The stale entry goes; a new one is filled from the server. */
    method Refresh(opens: int, version: int, path: string, option: string, name: string) returns (status: Status)
      requires cache.fs == fs && cache.Valid() && UniquePaths(cache.entries)
      requires IndexOf(cache.entries, name) < |cache.entries|
      requires |Content(server.disk, path)| <= LARGEST
      requires !declared ==> option !in server.disk && path != "CREATE_NEW"
      modifies cache, fs, server, cache.cacheLinkedList
      ensures cache.Valid()
      ensures forall f :: f in cache.cacheLinkedList ==> fresh(f) || f in old(cache.cacheLinkedList)
      ensures declared || |Content(old(server.disk), path)| <= CHUNK || status.Done? ==>
                (server.Abs(), cache.Abs(), status.Done?)
                == Refetched(old(server.Abs()), old(cache.Abs()), opens, version, path, option, name)
    {
      hide Added, Fetched, Delete, UpdateReply, UniquePaths;
      DeleteUnique(cache.Abs(), name);
      var code := cache.DeleteCache(name);
      assert forall i :: 0 <= i < |cache.cacheLinkedList| ==> cache.cacheLinkedList[i] in old(cache.cacheLinkedList);
      status := UpdateFromServer(fs, server, path, option, name, declared);
      if status.Failed? {
        return;
      }
      code := Link(name, opens, version, Mode(option));
      if code < 0 {
        return Failed("ENOENT");
      }
    }

    method AddToCacheWhenFileNotOnCache(path: string, option: string, name: string) returns (status: Status)
      requires cache.fs == fs && cache.Valid() && UniquePaths(cache.entries)
      requires name == CachePath(folder, path)
      requires |Content(server.disk, path)| <= LARGEST
      modifies cache, fs, server, cache.cacheLinkedList
      ensures cache.Valid()
      ensures forall f :: f in cache.cacheLinkedList ==> fresh(f) || f in old(cache.cacheLinkedList)
      ensures (server.Abs(), cache.Abs(), status.Done?)
           == OpenMiss(old(server.Abs()), folder, old(cache.Abs()), path, option)
      ensures path !in old(server.disk) && option in {"READ", "WRITE"} ==> status == Failed("ENOENT")
      ensures path in old(server.disk) && option == "CREATE_NEW" ==> status == Failed("EEXIST")
    {
      hide Added, Fetched, Retrieved, PieceOf, UniquePaths;
      RetrievedExact(Content(fs.disk, name), Content(server.disk, path));
      FirstPieceOf(Content(server.disk, path));
      status := Retrieve(fs, server, path, option, name);
      if status.Failed? {
        return;
      }
      var version := server.GetVersion(path);
      var code := Link(name, 1, version, Mode(option));
      if code < 0 {
        return Failed("ENOENT");
      }
    }

    method GetLocal(local: string, name: string) returns (status: Status)
      requires cache.fs == fs && cache.Valid() && UniquePaths(cache.entries)
      modifies cache, fs, cache.cacheLinkedList
      ensures cache.Valid()
      ensures (cache.Abs(), status.Done?) == CopyLocal(old(cache.Abs()), name, local)
    {
      if name !in fs.disk {
        return Failed("ENOENT");
      }
      fs.Replace(local, fs.disk[name]);
      var code := Link(local, 1, 1, "rw");
      if code < 0 {
        return Failed("ENOENT");
      }
      return Done;
    }

    /** The cached part of open. */
    method FetchIntoCache(path: string, option: string, name: string) returns (status: Status)
      requires cache.fs == fs && cache.Valid() && UniquePaths(cache.entries)
      requires name == CachePath(folder, path)
      requires |Content(server.disk, path)| <= LARGEST
      requires !declared ==> option !in server.disk && path != "CREATE_NEW"
      modifies cache, fs, server, cache.cacheLinkedList
      ensures cache.Valid()
      ensures forall f :: f in cache.cacheLinkedList ==> fresh(f) || f in old(cache.cacheLinkedList)
      ensures declared || |Content(old(server.disk), path)| <= CHUNK || status.Done? ==>
                (server.Abs(), cache.Abs(), status.Done?)
                == OpenCached(old(server.Abs()), folder, old(cache.Abs()), path, option)
      ensures IndexOf(old(cache.entries), CachePath(folder, path)) == |old(cache.entries)| ==>
                && (path !in old(server.disk) && option in {"READ", "WRITE"} ==> status == Failed("ENOENT"))
                && (path in old(server.disk) && option == "CREATE_NEW" ==> status == Failed("EEXIST"))
    {
      IndexOfFirst(cache.entries, name);
      var cached := cache.FindCacheFile(name);
      if cached != null {
        status := AddToCacheWhenFileOnCache(path, option, name);
      } else {
        status := AddToCacheWhenFileNotOnCache(path, option, name);
      }
    }

    /** READ uses the cached file itself; any other option a private copy. */
    method MakeFile(path: string, option: string, curr: int, name: string) returns (status: Status, file: string)
      requires cache.fs == fs && cache.Valid() && UniquePaths(cache.entries) && name == CachePath(folder, path)
      modifies cache, fs, cache.cacheLinkedList
      ensures cache.Valid()
      ensures file == FileOf(Desc(path, option == "READ", 0), curr)
      ensures (cache.Abs(), status.Done?)
           == if option == "READ" then (old(cache.Abs()), true) else CopyLocal(old(cache.Abs()), name, file)
    {
      if option == "READ" {
        return Done, name;
      }
      file := LocalPath(folder, path, curr);
      status := GetLocal(file, name);
    }

    method Prepare(path: string, option: string, curr: int) returns (status: Status, file: string)
      requires cache.fs == fs && cache.Valid() && UniquePaths(cache.entries)
      requires |Content(server.disk, path)| <= LARGEST
      requires !declared ==> option !in server.disk && path != "CREATE_NEW"
      modifies cache, fs, server, cache.cacheLinkedList
      ensures cache.Valid()
      ensures status.Done? ==> file == FileOf(Desc(path, option == "READ", 0), curr)
      ensures declared || |Content(old(server.disk), path)| <= CHUNK || status.Done? ==>
                (server.Abs(), cache.Abs(), status.Done?)
                == OpenStore(old(server.Abs()), folder, old(cache.Abs()), path, option, curr)
      ensures IndexOf(old(cache.entries), CachePath(folder, path)) == |old(cache.entries)| ==>
                && (path !in old(server.disk) && option in {"READ", "WRITE"} ==> status == Failed("ENOENT"))
                && (path in old(server.disk) && option == "CREATE_NEW" ==> status == Failed("EEXIST"))
    {
      ghost var s, svc := cache.Abs(), server.Abs();
      var name := CachePath(folder, path);
      status := FetchIntoCache(path, option, name);
      if status.Failed? {
        return status, "";
      }
      OpenCachedUnique(svc, folder, s, path, option);
      assert forall i :: 0 <= i < |cache.cacheLinkedList| ==>
        fresh(cache.cacheLinkedList[i]) || cache.cacheLinkedList[i] in old(cache.cacheLinkedList);
      status, file := MakeFile(path, option, curr, name);
    }

    method Open(path: string, option: string) returns (status: Status, result: int)
      requires Valid() && UniquePaths(cache.entries)
      requires |Content(server.disk, path)| <= LARGEST
      requires !declared ==> option !in server.disk && path != "CREATE_NEW"
      modifies this, cache, fs, server, cache.cacheLinkedList
      ensures Valid() && (status.Done? ==> result == old(fd))
      ensures declared || |Content(old(server.disk), path)| <= CHUNK || status.Done? ==>
                (server.Abs(), Abs(), status.Done?) == OpenFile(old(server.Abs()), old(Abs()), path, option)
      ensures IndexOf(old(cache.entries), CachePath(folder, path)) == |old(cache.entries)| ==>
                && (path !in old(server.disk) && option in {"READ", "WRITE"} ==> status == Failed("ENOENT"))
                && (path in old(server.disk) && option == "CREATE_NEW" ==> status == Failed("EEXIST"))
    {
      hide OpenStore, UniquePaths;
      var curr := fd;
      fd := fd + 1;
      result := -1;
      var file;
      status, file := Prepare(path, option, curr);
      if status.Failed? {
        return;
      }
      Enter(curr, path, option == "READ", file);
      result := curr;
    }

    /** Registers a descriptor in the maps. */
    method Enter(curr: int, path: string, read: bool, file: string)
      requires Valid() && curr !in descs && curr !in readOnlyDict && curr < fd
      requires file == FileOf(Desc(path, read, 0), curr)
      modifies this`fileDict, this`pointers, this`readOnlyDict, this`descs
      ensures Valid() && descs == old(descs)[curr := Desc(path, read, 0)]
    {
      fileDict, pointers := fileDict[curr := file], pointers[curr := 0];
      if read {
        readOnlyDict := readOnlyDict + {curr};
      }
      descs := descs[curr := Desc(path, read, 0)];
    }

    /** Drops a descriptor from the maps and tells which file it had. */
    method Leave(n: int) returns (file: string, read: bool)
      requires Valid() && n in fileDict
      modifies this`fileDict, this`pointers, this`descs
      ensures Valid() && descs == old(descs) - {n}
      ensures file == FileOf(old(descs)[n], n) && read == old(descs)[n].readOnly
    {
      file, read := fileDict[n], n in readOnlyDict;
      fileDict, pointers := fileDict - {n}, pointers - {n};
      descs := descs - {n};
    }

    /** Steps 3 to 3.2 of close: drop the cached file and make it again from the
        private copy's bytes. */
    method Rebuild(f: CacheFile, content: Bytes, version: int) returns (status: Status)
      requires cache.fs == fs && cache.Valid() && UniquePaths(cache.entries)
      requires IndexOf(cache.entries, f.path) < |cache.entries|
      requires cache.cacheLinkedList[IndexOf(cache.entries, f.path)] == f
      requires |content| <= LARGEST
      modifies cache, fs, cache.cacheLinkedList
      ensures cache.Valid()
      ensures (cache.Abs(), status.Done?) == Rebuilt(old(cache.Abs()), f.path, content, version)
    {
      ghost var s := cache.Abs();
      Reference(f, false);
      CountUnique(s, f.path, -1);
      DeleteUnique(cache.Abs(), f.path);
      var code := cache.DeleteCache(f.path);
      assert forall i :: 0 <= i < |cache.cacheLinkedList| ==> cache.cacheLinkedList[i] in old(cache.cacheLinkedList);
      UpdateOnCache(fs, f.path, content);
      code := Link(f.path, f.isOpen, version, f.option);
      return if code < 0 then Failed("ENOENT") else Done;
    }

    method Upload(serverPath: string, content: Bytes) returns (status: Status)
      requires |content| <= LARGEST
      modifies server
      ensures (server.Abs(), status.Done?) == Uploaded(old(server.Abs()), serverPath, content)
      ensures status.Done? ==> serverPath in server.versions
    {
      status := UpdateOnServer(server, serverPath, content);
    }

    /** Closing a private copy: upload it, then rebuild the cached file. */
    method CloseCopy(file: string) returns (status: Status)
      requires cache.fs == fs && cache.Valid() && UniquePaths(cache.entries)
      requires |Content(fs.disk, file)| <= LARGEST
      modifies cache, fs, server, cache.cacheLinkedList
      ensures cache.Valid()
      ensures (server.Abs(), cache.Abs(), status.Done?)
           == CopyClosed(old(server.Abs()), old(cache.Abs()), ServerPath(folder, CutAt(file)), CutAt(file), file)
    {
      hide Rebuilt, Uploaded, UniquePaths, CutAt, ServerPath, Overlay, Pieces, Total;
      var name := CutAt(file);
      var content := Content(fs.disk, file);
      ghost var s := cache.Abs();
      IndexOfFirst(cache.entries, file);
      var code := cache.DeleteCache(file);
      if code < 0 {
        return Failed("ENOENT");
      }
      DeleteUnique(s, file);
      assert forall i :: 0 <= i < |cache.cacheLinkedList| ==> cache.cacheLinkedList[i] in old(cache.cacheLinkedList);
      var serverPath := ServerPath(folder, name);
      status := Upload(serverPath, content);
      if status.Failed? {
        return;
      }
      var oldCacheFile := cache.FindCacheFile(name);
      if oldCacheFile == null {
        return Failed("EBADF");
      }
      var version := server.GetVersion(serverPath);
      status := Rebuild(oldCacheFile, content, version);
    }

    method CloseRead(file: string) returns (status: Status)
      requires cache.Valid() && UniquePaths(cache.entries)
      modifies cache, cache.cacheLinkedList
      ensures cache.Valid()
      ensures cache.Abs() == Count(old(cache.Abs()), file, -1)
      ensures status.Done? <==> IndexOf(old(cache.entries), file) < |old(cache.entries)|
    {
      var oldCacheFile := cache.FindCacheFile(file);
      if oldCacheFile == null {
        return Failed("EBADF");
      }
      Reference(oldCacheFile, false);
      return Done;
    }

    method Close(n: int) returns (status: Status)
      requires Valid() && UniquePaths(cache.entries)
      requires n in fileDict ==> |Content(fs.disk, fileDict[n])| <= LARGEST
      modifies this, cache, fs, server, cache.cacheLinkedList
      ensures Valid()
      ensures if n !in old(descs) || FileOf(old(descs)[n], n) !in old(fs.disk) then
                status.Failed? && Abs() == old(Abs()) && server.Abs() == old(server.Abs())
              else
                (server.Abs(), Abs(), status.Done?) == CloseFile(old(server.Abs()), old(Abs()), n)
      ensures n !in old(descs) ==> status == Failed("EBADF")
      ensures n in old(descs) && FileOf(old(descs)[n], n) !in old(fs.disk) ==> status == Failed("ENOENT")
    {
      if n !in fileDict {
        return Failed("EBADF");
      }
      if fileDict[n] !in fs.disk {
        return Failed("ENOENT");
      }
      ghost var d := descs[n];
      var file, read := Leave(n);
      if read {
        status := CloseRead(file);
      } else {
        CutLocalPath(folder, d.path, n);
        status := CloseCopy(file);
      }
    }

    method TouchCopy(name: string, file: string) returns (status: Status)
      requires cache.fs == fs && cache.Valid() && UniquePaths(cache.entries)
      modifies cache, fs, cache.cacheLinkedList
      ensures cache.Valid()
      ensures (cache.Abs(), status.Done?) == TouchBoth(old(cache.Abs()), name, file)
    {
      TouchNeverAdds(cache.Abs(), name);
      var code := cache.UpdateCache(name, 0);
      if code < 0 {
        return Failed("ENOENT");
      }
      assert forall i :: 0 <= i < |cache.cacheLinkedList| ==> cache.cacheLinkedList[i] in old(cache.cacheLinkedList);
      code := cache.UpdateCache(file, 0);
      return if code < 0 then Failed("ENOENT") else Done;
    }

    /** Moves a descriptor's file pointer. */
    method Seek(n: int, pos: nat)
      requires Valid() && n in descs
      modifies this`pointers, this`descs
      ensures Valid() && descs == old(descs)[n := old(descs)[n].(pos := pos)]
    {
      pointers := pointers[n := pos];
      descs := descs[n := descs[n].(pos := pos)];
    }

    method Write(n: int, data: Bytes) returns (status: Status)
      requires Valid() && UniquePaths(cache.entries)
      modifies this, cache, fs, cache.cacheLinkedList
      ensures Valid()
      ensures if n !in old(descs) then status.Failed? && Abs() == old(Abs())
              else (Abs(), status.Done?) == WriteFile(old(Abs()), n, data)
      ensures n !in old(descs) ==> status == Failed("EBADF")
      ensures n in old(descs) && FileOf(old(descs)[n], n) !in old(fs.disk) ==> status == Failed("ENOENT")
      ensures n in old(descs) && FileOf(old(descs)[n], n) in old(fs.disk) && old(descs)[n].readOnly ==>
                status == Failed("EPERM")
    {
      if n !in fileDict {
        return Failed("EBADF");
      }
      var file := fileDict[n];
      if file !in fs.disk {
        return Failed("ENOENT");
      }
      if n in readOnlyDict {
        return Failed("EPERM");
      }
      CutLocalPath(folder, descs[n].path, n);
      status := WriteCopy(n, file, data);
    }

    method WriteCopy(n: int, file: string, data: Bytes) returns (status: Status)
      requires Valid() && UniquePaths(cache.entries) && n in descs && !descs[n].readOnly
      requires file in fs.disk && file == LocalPath(folder, descs[n].path, n)
      requires CutAt(file) == CachePath(folder, descs[n].path)
      modifies this`pointers, this`descs, cache, fs, cache.cacheLinkedList
      ensures Valid()
      ensures (Abs(), status.Done?) == WriteFile(old(Abs()), n, data)
    {
      hide AddNew, Evict, Total, UniquePaths, CutAt, Overlay, Touch, LocalPath, CachePath;
      fs.Write(file, pointers[n], data);
      Seek(n, pointers[n] + |data|);
      status := TouchCopy(CutAt(file), file);
    }

    /** lseek from the start of the file. */
    method Lseek(n: int, pos: nat) returns (status: Status)
      requires Valid() && UniquePaths(cache.entries)
      modifies this, cache, fs, cache.cacheLinkedList
      ensures Valid()
      ensures if n !in old(descs) || FileOf(old(descs)[n], n) !in old(fs.disk) then
                status.Failed? && Abs() == old(Abs())
              else (Abs(), status.Done?) == UseFile(old(Abs()), n, pos)
      ensures n !in old(descs) ==> status == Failed("EBADF")
      ensures n in old(descs) && FileOf(old(descs)[n], n) !in old(fs.disk) ==> status == Failed("ENOENT")
    {
      if n !in fileDict {
        return Failed("EBADF");
      }
      var file := fileDict[n];
      if file !in fs.disk {
        return Failed("ENOENT");
      }
      if n in readOnlyDict {
        var code := cache.UpdateCache(file, 0);
        status := if code < 0 then Failed("ENOENT") else Done;
      } else {
        CutLocalPath(folder, descs[n].path, n);
        status := TouchCopy(CutAt(file), file);
      }
      if status.Done? {
        Seek(n, pos);
      }
    }
  }

  lemma AddedUnique(s: Store, e: Entry)
    requires UniquePaths(s.list) && IndexOf(s.list, e.path) == |s.list|
    ensures Added(s, e) == AddNew(s, e) && UniquePaths(Added(s, e).0.list)
  {
    AddNewMembers(s, e);
  }

  lemma OpenCachedUnique(svc: Service, folder: string, s: Store, path: string, option: string)
    requires UniquePaths(s.list)
    ensures UniquePaths(OpenCached(svc, folder, s, path, option).1.list)
  {
    IndexOfFirst(s.list, CachePath(folder, path));
    if IndexOf(s.list, CachePath(folder, path)) < |s.list| {
      OpenHitUnique(svc, folder, s, path, option);
    } else {
      OpenMissUnique(svc, folder, s, path, option);
    }
  }

  lemma OpenHitUnique(svc: Service, folder: string, s: Store, path: string, option: string)
    requires UniquePaths(s.list) && IndexOf(s.list, CachePath(folder, path)) < |s.list|
    ensures UniquePaths(OpenHit(svc, folder, s, path, option).1.list)
  {
    var name := CachePath(folder, path);
    var svc1 := Known(svc, path);
    var held, counted := s.list[IndexOf(s.list, name)], Count(s, name, 1);
    CountUnique(s, name, 1);
    if held.version == svc1.versions[path] {
      TouchNeverAdds(counted, path);
    } else {
      RefetchedUnique(svc1, counted, held.opens + 1, svc1.versions[path], path, option, name);
    }
  }

  lemma OpenMissUnique(svc: Service, folder: string, s: Store, path: string, option: string)
    requires UniquePaths(s.list) && IndexOf(s.list, CachePath(folder, path)) == |s.list|
    ensures UniquePaths(OpenMiss(svc, folder, s, path, option).1.list)
  {
    var name := CachePath(folder, path);
    var svc1 := Known(svc.(disk := Created(svc.disk, path)), path);
    AddedUnique(Put(s, name, Fetched(Content(s.disk, name), svc1.disk[path])),
                Entry(name, 1, svc1.versions[path], Mode(option)));
  }

  lemma RefetchedUnique(svc: Service, s: Store, opens: int, version: int, path: string, option: string, name: string)
    requires UniquePaths(s.list) && IndexOf(s.list, name) < |s.list|
    ensures UniquePaths(Refetched(svc, s, opens, version, path, option, name).1.list)
  {
    DeleteUnique(s, name);
    var deleted := Delete(s, name).0;
    AddedUnique(Put(deleted, name, Fetched(Content(deleted.disk, name), Content(svc.disk, path))),
                Entry(name, opens, version, Mode(option)));
  }

  lemma DeleteUnique(s: Store, name: string)
    requires UniquePaths(s.list) && IndexOf(s.list, name) < |s.list|
    ensures UniquePaths(Delete(s, name).0.list)
    ensures IndexOf(Delete(s, name).0.list, name) == |s.list| - 1
    ensures Delete(s, name).1 == 0
  {
    FoundIndex(s.list, name);
    DeleteFacts(s, name);
  }

  lemma CountUnique(s: Store, name: string, change: int)
    requires UniquePaths(s.list) && IndexOf(s.list, name) < |s.list|
    ensures UniquePaths(Count(s, name, change).list)
    ensures IndexOf(Count(s, name, change).list, name) == IndexOf(s.list, name)
  {
    FoundIndex(s.list, name);
    CountFacts(s, name, change);
    FoundIndex(Count(s, name, change).list, name);
  }
}
