/** One proxy's open, close, write and read/lseek on regular files
    (15440-p2/final/Proxy.java), as functions on its cache, its descriptors and
    the file server.  The boolean is success as the client sees it. */
module ProxyModel {
  import opened Files
  import opened LruCache
  import opened ChunkTransfer
  import opened PathNames

  /** An open descriptor: the client's path, whether it was opened with READ,
      and the position of its file pointer. */
  datatype Desc = Desc(path: string, readOnly: bool, pos: nat)

  datatype Proxy = Proxy(folder: string, store: Store, descs: map<int, Desc>, next: int)

  function Mode(option: string): string {
    if option == "READ" then "r" else "rw"
  }

  function Known(svc: Service, path: string): Service {
    if path in svc.versions then svc else svc.(versions := svc.versions[path := 1])
  }

  /** turnOn or turnOff on the entry with this path. */
  function Count(s: Store, path: string, change: int): Store {
    var i := IndexOf(s.list, path);
    if i < |s.list| then s.(list := s.list[i := Counted(s.list[i], change)]) else s
  }

  function Put(s: Store, path: string, content: Bytes): Store {
    s.(disk := s.disk[path := content])
  }

  // ----- open -----

  /** A stale copy goes and is fetched again under the server's version. */
  function Refetched(svc: Service, s: Store, opens: int, version: int, path: string, option: string, name: string)
    : (Service, Store, bool)
  {
    var deleted := Delete(s, name).0;
    var (svc1, reply) := UpdateReply(svc, path, option, 0);
    if reply.Error? then (svc1, deleted, false)
    else
      var fetched := Put(deleted, name, Fetched(Content(deleted.disk, name), Content(svc.disk, path)));
      var (added, room) := Added(fetched, Entry(name, opens, version, Mode(option)));
      (svc1, added, room)
  }

  /** addToCacheWhenFileOnCache.  With the current version in the cache it
      touches the client's path, not the cached file's. */
  function OpenHit(svc: Service, folder: string, s: Store, path: string, option: string): (Service, Store, bool)
    requires IndexOf(s.list, CachePath(folder, path)) < |s.list|
  {
    var name := CachePath(folder, path);
    var held := s.list[IndexOf(s.list, name)];
    var counted := Count(s, name, 1);
    var svc1 := Known(svc, path);
    var version := svc1.versions[path];
    if held.version == version then (svc1, Touch(counted, path).0, true)
    else Refetched(svc1, counted, held.opens + 1, version, path, option, name)
  }

  /** addToCacheWhenFileNotOnCache. */
  function OpenMiss(svc: Service, folder: string, s: Store, path: string, option: string): (Service, Store, bool) {
    var name := CachePath(folder, path);
    if OpenError(svc.disk, option, path).Error? then (svc, s, false)
    else
      var svc1 := Known(svc.(disk := Created(svc.disk, path)), path);
      var fetched := Put(s, name, Fetched(Content(s.disk, name), svc1.disk[path]));
      var (added, room) := Added(fetched, Entry(name, 1, svc1.versions[path], Mode(option)));
      (svc1, added, room)
  }

  function OpenCached(svc: Service, folder: string, s: Store, path: string, option: string): (Service, Store, bool) {
    if IndexOf(s.list, CachePath(folder, path)) < |s.list| then OpenHit(svc, folder, s, path, option)
    else OpenMiss(svc, folder, s, path, option)
  }

  /** getLocal: a private copy of the cached file. */
  function CopyLocal(s: Store, name: string, local: string): (Store, bool) {
    if name !in s.disk then (s, false)
    else Added(Put(s, local, s.disk[name]), Entry(local, 1, 1, "rw"))
  }

  /** The cached file, and unless it is opened with READ a private copy. */
  function OpenStore(svc: Service, folder: string, s: Store, path: string, option: string, fd: int)
    : (Service, Store, bool)
  {
    var (svc1, s1, ok) := OpenCached(svc, folder, s, path, option);
    if !ok || option == "READ" then (svc1, s1, ok)
    else
      var (s2, copied) := CopyLocal(s1, CachePath(folder, path), LocalPath(folder, path, fd));
      (svc1, s2, copied)
  }

  function OpenFile(svc: Service, p: Proxy, path: string, option: string): (Service, Proxy, bool) {
    var fd := p.next;
    var (svc1, s, ok) := OpenStore(svc, p.folder, p.store, path, option, fd);
    var descs := if ok then p.descs[fd := Desc(path, option == "READ", 0)] else p.descs;
    (svc1, p.(store := s, next := fd + 1, descs := descs), ok)
  }

  // ----- close -----

  function Uploaded(svc: Service, path: string, content: Bytes): (Service, bool) {
    if path !in svc.disk then (svc, false)
    else if path !in svc.versions then
      (svc.(disk := svc.disk[path := Overlay(svc.disk[path], 0, FirstPiece(content))]), false)
    else
      (Service(svc.disk[path := Overlay(svc.disk[path], 0, content)],
               svc.versions[path := svc.versions[path] + Pieces(|content|)]), true)
  }

  /** The cached file is dropped and rebuilt from the private copy. */
  function Rebuilt(s: Store, name: string, content: Bytes, version: int): (Store, bool)
    requires IndexOf(s.list, name) < |s.list|
  {
    var held := Counted(s.list[IndexOf(s.list, name)], -1);
    var deleted := Delete(Count(s, name, -1), name).0;
    var rebuilt := deleted.(disk := Written(deleted.disk, name, 0, content));
    Added(rebuilt, Entry(name, held.opens, version, held.option))
  }

  /** Closing a private copy: it leaves the cache, goes to the server under
      `path`, and the cached file is rebuilt from it with that path's version. */
  function CopyClosed(svc: Service, s: Store, path: string, name: string, local: string): (Service, Store, bool) {
    var content := Content(s.disk, local);
    var (s1, code) := Delete(s, local);
    var (svc1, sent) := Uploaded(svc, path, content);
    if code < 0 then (svc, s, false)
    else if !sent || IndexOf(s1.list, name) >= |s1.list| then (svc1, s1, false)
    else
      var (s2, room) := Rebuilt(s1, name, content, svc1.versions[path]);
      (svc1, s2, room)
  }

  function CloseFile(svc: Service, p: Proxy, fd: int): (Service, Proxy, bool)
    requires fd in p.descs
  {
    var d := p.descs[fd];
    var (name, local) := (CachePath(p.folder, d.path), LocalPath(p.folder, d.path, fd));
    var closed := p.(descs := p.descs - {fd});
    if d.readOnly then
      (svc, closed.(store := Count(p.store, name, -1)), IndexOf(p.store.list, name) < |p.store.list|)
    else
      var (svc1, s, ok) := CopyClosed(svc, p.store, ServerPath(p.folder, name), name, local);
      (svc1, closed.(store := s), ok)
  }

  // ----- write, read and lseek -----

  /** updateCache for the cached file and then for the private copy. */
  function TouchBoth(s: Store, name: string, local: string): (Store, bool) {
    var (s1, code1) := Touch(s, name);
    if code1 < 0 then (s1, false)
    else
      var (s2, code2) := Touch(s1, local);
      (s2, code2 >= 0)
  }

  /** The cache just after the private copy has been written in place. */
  function Grown(p: Proxy, fd: int, data: Bytes): Store
    requires fd in p.descs
  {
    p.store.(disk := Written(p.store.disk, LocalPath(p.folder, p.descs[fd].path, fd), p.descs[fd].pos, data))
  }

  function Repositioned(p: Proxy, s: Store, fd: int, pos: nat): Proxy
    requires fd in p.descs
  {
    p.(store := s, descs := p.descs[fd := p.descs[fd].(pos := pos)])
  }

  function TouchFiles(s: Store, folder: string, d: Desc, fd: int): (Store, bool) {
    if d.readOnly then
      var (s1, code) := Touch(s, CachePath(folder, d.path));
      (s1, code >= 0)
    else TouchBoth(s, CachePath(folder, d.path), LocalPath(folder, d.path, fd))
  }

  function WriteFile(p: Proxy, fd: int, data: Bytes): (Proxy, bool)
    requires fd in p.descs
  {
    var d := p.descs[fd];
    if d.readOnly || LocalPath(p.folder, d.path, fd) !in p.store.disk then (p, false)
    else
      var (s, ok) := TouchFiles(Grown(p, fd, data), p.folder, d, fd);
      (Repositioned(p, s, fd, d.pos + |data|), ok)
  }

  /** read and lseek as the cache sees them: the pointer ends up at `pos`. */
  function UseFile(p: Proxy, fd: int, pos: nat): (Proxy, bool)
    requires fd in p.descs
  {
    var (s, ok) := TouchFiles(p.store, p.folder, p.descs[fd], fd);
    if ok then (Repositioned(p, s, fd, pos), true) else (p.(store := s), false)
  }
}
