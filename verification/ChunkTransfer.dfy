/** Chunked transfer between proxy and server (15440-p2/final/Proxy.java and
    Server.java): files travel in pieces of at most 200000 bytes. */
module ChunkTransfer {
  import opened Files

  const CHUNK: nat := 200000
  const MAX_INT: int := 0x7fff_ffff

  /** The longest file for which no offset computation wraps. */
  const LARGEST: nat := 10737 * CHUNK

  /** What crosses the network: bytes and the file length, an error name, or
      an exception. */
  datatype RemoteFile = Data(bytes: Bytes, total: int) | Error(name: string) | Thrown

  datatype Status = Done | Failed(error: string)

  /** The server's files and versionDict. */
  datatype Service = Service(disk: Disk, versions: map<string, int>)

  function Min(a: int, b: int): int {
    if a <= b then a else b
  }

  /** Java int addition. */
  function Add32(a: int, b: int): int {
    (a + b + 0x8000_0000) % 0x1_0000_0000 - 0x8000_0000
  }

  /** How many bytes the next piece gets. */
  function PieceLength(from: int, length: int): int {
    if Add32(from, CHUNK) <= length then CHUNK else length - from
  }

  /** The piece is the next 200000 bytes or the rest of the file, exactly until
      the offset is so large that the addition wraps. */
  lemma PieceLengthExact(from: int, length: int)
    requires 0 <= from <= length <= MAX_INT
    ensures PieceLength(from, length) == Min(CHUNK, length - from) <==> from + CHUNK <= MAX_INT
  {
    if from + CHUNK > MAX_INT {
      assert Add32(from, CHUNK) == from + CHUNK - 0x1_0000_0000;
    } else {
      assert Add32(from, CHUNK) == from + CHUNK;
    }
  }

  /** A whole number of pieces, or everything. */
  ghost predicate Boundary(from: int, length: int) {
    0 <= from <= length && (from == length || from % CHUNK == 0)
  }

  lemma NextPiece(from: int, length: int)
    requires Boundary(from, length) && (from < length || length == 0) && length <= LARGEST
    ensures PieceLength(from, length) == Min(CHUNK, length - from)
    ensures Boundary(from + PieceLength(from, length), length)
  {
    PieceLengthExact(from, length);
  }

  // ----- what the server answers -----

  /** errorChecking; string comparison is by value. */
  function OpenError(disk: Disk, option: string, path: string): RemoteFile {
    if path in disk && option == "CREATE_NEW" then Error("EEXIST")
    else if path !in disk && (option == "READ" || option == "WRITE") then Error("ENOENT")
    else Data([], 0)
  }

  function PieceOf(content: Bytes, from: int): RemoteFile {
    var length := PieceLength(from, |content|);
    if length < 0 || from < 0 then Thrown
    else if from + length <= |content| then Data(content[from..from + length], |content|)
    else
      var available := content[Min(from, |content|)..];
      Data(available + Zeros(length - |available|), |content|)
  }

  function OpenReply(s: Service, option: string, path: string, from: int): (Service, RemoteFile) {
    if from == 0 && OpenError(s.disk, option, path).Error? then (s, OpenError(s.disk, option, path))
    else
      var disk := Created(s.disk, path);
      var piece := PieceOf(disk[path], from);
      if piece.Thrown? then (s.(disk := disk), piece)
      else (Service(disk, if path in s.versions then s.versions else s.versions[path := 1]), piece)
  }

  function UpdateReply(s: Service, path: string, option: string, from: int): (Service, RemoteFile) {
    if path in s.disk then (s, PieceOf(s.disk[path], from))
    else if option == "CREATE_NEW" then (s.(disk := s.disk[path := []]), Data([], 0))
    else (s, Error("ENOENT"))
  }

  /** close: the count written, -1 for a missing file, -2 for an exception. */
  function CloseReply(s: Service, bytes: Bytes, from: nat, path: string): (Service, int) {
    if path !in s.disk then (s, -1)
    else
      var disk := Written(s.disk, path, from, bytes);
      if path !in s.versions then (s.(disk := disk), -2)
      else (Service(disk, s.versions[path := s.versions[path] + 1]), |bytes|)
  }

  class FileServer {
    var disk: Disk
    var versions: map<string, int>

    function Abs(): Service
      reads this
    {
      Service(disk, versions)
    }

    constructor (disk: Disk)
      ensures Abs() == Service(disk, map[])
    {
      this.disk, versions := disk, map[];
    }

    method Open(option: string, path: string, from: int) returns (rf: RemoteFile)
      modifies this
      ensures (Abs(), rf) == OpenReply(old(Abs()), option, path, from)
    {
      if from == 0 && OpenError(disk, option, path).Error? {
        return OpenError(disk, option, path);
      }
      if path !in disk {
        disk := disk[path := []];
      }
      rf := PieceOf(disk[path], from);
      if !rf.Thrown? && path !in versions {
        versions := versions[path := 1];
      }
    }

    method GetVersion(path: string) returns (version: int)
      modifies this
      ensures disk == old(disk)
      ensures versions == if path in old(versions) then old(versions) else old(versions)[path := 1]
      ensures version == versions[path]
    {
      if path !in versions {
        versions := versions[path := 1];
      }
      version := versions[path];
    }

    method Update(path: string, option: string, from: int) returns (rf: RemoteFile)
      modifies this
      ensures (Abs(), rf) == UpdateReply(old(Abs()), path, option, from)
    {
      if path in disk {
        return PieceOf(disk[path], from);
      }
      if option == "CREATE_NEW" {
        disk := disk[path := []];
        return Data([], 0);
      }
      return Error("ENOENT");
    }

    method Close(bytes: Bytes, from: nat, path: string) returns (respond: int)
      modifies this
      ensures (Abs(), respond) == CloseReply(old(Abs()), bytes, from, path)
    {
      if path !in disk {
        return -1;
      }
      disk := disk[path := Overlay(disk[path], from, bytes)];
      if path !in versions {
        return -2;
      }
      versions := versions[path := versions[path] + 1];
      return |bytes|;
    }
  }

  // ----- downloads -----

  function FirstPiece(content: Bytes): Bytes {
    content[..Min(CHUNK, |content|)]
  }

  /** The first piece is written over the file, the others are appended. */
  function Fetched(before: Bytes, content: Bytes): Bytes {
    Overlay(before, 0, FirstPiece(content)) + content[|FirstPiece(content)|..]
  }

  /** The copy is faithful exactly when the file it lands in is no longer than
      the first piece; in particular when there was no file. */
  lemma FetchedExact(before: Bytes, content: Bytes)
    ensures Fetched(before, content) == content <==> |before| <= Min(CHUNK, |content|)
  {
    var first := FirstPiece(content);
    assert content == first + content[|first|..];
    if |before| <= |first| {
      assert Overlay(before, 0, first) == first;
    } else {
      assert |Overlay(before, 0, first)| == |before|;
    }
  }

  lemma NextPieceOf(content: Bytes, from: int)
    requires Boundary(from, |content|) && (from < |content| || content == []) && |content| <= LARGEST
    ensures var next := from + Min(CHUNK, |content| - from);
            PieceOf(content, from) == Data(content[from..next], |content|) && Boundary(next, |content|)
  {
    NextPiece(from, |content|);
  }

  lemma AppendPiece(prefix: Bytes, content: Bytes, a: nat, b: nat, c: nat)
    requires a <= b <= c <= |content|
    ensures Overlay(prefix + content[a..b], |prefix| + (b - a), content[b..c]) == prefix + content[a..c]
  {
    assert content[a..b] + content[b..c] == content[a..c];
  }

  /** The loop of a download from this offset on, which is an int: what it
      appends, and whether it ends without an exception. */
  function Download(content: Bytes, from: int, copy: Bytes): (Bytes, bool)
    requires |content| <= MAX_INT && from <= MAX_INT
    decreases if from < 0 then 0 else 1 + MAX_INT - from
  {
    if from >= |content| then (copy, true)
    else
      var piece := PieceOf(content, from);
      PieceAdvances(content, from);
      if !piece.Data? then (copy, false)
      else Download(content, Add32(from, |piece.bytes|), copy + piece.bytes)
  }

  /** A piece is never empty, so the offset moves on, or turns negative. */
  lemma PieceAdvances(content: Bytes, from: int)
    requires from < |content| <= MAX_INT
    ensures var piece := PieceOf(content, from);
            piece.Data? ==> 0 < |piece.bytes| <= CHUNK && from >= 0
    ensures var piece := PieceOf(content, from);
            piece.Data? ==> Add32(from, |piece.bytes|) == from + |piece.bytes| || Add32(from, |piece.bytes|) < 0
    ensures !PieceOf(content, from).Error?
  {
  }

  lemma AppendEnd(content: Bytes, data: Bytes)
    ensures Overlay(content, |content|, data) == content + data
  {
  }

  /** Up to the offset where ints wrap, piece by piece. */
  lemma {:induction false} DownloadUpTo(content: Bytes, from: int, copy: Bytes, end: int)
    requires |content| <= MAX_INT && Boundary(from, |content|) && from <= end
    requires end == Min(|content|, LARGEST)
    ensures Download(content, from, copy) == Download(content, end, copy + content[from..end])
    decreases end - from
  {
    if from == end {
      assert copy + content[from..end] == copy;
    } else {
      hide PieceOf, PieceLength;
      var next := from + Min(CHUNK, |content| - from);
      OnePiece(content, from);
      DownloadUpTo(content, next, copy + content[from..next], end);
      assert copy + content[from..next] + content[next..end] == copy + content[from..end];
    }
  }

  lemma OnePiece(content: Bytes, from: int)
    requires |content| <= MAX_INT && Boundary(from, |content|) && from < Min(|content|, LARGEST)
    ensures var next := from + Min(CHUNK, |content| - from);
            && PieceOf(content, from) == Data(content[from..next], |content|) && Add32(from, next - from) == next
            && Boundary(next, |content|) && next <= Min(|content|, LARGEST)
  {
    PieceLengthExact(from, |content|);
  }

  /** A file of more than LARGEST bytes: the last piece is padded, and then the
      offset is negative. */
  lemma DownloadWraps(content: Bytes, copy: Bytes)
    requires LARGEST < |content| <= MAX_INT
    ensures !Download(content, LARGEST, copy).1
  {
    PieceLengthExact(LARGEST, |content|);
    assert PieceLength(LARGEST, |content|) == CHUNK;
    assert Add32(LARGEST, CHUNK) < 0;
  }

  /** A file whose length is an int is copied whole exactly when no offset wraps. */
  lemma DownloadExact(content: Bytes, from: int)
    requires |content| <= MAX_INT && Boundary(from, |content|) && from <= LARGEST
    ensures Download(content, from, []) == (content[from..], true) <==> |content| <= LARGEST
    ensures Download(content, from, []).1 <==> |content| <= LARGEST
  {
    var end := Min(|content|, LARGEST);
    DownloadUpTo(content, from, [], end);
    assert [] + content[from..end] == content[from..end];
    if |content| > LARGEST {
      DownloadWraps(content, content[from..end]);
    } else {
      assert content[from..end] == content[from..];
    }
  }

  /** What a download leaves in the file, and whether it succeeds. */
  function Retrieved(before: Bytes, content: Bytes): (Bytes, bool)
    requires |content| <= MAX_INT
  {
    var rest := Download(content, |FirstPiece(content)|, []);
    (Overlay(before, 0, FirstPiece(content)) + rest.0, rest.1)
  }

  lemma RetrievedExact(before: Bytes, content: Bytes)
    requires |content| <= MAX_INT
    ensures Retrieved(before, content).1 <==> |content| <= LARGEST
    ensures |content| <= LARGEST ==> Retrieved(before, content).0 == Fetched(before, content)
  {
    DownloadExact(content, |FirstPiece(content)|);
  }

  lemma FirstPieceOf(content: Bytes)
    requires |content| <= MAX_INT
    ensures PieceOf(content, 0) == Data(FirstPiece(content), |content|)
    ensures Boundary(|FirstPiece(content)|, |content|)
  {
    PieceLengthExact(0, |content|);
  }

  /** The first piece over the file, then the others at its end; the exception
      for a file of too many bytes is not one that the proxy catches. */
  method Retrieve(fs: FileSystem, server: FileServer, path: string, option: string, cachePath: string)
    returns (status: Status)
    requires |Content(server.disk, path)| <= MAX_INT
    modifies fs, server
    ensures server.Abs() == OpenReply(old(server.Abs()), option, path, 0).0
    ensures var reply := OpenError(old(server.disk), option, path);
            if reply.Error? then status == Failed(reply.name) && fs.disk == old(fs.disk)
            else
              var r := Retrieved(Content(old(fs.disk), cachePath), Content(old(server.disk), path));
              && fs.disk == old(fs.disk)[cachePath := r.0]
              && status == if r.1 then Done else Failed("NullPointerException")
  {
    hide Overlay, PieceOf, PieceLength;
    ghost var before, content := Content(fs.disk, cachePath), Content(server.disk, path);
    FirstPieceOf(content);
    var rf := server.Open(option, path, 0);
    if rf.Error? {
      return Failed(rf.name);
    }
    var from := |rf.bytes|;
    var total := rf.total;
    fs.Write(cachePath, 0, rf.bytes);
    ghost var service := server.Abs();
    ghost var start, copy := Overlay(before, 0, FirstPiece(content)), [];
    assert start + copy == start;
    while from < total
      invariant total == |content| && from <= MAX_INT && server.Abs() == service
      invariant Download(content, from, copy) == Download(content, |FirstPiece(content)|, [])
      invariant fs.disk == old(fs.disk)[cachePath := start + copy]
      decreases if from < 0 then 0 else 1 + MAX_INT - from
    {
      rf := server.Open(option, path, from);
      PieceAdvances(content, from);
      if !rf.Data? {
        return Failed("NullPointerException");
      }
      AppendEnd(start + copy, rf.bytes);
      assert start + copy + rf.bytes == start + (copy + rf.bytes);
      fs.Write(cachePath, Length(fs.disk, cachePath), rf.bytes);
      from, copy := Add32(from, |rf.bytes|), copy + rf.bytes;
    }
    return Done;
  }

  /** The refresh of a stale copy.  The source passes `option` and `path` in
      the other order in the loop (`declared` is false); no server file may then
      carry the name of an open option. */
  method UpdateFromServer(fs: FileSystem, server: FileServer, path: string, option: string, cachePath: string,
                          declared: bool)
    returns (status: Status)
    requires |Content(server.disk, path)| <= LARGEST
    requires !declared ==> option !in server.disk && path != "CREATE_NEW"
    modifies fs, server
    ensures server.Abs() == UpdateReply(old(server.Abs()), path, option, 0).0
    ensures var (before, content) := (Content(old(fs.disk), cachePath), Content(old(server.disk), path));
            if UpdateReply(old(server.Abs()), path, option, 0).1.Error? then
              status.Failed? && fs.disk == old(fs.disk)
            else if declared || |content| <= CHUNK then
              status == Done && fs.disk == old(fs.disk)[cachePath := Fetched(before, content)]
            else
              status.Failed? && fs.disk == old(fs.disk)[cachePath := Overlay(before, 0, content[..CHUNK])]
  {
    hide Overlay, PieceOf, PieceLength;
    ghost var before, content := Content(fs.disk, cachePath), Content(server.disk, path);
    NextPieceOf(content, 0);
    var rf := server.Update(path, option, 0);
    if rf.Error? {
      return Failed(rf.name);
    }
    ghost var service := server.Abs();
    var from := |rf.bytes|;
    var total := rf.total;
    fs.Write(cachePath, 0, rf.bytes);
    ghost var first := FirstPiece(content);
    assert Overlay(before, 0, first) + content[|first|..from] == Overlay(before, 0, first);
    while from < total
      invariant Boundary(from, |content|) && |first| <= from <= total == |content|
      invariant !declared ==> from == |first|
      invariant server.Abs() == service && (total > 0 ==> path in server.disk && service == old(server.Abs()))
      invariant fs.disk == old(fs.disk)[cachePath := Overlay(before, 0, first) + content[|first|..from]]
    {
      NextPieceOf(content, from);
      if declared {
        rf := server.Update(path, option, from);
      } else {
        rf := server.Update(option, path, from);
      }
      if !rf.Data? {
        return Failed("NullPointerException");
      }
      AppendPiece(Overlay(before, 0, first), content, |first|, from, from + |rf.bytes|);
      fs.Write(cachePath, Length(fs.disk, cachePath), rf.bytes);
      from := from + |rf.bytes|;
    }
    assert content[|first|..from] == content[|first|..];
    return Done;
  }

  // ----- uploads -----

  /** How many close calls carry `length` bytes: at least one. */
  function Pieces(length: nat): nat {
    if length == 0 then 1 else (length + CHUNK - 1) / CHUNK
  }

  /** Uploading leaves the local bytes followed by any longer old tail. */
  lemma UploadKeepsTail(before: Bytes, local: Bytes)
    ensures Overlay(before, 0, local) == local + Tail(before, |local|)
    ensures Overlay(before, 0, local) == local <==> |before| <= |local|
  {
    if |before| > |local| {
      assert |Overlay(before, 0, local)| == |before|;
    }
  }

  function Tail(before: Bytes, n: nat): Bytes {
    if n <= |before| then before[n..] else []
  }

  lemma AppendOverlay(x: Bytes, tail: Bytes, y: Bytes)
    ensures Overlay(x + tail, |x|, y) == x + y + Tail(tail, |y|)
  {
    var whole := x + tail;
    assert whole[..|x|] == x;
    if y == [] {
      assert x + y + tail[0..] == whole;
    } else if |y| <= |tail| {
      assert whole[|x| + |y|..] == tail[|y|..];
    }
  }

  lemma OverlayPiece(before: Bytes, local: Bytes, from: nat, to: nat)
    requires from <= to <= |local|
    ensures Overlay(Overlay(before, 0, local[..from]), from, local[from..to]) == Overlay(before, 0, local[..to])
  {
    UploadKeepsTail(before, local[..from]);
    UploadKeepsTail(before, local[..to]);
    AppendOverlay(local[..from], Tail(before, from), local[from..to]);
    assert local[..from] + local[from..to] == local[..to];
    assert Tail(Tail(before, from), to - from) == Tail(before, to);
  }

  lemma NextPieceCount(from: nat, length: nat)
    requires Boundary(from, length) && 0 < from < length
    ensures Pieces(from + Min(CHUNK, length - from)) == Pieces(from) + 1
  {
  }

  lemma OnePieceCount(length: int)
    requires length >= 0
    ensures Pieces(Min(CHUNK, length)) == 1
  {
  }

  method UpdateOnServer(server: FileServer, serverPath: string, local: Bytes) returns (status: Status)
    requires |local| <= LARGEST
    modifies server
    ensures serverPath !in old(server.disk) ==> status == Failed("EIO") && server.Abs() == old(server.Abs())
    ensures serverPath in old(server.disk) && serverPath in old(server.versions) ==>
              && status == Done
              && server.disk == old(server.disk)[serverPath := Overlay(old(server.disk)[serverPath], 0, local)]
              && server.versions == old(server.versions)[serverPath :=
                                      old(server.versions)[serverPath] + Pieces(|local|)]
    ensures serverPath in old(server.disk) && serverPath !in old(server.versions) ==>
              && status.Failed? && server.versions == old(server.versions)
              && server.disk
                 == old(server.disk)[serverPath := Overlay(old(server.disk)[serverPath], 0, FirstPiece(local))]
  {
    hide Overlay, PieceLength, Pieces;
    NextPiece(0, |local|);
    OnePieceCount(|local|);
    var length := Min(CHUNK, |local|);
    var respond := server.Close(local[..length], 0, serverPath);
    if respond == -1 {
      return Failed("EIO");
    }
    if respond == -2 {
      return Failed("EBADF");
    }
    var rv := respond;
    while rv < |local|
      invariant Boundary(rv, |local|) && (rv == 0 ==> |local| == 0)
      invariant serverPath in old(server.disk) && serverPath in old(server.versions)
      invariant server.disk == old(server.disk)[serverPath := Overlay(old(server.disk)[serverPath], 0, local[..rv])]
      invariant server.versions == old(server.versions)[serverPath :=
                                     old(server.versions)[serverPath] + Pieces(rv)]
    {
      var from := rv;
      NextPiece(from, |local|);
      length := PieceLength(from, |local|);
      OverlayPiece(old(server.disk)[serverPath], local, from, from + length);
      NextPieceCount(from, |local|);
      respond := server.Close(local[from..from + length], from, serverPath);
      if respond == -1 {
        return Failed("EIO");
      }
      rv := rv + respond;
    }
    assert local[..rv] == local;
    return Done;
  }

  method UpdateOnCache(fs: FileSystem, cachePath: string, local: Bytes)
    requires |local| <= LARGEST
    modifies fs
    ensures fs.disk == Written(old(fs.disk), cachePath, 0, local)
  {
    NextPiece(0, |local|);
    var length := Min(CHUNK, |local|);
    fs.Write(cachePath, 0, local[..length]);
    var rv := length;
    while rv < |local|
      invariant Boundary(rv, |local|)
      invariant fs.disk == Written(old(fs.disk), cachePath, 0, local[..rv])
    {
      var from := rv;
      NextPiece(from, |local|);
      length := PieceLength(from, |local|);
      OverlayPiece(Content(old(fs.disk), cachePath), local, from, from + length);
      fs.Write(cachePath, from, local[from..from + length]);
      rv := rv + length;
    }
    assert local[..rv] == local;
  }
}
