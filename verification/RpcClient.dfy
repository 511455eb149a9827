/** The interposed library (p1/final/submissions/mysolution11/mylib.c): each
    call, forwarded over any segmentation of the stream, has the effect and the
    result of the call made directly. */
module RpcClient {
  import opened Files
  import opened Decimal
  import opened RpcWire
  import opened RpcMarshal
  import opened RpcFraming
  import opened RpcServer

  function Chars(b: Bytes): string {
    seq(|b|, i requires 0 <= i < |b| => b[i] as int as char)
  }

  /** atoi on a reply followed by a zero and whatever the buffer held before. */
  lemma AtoiReply(reply: Bytes, n: int, junk: string)
    requires ScalarReply(reply, n)
    ensures Atoi(Chars(reply) + "\0" + junk) == n
  {
    TextAscii(n);
    var text := TextBytes(Text(n));
    var all := Chars(reply) + "\0" + junk;
    assert all[..|text|] == Text(n) by {
      forall i | 0 <= i < |text| ensures all[i] == Text(n)[i] {
        assert text[i] == reply[i];
      }
    }
    assert all == Text(n) + all[|text|..];
    assert all[|text|] == '\0';
    AtoiText(n, all[|text|..]);
  }

  /** Without the zero, the number read is the one sent exactly when the bytes
      left over do not start with a digit; after a reply of 0, leading zeros do
      no harm either. */
  lemma StaleDigit(n: int, junk: string)
    ensures Atoi(Text(n) + junk) == n <==>
              if n == 0 then Leading(junk, 0) == 0 else junk == [] || !IsDigit(junk[0])
  {
    hide Atoi, Text;
    AtoiContinues(n, junk);
    if n != 0 {
      LeadingGrows(junk, if n < 0 then -n else n);
    }
  }

  /** atoi goes on with the digits it finds behind the number. */
  lemma AtoiContinues(n: int, junk: string)
    ensures Atoi(Text(n) + junk) == if n < 0 then 0 - Leading(junk, -n) else Leading(junk, n)
  {
    hide NatText, Leading;
    var m := if n < 0 then -n else n;
    NatTextDigits(m);
    NatTextValue(m);
    LeadingConcat(NatText(m), junk, 0);
    if n < 0 {
      assert (Text(n) + junk)[1..] == NatText(m) + junk;
    } else {
      assert (NatText(m) + junk)[0] == NatText(m)[0] && NatText(m)[0] in NatText(m);
    }
  }

  lemma {:induction false} LeadingGrows(s: string, acc: nat)
    requires acc > 0
    ensures Leading(s, acc) >= acc
    ensures Leading(s, acc) > acc <==> s != [] && IsDigit(s[0])
  {
    if s != [] && IsDigit(s[0]) {
      LeadingGrows(s[1..], 10 * acc + DigitValue(s[0]));
    }
  }

  /** What a caller of the direct call sees: the value, or -1 with errno. */
  ghost predicate Returns(r: SysResult, shift: int, result: int, errno0: int, errno: int) {
    match r
    case Success(value, _, _) => result == value + shift && errno == errno0
    case Failure(e) => result == -1 && errno == e
  }

  /** How the library turns the number in a reply into a result. */
  ghost predicate Answered(n: int, result: int, errno0: int, errno: int) {
    if n < 0 then result == -1 && errno == -n else result == n && errno == errno0
  }

  class Client<W(!new)> {
    const server: Server<W>

    /** How the stream is cut into pieces, and what an old buffer holds. */
    const cut: Bytes -> seq<Bytes>
    const junk: string

    /** The original libc calls on this machine's own files. */
    const orig: (W, Call) -> (W, SysResult)
    var own: W
    var errno: int

    ghost predicate Streams()
    {
      forall m :: Framed(m) ==> Pieces(m, cut(m))
    }

    constructor (server: Server<W>, cut: Bytes -> seq<Bytes>, junk: string, orig: (W, Call) -> (W, SysResult), own: W)
      requires forall m :: Framed(m) ==> Pieces(m, cut(m))
      ensures Streams() && this.server == server && this.orig == orig && this.own == own && errno == 0
    {
      this.server, this.cut, this.junk, this.orig, this.own, errno := server, cut, junk, orig, own, 0;
    }

    /** A descriptor below OFFSET belongs to this machine. */
    method Original(c: Call) returns (result: int, data: Bytes, basep: int)
      modifies this
      ensures var r := orig(old(own), c);
              && own == r.0 && Returns(r.1, 0, result, old(errno), errno)
              && (r.1.Success? ==> data == r.1.data && basep == r.1.basep)
    {
      var r := orig(own, c);
      own := r.0;
      if r.1.Failure? {
        errno := r.1.errno;
        return -1, [], 0;
      }
      return r.1.value, r.1.data, r.1.basep;
    }

    /** Sends a request through the stream and lets the server answer it. */
    method Forward(request: Bytes) returns (reply: Bytes)
      requires Streams() && Framed(request) && Decode(request).Some?
      requires Behaves(Decode(request).value, server.sys(server.world, Local(Decode(request).value)).1)
      modifies server
      ensures var c := Decode(request).value;
              && server.world == server.sys(old(server.world), Local(c)).0
              && server.errno == ErrnoAfter(old(server.errno), server.sys(old(server.world), Local(c)).1)
              && ReplyOk(c, server.sys(old(server.world), Local(c)).1, old(server.errno), reply)
    {
      var pieces := cut(request);
      assert Concat([pieces]) == pieces + Concat([pieces][1..]);
      var dispatched := Receiving(pieces, [request], [pieces]);
      reply := server.SendRPC(dispatched[0]);
    }

    /** open, close, write, lseek and unlink: one number comes back. */
    method ScalarCall(request: Bytes) returns (result: int)
      requires Streams() && Framed(request) && Decode(request).Some?
      requires !Decode(request).value.Read? && !Decode(request).value.Entries?
      requires Behaves(Decode(request).value, server.sys(server.world, Local(Decode(request).value)).1)
      modifies this`errno, server
      ensures var c := Decode(request).value;
              var r := server.sys(old(server.world), Local(c));
              && server.world == r.0
              && Answered(Respond(c, r.1, old(server.errno)), result, old(errno), errno)
    {
      ghost var c := Decode(request).value;
      ghost var respond := Respond(c, server.sys(server.world, Local(c)).1, server.errno);
      var reply := Forward(request);
      AtoiReply(reply, respond, junk);
      result := Atoi(Chars(reply) + "\0" + junk);
      if result < 0 {
        errno := result * -1;
        return -1;
      }
    }

    /** The caller's mode travels if the flags ask for a new file; a kernel that
        looks at it only then answers as it would answer the caller. */
    method Open(path: Bytes, flags: int, mode: int) returns (result: int)
      requires Streams() && IsCString(path) && |path| + 21 <= MAX_INT && IsInt(flags) && IsUInt(mode)
      requires var c := RpcWire.Open(path, flags, if BitSet(flags, 0x40) then mode else 0);
               Behaves(c, server.sys(server.world, c).1)
      modifies this`errno, server
      ensures var c := RpcWire.Open(path, flags, if BitSet(flags, 0x40) then mode else 0);
              var r := server.sys(old(server.world), c);
              server.world == r.0 && Returns(r.1, OFFSET, result, old(errno), errno)
      ensures ModeOnlyCreates(server.sys) ==>
                var r := server.sys(old(server.world), RpcWire.Open(path, flags, mode));
                server.world == r.0 && Returns(r.1, OFFSET, result, old(errno), errno)
    {
      var m := if Creates(flags) then mode else 0;
      var request := MarshallOpen(path, flags, m);
      result := ScalarCall(request);
    }

    method Close(fd: int) returns (result: int)
      requires Streams() && IsInt(fd)
      requires fd >= OFFSET ==> Behaves(RpcWire.Close(fd), server.sys(server.world, RpcWire.Close(fd - OFFSET)).1)
      modifies this, server
      ensures if fd < 0 then result == -1 && errno == EBADF && own == old(own) && server.world == old(server.world)
              else if fd < OFFSET then
                var r := orig(old(own), RpcWire.Close(fd));
                && own == r.0 && server.world == old(server.world) && Returns(r.1, 0, result, old(errno), errno)
              else
                var r := server.sys(old(server.world), RpcWire.Close(fd - OFFSET));
                && server.world == r.0 && own == old(own) && Returns(r.1, 0, result, old(errno), errno)
    {
      if fd < 0 {
        errno := EBADF;
        return -1;
      }
      if fd < OFFSET {
        var data, basep;
        result, data, basep := Original(RpcWire.Close(fd));
        return;
      }
      var request := MarshallClose(fd);
      result := ScalarCall(request);
    }

    method Write(fd: int, data: Bytes) returns (result: int)
      requires Streams() && IsInt(fd) && |data| + 24 <= MAX_INT
      requires fd >= OFFSET ==>
                 Behaves(RpcWire.Write(fd, data), server.sys(server.world, RpcWire.Write(fd - OFFSET, data)).1)
      modifies this, server
      ensures if fd < 0 then result == -1 && errno == EBADF && own == old(own) && server.world == old(server.world)
              else if fd < OFFSET then
                var r := orig(old(own), RpcWire.Write(fd, data));
                && own == r.0 && server.world == old(server.world) && Returns(r.1, 0, result, old(errno), errno)
              else
                var r := server.sys(old(server.world), RpcWire.Write(fd - OFFSET, data));
                && server.world == r.0 && own == old(own) && Returns(r.1, 0, result, old(errno), errno)
    {
      if fd < 0 {
        errno := EBADF;
        return -1;
      }
      if fd < OFFSET {
        var bytes, basep;
        result, bytes, basep := Original(RpcWire.Write(fd, data));
        return;
      }
      var request := MarshallWrite(fd, data);
      result := ScalarCall(request);
    }

    method Lseek(fd: int, offset: int, whence: int) returns (result: int)
      requires Streams() && IsInt(fd) && IsLong(offset) && IsInt(whence)
      requires fd >= OFFSET ==>
                 Behaves(RpcWire.Lseek(fd, offset, whence),
                         server.sys(server.world, RpcWire.Lseek(fd - OFFSET, offset, whence)).1)
      modifies this, server
      ensures if fd < 0 then result == -1 && errno == EBADF && own == old(own) && server.world == old(server.world)
              else if fd < OFFSET then
                var r := orig(old(own), RpcWire.Lseek(fd, offset, whence));
                && own == r.0 && server.world == old(server.world) && Returns(r.1, 0, result, old(errno), errno)
              else
                var r := server.sys(old(server.world), RpcWire.Lseek(fd - OFFSET, offset, whence));
                && server.world == r.0 && own == old(own)
                && (r.1.Failure? || r.1.value <= MAX_INT ==> Returns(r.1, 0, result, old(errno), errno))
                && (r.1.Success? && r.1.value > MAX_INT ==>
                      && result != r.1.value
                      && Answered(Respond(RpcWire.Lseek(fd, offset, whence), r.1, old(server.errno)),
                                  result, old(errno), errno))
    {
      if fd < 0 {
        errno := EBADF;
        return -1;
      }
      if fd < OFFSET {
        var bytes, basep;
        result, bytes, basep := Original(RpcWire.Lseek(fd, offset, whence));
        return;
      }
      var request := MarshallLseek(fd, offset, whence);
      result := ScalarCall(request);
    }

    method Unlink(path: Bytes) returns (result: int)
      requires Streams() && IsCString(path) && |path| + 13 <= MAX_INT
      requires Behaves(RpcWire.Unlink(path), server.sys(server.world, RpcWire.Unlink(path)).1)
      modifies this`errno, server
      ensures var r := server.sys(old(server.world), RpcWire.Unlink(path));
              server.world == r.0 && Returns(r.1, 0, result, old(errno), errno)
    {
      var request := MarshallUnlink(path);
      result := ScalarCall(request);
    }

    /** Reassembles the reply to a read or getdirentries. */
    method StructCall(request: Bytes) returns (data: Bytes)
      requires Streams() && Framed(request) && Decode(request).Some?
      requires Decode(request).value.Read? || Decode(request).value.Entries?
      requires Behaves(Decode(request).value, server.sys(server.world, Local(Decode(request).value)).1)
      modifies server
      ensures var c := Decode(request).value;
              var r := server.sys(old(server.world), Local(c));
              server.world == r.0 && StructReply(c, r.1, data)
    {
      var reply := Forward(request);
      var used;
      data, used := ReceiveOne(cut(reply), reply, cut(reply));
    }

    method Read(fd: int, buf: array<byte>, nbytes: int) returns (result: int)
      requires Streams() && IsInt(fd) && IsSize(nbytes) && nbytes <= buf.Length
      requires fd >= OFFSET ==>
                 Behaves(RpcWire.Read(fd, nbytes), server.sys(server.world, RpcWire.Read(fd - OFFSET, nbytes)).1)
      requires 0 <= fd < OFFSET ==> Behaves(RpcWire.Read(fd, nbytes), orig(own, RpcWire.Read(fd, nbytes)).1)
      modifies this, server, buf
      ensures if fd < 0 then
                && result == -1 && errno == EBADF && own == old(own) && server.world == old(server.world)
                && buf[..] == old(buf[..])
              else if fd < OFFSET then
                var r := orig(old(own), RpcWire.Read(fd, nbytes));
                && own == r.0 && server.world == old(server.world) && Returns(r.1, 0, result, old(errno), errno)
                && buf[..] == Filled(old(buf[..]), r.1)
              else
                var r := server.sys(old(server.world), RpcWire.Read(fd - OFFSET, nbytes));
                && server.world == r.0 && own == old(own) && Returns(r.1, 0, result, old(errno), errno)
                && buf[..] == Filled(old(buf[..]), r.1)
    {
      if fd < 0 {
        errno := EBADF;
        return -1;
      }
      if fd < OFFSET {
        var bytes, basep;
        result, bytes, basep := Original(RpcWire.Read(fd, nbytes));
        if result >= 0 {
          Memcpy(buf, 0, bytes);
        }
        return;
      }
      result := RemoteRead(fd, buf, nbytes);
    }

    method RemoteRead(fd: int, buf: array<byte>, nbytes: int) returns (result: int)
      requires Streams() && OFFSET <= fd && IsInt(fd) && IsSize(nbytes) && nbytes <= buf.Length
      requires Behaves(RpcWire.Read(fd, nbytes), server.sys(server.world, RpcWire.Read(fd - OFFSET, nbytes)).1)
      modifies this`errno, server, buf
      ensures var r := server.sys(old(server.world), RpcWire.Read(fd - OFFSET, nbytes));
              && server.world == r.0 && Returns(r.1, 0, result, old(errno), errno)
              && buf[..] == Filled(old(buf[..]), r.1)
    {
      hide IntAt, LongAt, ToInt, Decode;
      var request := MarshallRead(fd, nbytes);
      var data := StructCall(request);
      result := IntAt(data, 8);
      if result < 0 {
        errno := -1 * result;
        return -1;
      }
      Memcpy(buf, 0, data[12..]);
    }

    method Getdirentries(fd: int, buf: array<byte>, nbytes: int, basep: int) returns (result: int, basep': int)
      requires Streams() && IsInt(fd) && IsSize(nbytes) && IsLong(basep) && nbytes <= buf.Length
      requires fd >= OFFSET ==>
                 Behaves(Entries(fd, nbytes, basep), server.sys(server.world, Entries(fd - OFFSET, nbytes, basep)).1)
      requires 0 <= fd < OFFSET ==> Behaves(Entries(fd, nbytes, basep), orig(own, Entries(fd, nbytes, basep)).1)
      modifies this, server, buf
      ensures if fd < 0 then
                && result == -1 && errno == EBADF && own == old(own) && server.world == old(server.world)
                && buf[..] == old(buf[..]) && basep' == basep
              else if fd < OFFSET then
                var r := orig(old(own), Entries(fd, nbytes, basep));
                && own == r.0 && server.world == old(server.world) && Returns(r.1, 0, result, old(errno), errno)
                && buf[..] == Filled(old(buf[..]), r.1) && basep' == Moved(basep, r.1)
              else
                var r := server.sys(old(server.world), Entries(fd - OFFSET, nbytes, basep));
                && server.world == r.0 && own == old(own) && Returns(r.1, 0, result, old(errno), errno)
                && buf[..] == Filled(old(buf[..]), r.1) && basep' == Moved(basep, r.1)
    {
      basep' := basep;
      if fd < 0 {
        errno := EBADF;
        return -1, basep';
      }
      if fd < OFFSET {
        var bytes, moved;
        result, bytes, moved := Original(Entries(fd, nbytes, basep));
        if result >= 0 {
          Memcpy(buf, 0, bytes);
          basep' := moved;
        }
        return;
      }
      result, basep' := RemoteEntries(fd, buf, nbytes, basep);
    }

    method RemoteEntries(fd: int, buf: array<byte>, nbytes: int, basep: int) returns (result: int, basep': int)
      requires Streams() && OFFSET <= fd && IsInt(fd) && IsSize(nbytes) && IsLong(basep) && nbytes <= buf.Length
      requires Behaves(Entries(fd, nbytes, basep), server.sys(server.world, Entries(fd - OFFSET, nbytes, basep)).1)
      modifies this`errno, server, buf
      ensures var r := server.sys(old(server.world), Entries(fd - OFFSET, nbytes, basep));
              && server.world == r.0 && Returns(r.1, 0, result, old(errno), errno)
              && buf[..] == Filled(old(buf[..]), r.1) && basep' == Moved(basep, r.1)
    {
      hide IntAt, LongAt, ToInt, Decode;
      var request := MarshallEntries(fd, nbytes, basep);
      var data := StructCall(request);
      result := IntAt(data, 8);
      if result < 0 {
        errno := -1 * result;
        return -1, basep;
      }
      basep' := LongAt(data, 16);
      Memcpy(buf, 0, data[24..]);
    }
  }

  /** The caller's buffer after a read: overwritten as far as data came back. */
  ghost function Filled(before: Bytes, r: SysResult): Bytes {
    if r.Failure? || |r.data| > |before| then before else r.data + before[|r.data|..]
  }

  ghost function Moved(basep: int, r: SysResult): int {
    if r.Failure? then basep else r.basep
  }
}
