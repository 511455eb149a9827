/** The client's marshalling (p1/final/submissions/mysolution11/mylib.c): each
    request is filled into a fresh buffer, whose padding stays as it was, and
    the server reads back the call that was meant. */
module RpcMarshal {
  import opened Files
  import opened RpcWire

  method Header(buffer: array<byte>, opcode: int)
    requires 8 <= buffer.Length <= MAX_INT && IsInt(opcode)
    modifies buffer
    ensures Framed(buffer[..]) && IntAt(buffer[..], 4) == opcode
    ensures forall k :: 8 <= k < buffer.Length ==> buffer[k] == old(buffer[k])
  {
    PutInt(buffer, 0, buffer.Length);
    PutInt(buffer, 4, opcode);
    assert buffer[..][0..4] == buffer[0..4] == IntBytes(buffer.Length);
    assert buffer[..][4..8] == buffer[4..8];
    IntRoundTrip(buffer[..], 0, buffer.Length);
    IntRoundTrip(buffer[..], 4, opcode);
  }

  /** A header read back from a buffer whose first 8 bytes have not changed. */
  lemma HeaderKept(m: Bytes, m': Bytes)
    requires |m| == |m'| >= 8 && forall k :: 0 <= k < 8 ==> m[k] == m'[k]
    ensures IntAt(m, 0) == IntAt(m', 0) && IntAt(m, 4) == IntAt(m', 4)
  {
    assert m[0..4] == m'[0..4];
    assert m[4..8] == m'[4..8];
  }

  method MarshallOpen(path: Bytes, flags: int, mode: int) returns (m: Bytes)
    requires IsCString(path) && |path| + 21 <= MAX_INT && IsInt(flags) && IsUInt(mode)
    ensures Framed(m) && Decode(m) == Some(Open(path, flags, mode))
  {
    var total := 8 + 12 + |path| + 1;
    var buffer := new byte[total];
    Header(buffer, OPEN);
    ghost var h := buffer[..];
    PutInt(buffer, 16, |path| + 1);
    PutInt(buffer, 8, flags);
    PutInt(buffer, 12, mode);
    PutBytes(buffer, 20, path + [0]);
    m := buffer[..];
    HeaderKept(h, m);
    assert m[8..12] == IntBytes(flags);
    assert m[12..16] == IntBytes(mode);
    assert m[16..20] == IntBytes(|path| + 1);
    assert m[20..20 + |path| + 1] == path + [0];
    IntRoundTrip(m, 8, flags);
    IntRoundTrip(m, 12, mode);
    IntRoundTrip(m, 16, |path| + 1);
    CStringTerminated(path);
  }

  method MarshallClose(fd: int) returns (m: Bytes)
    requires IsInt(fd)
    ensures Framed(m) && Decode(m) == Some(Close(fd))
  {
    var buffer := new byte[8 + 4];
    Header(buffer, CLOSE);
    ghost var h := buffer[..];
    PutInt(buffer, 8, fd);
    m := buffer[..];
    HeaderKept(h, m);
    assert m[8..12] == IntBytes(fd);
    IntRoundTrip(m, 8, fd);
  }

  method MarshallWrite(fd: int, data: Bytes) returns (m: Bytes)
    requires IsInt(fd) && |data| + 24 <= MAX_INT
    ensures Framed(m) && Decode(m) == Some(Write(fd, data))
  {
    var buffer := new byte[8 + 16 + |data|];
    Header(buffer, WRITE);
    ghost var h := buffer[..];
    PutInt(buffer, 8, fd);
    PutLong(buffer, 16, |data|);
    PutBytes(buffer, 24, data);
    m := buffer[..];
    HeaderKept(h, m);
    assert m[8..12] == IntBytes(fd);
    assert m[16..24] == LongBytes(|data|);
    assert m[24..24 + |data|] == data;
    IntRoundTrip(m, 8, fd);
    LongRoundTrip(m, 16, |data|);
  }

  method MarshallLseek(fd: int, offset: int, whence: int) returns (m: Bytes)
    requires IsInt(fd) && IsLong(offset) && IsInt(whence)
    ensures Framed(m) && Decode(m) == Some(Lseek(fd, offset, whence))
  {
    var buffer := new byte[8 + 24];
    Header(buffer, LSEEK);
    ghost var h := buffer[..];
    PutInt(buffer, 8, fd);
    PutLong(buffer, 16, offset);
    PutInt(buffer, 24, whence);
    m := buffer[..];
    HeaderKept(h, m);
    assert m[8..12] == IntBytes(fd);
    assert m[16..24] == LongBytes(offset);
    assert m[24..28] == IntBytes(whence);
    IntRoundTrip(m, 8, fd);
    LongRoundTrip(m, 16, offset);
    IntRoundTrip(m, 24, whence);
  }

  method MarshallUnlink(path: Bytes) returns (m: Bytes)
    requires IsCString(path) && |path| + 13 <= MAX_INT
    ensures Framed(m) && Decode(m) == Some(Unlink(path))
  {
    var buffer := new byte[8 + 4 + |path| + 1];
    Header(buffer, UNLINK);
    ghost var h := buffer[..];
    PutInt(buffer, 8, |path| + 1);
    PutBytes(buffer, 12, path + [0]);
    m := buffer[..];
    HeaderKept(h, m);
    assert m[8..12] == IntBytes(|path| + 1);
    assert m[12..12 + |path| + 1] == path + [0];
    IntRoundTrip(m, 8, |path| + 1);
    CStringTerminated(path);
  }

  method MarshallRead(fd: int, nbytes: int) returns (m: Bytes)
    requires IsInt(fd) && IsSize(nbytes)
    ensures Framed(m) && Decode(m) == Some(Read(fd, nbytes))
  {
    var buffer := new byte[8 + 16];
    Header(buffer, READ);
    ghost var h := buffer[..];
    PutInt(buffer, 8, fd);
    PutLong(buffer, 16, nbytes);
    m := buffer[..];
    HeaderKept(h, m);
    assert m[8..12] == IntBytes(fd);
    assert m[16..24] == LongBytes(nbytes);
    IntRoundTrip(m, 8, fd);
    LongRoundTrip(m, 16, nbytes);
  }

  method MarshallEntries(fd: int, nbytes: int, basep: int) returns (m: Bytes)
    requires IsInt(fd) && IsSize(nbytes) && IsLong(basep)
    ensures Framed(m) && Decode(m) == Some(Entries(fd, nbytes, basep))
  {
    var buffer := new byte[8 + 24];
    Header(buffer, ENTRIES);
    ghost var h := buffer[..];
    PutInt(buffer, 8, fd);
    PutLong(buffer, 16, nbytes);
    PutLong(buffer, 24, basep);
    m := buffer[..];
    HeaderKept(h, m);
    assert m[8..12] == IntBytes(fd);
    assert m[16..24] == LongBytes(nbytes);
    assert m[24..32] == LongBytes(basep);
    IntRoundTrip(m, 8, fd);
    LongRoundTrip(m, 16, nbytes);
    LongRoundTrip(m, 24, basep);
  }
}
