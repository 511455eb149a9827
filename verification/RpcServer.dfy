/** The file server's handlers (p1/final/submissions/mysolution11/server.c):
    decode the request, make the call, send the reply. */
module RpcServer {
  import opened Files
  import opened Decimal
  import opened RpcWire

  /** What a system call gives back: a value, with the bytes and position it
      stores through pointers, or an errno. */
  datatype SysResult = Success(value: int, data: Bytes, basep: int) | Failure(errno: int)

  type Errno = e: int | 0 <= e <= MAX_INT

  /** Values within int range, except for file positions; a read stores as many
      bytes as it reports. */
  ghost predicate Behaves(c: Call, r: SysResult) {
    match r
    case Failure(errno) => 0 < errno <= MAX_INT
    case Success(value, data, basep) =>
      && 0 <= value && IsLong(basep)
      && (match c
          case Open(_, _, _) => value + OFFSET <= MAX_INT
          case Read(_, nbytes) => |data| == value <= nbytes && 12 + value <= MAX_INT
          case Entries(_, nbytes, _) => |data| == value <= nbytes && 24 + value <= MAX_INT
          case Lseek(_, _, _) => IsLong(value)
          case _ => value <= MAX_INT)
  }

  /** The call the server makes for a request: descriptors without the offset,
      and a mode only when the file may be created. */
  function Local(c: Call): Call {
    match c
    case Open(path, flags, mode) => Open(path, flags, if Creates(flags) then mode else 0)
    case Close(fd) => Close(fd - OFFSET)
    case Write(fd, data) => Write(fd - OFFSET, data)
    case Lseek(fd, offset, whence) => Lseek(fd - OFFSET, offset, whence)
    case Unlink(path) => Unlink(path)
    case Read(fd, nbytes) => Read(fd - OFFSET, nbytes)
    case Entries(fd, nbytes, basep) => Entries(fd - OFFSET, nbytes, basep)
  }

  /** A kernel that looks at the mode only if a file may be created. */
  ghost predicate ModeOnlyCreates<W(!new)>(sys: (W, Call) -> (W, SysResult)) {
    forall w, path, flags, mode, other ::
      !BitSet(flags, 0x40) ==> sys(w, Open(path, flags, mode)) == sys(w, Open(path, flags, other))
  }

  /** The mode that is sent is the caller's wherever it matters. */
  lemma OpenIsDirect<W(!new)>(sys: (W, Call) -> (W, SysResult), w: W, path: Bytes, flags: int, mode: int)
    requires ModeOnlyCreates(sys)
    ensures sys(w, Local(Open(path, flags, mode))) == sys(w, Open(path, flags, mode))
  {
  }

  /** A long stored in an int. */
  function ToInt(x: int): (n: int)
    requires 0 <= x
    ensures IsInt(n)
    ensures n == x <==> x <= MAX_INT
  {
    (x + 0x8000_0000) % 0x1_0000_0000 - 0x8000_0000
  }

  /** The number a reply carries.  A position that turns negative in the int
      looks like a failure, and is answered with an errno left from before. */
  function Respond(c: Call, r: SysResult, stale: int): int {
    match r
    case Failure(errno) => -errno
    case Success(value, _, _) =>
      if c.Open? then value + OFFSET
      else if c.Lseek? && value >= 0 then
        var n := ToInt(value);
        if n < 0 then -stale else n
      else value
  }

  function ErrnoAfter(errno: Errno, r: SysResult): Errno {
    if r.Failure? && 0 <= r.errno <= MAX_INT then r.errno else errno
  }

  predicate Ascii(s: string) {
    forall i :: 0 <= i < |s| ==> s[i] as int < 128
  }

  function TextBytes(s: string): (b: Bytes)
    requires Ascii(s)
    ensures |b| == |s|
  {
    seq(|s|, i requires 0 <= i < |s| => (s[i] as int) as byte)
  }

  lemma TextAscii(n: int)
    ensures Ascii(Text(n))
  {
    NatTextDigits(if n < 0 then -n else n);
    forall i | 0 <= i < |Text(n)| ensures Text(n)[i] as int < 128 {
      assert Text(n)[i] == '-' || IsDigit(Text(n)[i]);
    }
  }

  lemma {:induction false} NatTextLength(n: nat, digits: nat, limit: nat)
    requires digits > 0 && limit == Pow10(digits) && n < limit
    ensures |NatText(n)| <= digits
  {
    if n >= 10 {
      NatTextLength(n / 10, digits - 1, limit / 10);
    }
  }

  function Pow10(n: nat): nat {
    if n == 0 then 1 else 10 * Pow10(n - 1)
  }

  /** sprintf never leaves the RETURNSIZE buffer: eleven characters and a zero
      are enough for an int. */
  lemma TextFits(n: int)
    requires IsInt(n)
    ensures |Text(n)| < 12 <= RETURNSIZE
  {
    var m := if n < 0 then -n else n;
    assert Pow10(10) == 10_000_000_000 by {
      assert Pow10(5) == 10 * (10 * (10 * (10 * (10 * Pow10(0)))));
      assert Pow10(10) == 10 * (10 * (10 * (10 * (10 * Pow10(5)))));
    }
    NatTextLength(m, 10, Pow10(10));
  }

  /** A scalar reply: the decimal text, ended by the reply or by a zero. */
  ghost predicate ScalarReply(reply: Bytes, n: int) {
    TextAscii(n);
    var text := TextBytes(Text(n));
    text <= reply && (|reply| == |text| || reply[|text|] == 0)
  }

  ghost predicate StructReply(c: Call, r: SysResult, reply: Bytes) {
    && Framed(reply) && |reply| >= 12 && IntAt(reply, 8) == Respond(c, r, 0)
    && (r.Success? && c.Read? ==> reply[12..] == r.data)
    && (r.Success? && c.Entries? ==> |reply| >= 24 && LongAt(reply, 16) == r.basep && reply[24..] == r.data)
  }

  ghost predicate ReplyOk(c: Call, r: SysResult, stale: Errno, reply: Bytes) {
    if c.Read? || c.Entries? then StructReply(c, r, reply) else ScalarReply(reply, Respond(c, r, stale))
  }

  // ----- building replies -----

  method SprintfAndSend(respond: int, whole: bool) returns (reply: Bytes)
    requires IsInt(respond)
    ensures ScalarReply(reply, respond)
  {
    TextAscii(respond);
    TextFits(respond);
    var text := TextBytes(Text(respond));
    var result := new byte[RETURNSIZE];
    PutBytes(result, 0, text + [0]);
    assert result[0..|text| + 1] == text + [0];
    assert result[..|text|] == text && result[|text|] == 0;
    if whole {
      reply := result[..];
      assert reply[..|text|] == text;
    } else {
      reply := result[..|text|];
    }
  }

  method ReadReply(num: int, data: Bytes) returns (reply: Bytes)
    requires IsInt(num) && (if num < 0 then data == [] else |data| == num && 12 + num <= MAX_INT)
    ensures Framed(reply) && |reply| == 12 + |data| && IntAt(reply, 8) == num && reply[12..] == data
  {
    var len := 8 + 4 + |data|;
    var buffer := new byte[len];
    PutInt(buffer, 0, len);
    PutInt(buffer, 4, READ);
    PutInt(buffer, 8, num);
    PutBytes(buffer, 12, data);
    reply := buffer[..];
    assert reply[0..4] == IntBytes(len);
    assert reply[8..12] == IntBytes(num);
    assert reply[12..] == data;
    IntRoundTrip(reply, 0, len);
    IntRoundTrip(reply, 8, num);
  }

  method EntriesReply(num: int, basep: int, data: Bytes) returns (reply: Bytes)
    requires IsInt(num) && IsLong(basep) && (if num < 0 then data == [] else |data| == num && 24 + num <= MAX_INT)
    ensures Framed(reply) && |reply| == 24 + |data| && IntAt(reply, 8) == num && reply[24..] == data
    ensures num >= 0 ==> LongAt(reply, 16) == basep
  {
    var len := 8 + 16 + |data|;
    var buffer := new byte[len];
    PutInt(buffer, 0, len);
    PutInt(buffer, 4, ENTRIES);
    PutInt(buffer, 8, num);
    if num >= 0 {
      PutLong(buffer, 16, basep);
      PutBytes(buffer, 24, data);
    }
    reply := buffer[..];
    assert reply[0..4] == IntBytes(len);
    assert reply[8..12] == IntBytes(num);
    assert reply[24..] == data;
    IntRoundTrip(reply, 0, len);
    IntRoundTrip(reply, 8, num);
    if num >= 0 {
      assert reply[16..24] == LongBytes(basep);
      LongRoundTrip(reply, 16, basep);
    }
  }

  /** The server process: `sys` is the kernel, `world` its files. */
  class Server<W(!new)> {
    const sys: (W, Call) -> (W, SysResult)
    var world: W
    /** Set by a failed call and left alone by others. */
    var errno: Errno

    constructor (sys: (W, Call) -> (W, SysResult), world: W)
      ensures this.sys == sys && this.world == world && errno == 0
    {
      this.sys, this.world, errno := sys, world, 0;
    }

    method Perform(c: Call) returns (r: SysResult)
      requires sys(world, c).1.Failure? ==> 0 < sys(world, c).1.errno <= MAX_INT
      modifies this
      ensures (world, r) == sys(old(world), c) && errno == ErrnoAfter(old(errno), r)
    {
      var result := sys(world, c);
      world, r := result.0, result.1;
      if r.Failure? {
        errno := r.errno;
      }
    }

    method SendOpen(c: Call) returns (reply: Bytes)
      requires c.Open? && Behaves(c, sys(world, Local(c)).1)
      modifies this
      ensures world == sys(old(world), Local(c)).0
      ensures errno == ErrnoAfter(old(errno), sys(old(world), Local(c)).1)
      ensures ReplyOk(c, sys(old(world), Local(c)).1, old(errno), reply)
      ensures ModeOnlyCreates(sys) ==>
                world == sys(old(world), c).0 && ReplyOk(c, sys(old(world), c).1, old(errno), reply)
    {
      var result := Perform(Open(c.path, c.flags, if Creates(c.flags) then c.mode else 0));
      var respond := if result.Success? then result.value + OFFSET else -1 + OFFSET;
      if respond < OFFSET {
        respond := -1 * errno;
      }
      reply := SprintfAndSend(respond, false);
    }

    /** close, write, lseek and unlink: the value or the negated errno. */
    method SendScalar(c: Call) returns (reply: Bytes)
      requires (c.Close? || c.Write? || c.Lseek? || c.Unlink?) && Behaves(c, sys(world, Local(c)).1)
      modifies this
      ensures world == sys(old(world), Local(c)).0
      ensures errno == ErrnoAfter(old(errno), sys(old(world), Local(c)).1)
      ensures ReplyOk(c, sys(old(world), Local(c)).1, old(errno), reply)
    {
      var result := Perform(Local(c));
      var respond := if result.Success? then ToInt(result.value) else -1;
      if respond < 0 {
        respond := -1 * errno;
      }
      reply := SprintfAndSend(respond, c.Lseek?);
    }

    method SendRead(c: Call) returns (reply: Bytes)
      requires c.Read? && Behaves(c, sys(world, Local(c)).1)
      modifies this
      ensures world == sys(old(world), Local(c)).0
      ensures errno == ErrnoAfter(old(errno), sys(old(world), Local(c)).1)
      ensures ReplyOk(c, sys(old(world), Local(c)).1, old(errno), reply)
    {
      var result := Perform(Local(c));
      if result.Failure? {
        reply := ReadReply(-1 * errno, []);
      } else {
        reply := ReadReply(result.value, result.data);
      }
    }

    method SendEntries(c: Call) returns (reply: Bytes)
      requires c.Entries? && Behaves(c, sys(world, Local(c)).1)
      modifies this
      ensures world == sys(old(world), Local(c)).0
      ensures errno == ErrnoAfter(old(errno), sys(old(world), Local(c)).1)
      ensures ReplyOk(c, sys(old(world), Local(c)).1, old(errno), reply)
    {
      var result := Perform(Local(c));
      if result.Failure? {
        reply := EntriesReply(-1 * errno, 0, []);
      } else {
        reply := EntriesReply(result.value, result.basep, result.data);
      }
    }

    /** send_RPC: the opcode picks the handler. */
    method SendRPC(message: Bytes) returns (reply: Bytes)
      requires Decode(message).Some?
      requires Behaves(Decode(message).value, sys(world, Local(Decode(message).value)).1)
      modifies this
      ensures var c := Decode(message).value;
              && world == sys(old(world), Local(c)).0
              && errno == ErrnoAfter(old(errno), sys(old(world), Local(c)).1)
              && ReplyOk(c, sys(old(world), Local(c)).1, old(errno), reply)
    {
      var c := Decode(message).value;
      if c.Open? {
        reply := SendOpen(c);
      } else if c.Read? {
        reply := SendRead(c);
      } else if c.Entries? {
        reply := SendEntries(c);
      } else {
        reply := SendScalar(c);
      }
    }
  }
}
