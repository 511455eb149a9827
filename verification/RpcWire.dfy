/** The wire format of the file RPC: message layouts, opcodes and constants of
    p1/final/submissions/mysolution11/RPC.h, as bytes on a little-endian
    64-bit machine. */
module RpcWire {
  import opened Files

  const OPEN := 0
  const CLOSE := 1
  const WRITE := 2
  const LSEEK := 3
  const UNLINK := 4
  const READ := 6
  const ENTRIES := 7

  const OFFSET := 2400
  const MAXMSGLEN := 100
  const RETURNSIZE := 15

  const MAX_INT := 0x7fff_ffff
  const EBADF := 9

  /** A forwarded call, with the descriptor the client or the server uses. */
  datatype Call =
    | Open(path: Bytes, flags: int, mode: int)
    | Close(fd: int)
    | Write(fd: int, data: Bytes)
    | Lseek(fd: int, offset: int, whence: int)
    | Unlink(path: Bytes)
    | Read(fd: int, nbytes: int)
    | Entries(fd: int, nbytes: int, basep: int)

  datatype Option<T> = None | Some(value: T)

  // ----- integers as bytes -----

  function Pow256(n: nat): nat {
    if n == 0 then 1 else 256 * Pow256(n - 1)
  }

  function LowBytes(x: nat, n: nat): (b: Bytes)
    ensures |b| == n
  {
    if n == 0 then [] else [(x % 256) as byte] + LowBytes(x / 256, n - 1)
  }

  function Value(b: Bytes): nat {
    if b == [] then 0 else b[0] as int + 256 * Value(b[1..])
  }

  lemma {:induction false} LowBytesValue(x: nat, n: nat)
    requires x < Pow256(n)
    ensures Value(LowBytes(x, n)) == x
  {
    if n > 0 {
      LowBytesValue(x / 256, n - 1);
      assert LowBytes(x, n)[1..] == LowBytes(x / 256, n - 1);
    }
  }

  lemma Sizes()
    ensures Pow256(4) == 0x1_0000_0000 && Pow256(8) == 0x1_0000_0000_0000_0000
  {
    assert Pow256(1) == 256 && Pow256(2) == 256 * 256 && Pow256(3) == 256 * 256 * 256;
    assert Pow256(4) == 256 * 256 * 256 * 256;
    assert Pow256(5) == 256 * Pow256(4) && Pow256(6) == 256 * Pow256(5) && Pow256(7) == 256 * Pow256(6);
  }

  predicate IsInt(x: int) {
    -0x8000_0000 <= x < 0x8000_0000
  }

  predicate IsUInt(x: int) {
    0 <= x < 0x1_0000_0000
  }

  predicate IsLong(x: int) {
    -0x8000_0000_0000_0000 <= x < 0x8000_0000_0000_0000
  }

  predicate IsSize(x: int) {
    0 <= x < 0x1_0000_0000_0000_0000
  }

  /** Two's complement in 4 and in 8 bytes. */
  function IntBytes(x: int): (b: Bytes)
    requires IsInt(x) || IsUInt(x)
    ensures |b| == 4
  {
    LowBytes(if x < 0 then x + 0x1_0000_0000 else x, 4)
  }

  function LongBytes(x: int): (b: Bytes)
    requires IsLong(x) || IsSize(x)
    ensures |b| == 8
  {
    LowBytes(if x < 0 then x + 0x1_0000_0000_0000_0000 else x, 8)
  }

  function UIntAt(b: Bytes, at: nat): int
    requires at + 4 <= |b|
  {
    Value(b[at..at + 4])
  }

  function IntAt(b: Bytes, at: nat): int
    requires at + 4 <= |b|
  {
    var v := UIntAt(b, at);
    if v < 0x8000_0000 then v else v - 0x1_0000_0000
  }

  function SizeAt(b: Bytes, at: nat): int
    requires at + 8 <= |b|
  {
    Value(b[at..at + 8])
  }

  function LongAt(b: Bytes, at: nat): int
    requires at + 8 <= |b|
  {
    var v := SizeAt(b, at);
    if v < 0x8000_0000_0000_0000 then v else v - 0x1_0000_0000_0000_0000
  }

  lemma IntRoundTrip(b: Bytes, at: nat, x: int)
    requires at + 4 <= |b| && (IsInt(x) || IsUInt(x)) && b[at..at + 4] == IntBytes(x)
    ensures IsInt(x) ==> IntAt(b, at) == x
    ensures IsUInt(x) ==> UIntAt(b, at) == x
  {
    Sizes();
    LowBytesValue(if x < 0 then x + 0x1_0000_0000 else x, 4);
  }

  lemma LongRoundTrip(b: Bytes, at: nat, x: int)
    requires at + 8 <= |b| && (IsLong(x) || IsSize(x)) && b[at..at + 8] == LongBytes(x)
    ensures IsLong(x) ==> LongAt(b, at) == x
    ensures IsSize(x) ==> SizeAt(b, at) == x
  {
    Sizes();
    LowBytesValue(if x < 0 then x + 0x1_0000_0000_0000_0000 else x, 8);
  }

  // ----- reading a request through the structs -----

  /** A C string: the bytes before the first zero. */
  function CString(b: Bytes): Option<Bytes> {
    if b == [] then None
    else if b[0] == 0 then Some([])
    else
      match CString(b[1..])
      case None => None
      case Some(rest) => Some([b[0]] + rest)
  }

  predicate IsCString(path: Bytes) {
    forall i :: 0 <= i < |path| ==> path[i] != 0
  }

  lemma {:induction false} CStringTerminated(path: Bytes)
    requires IsCString(path)
    ensures CString(path + [0]) == Some(path)
  {
    if path == [] {
      assert path + [0] == [0];
    } else {
      assert (path + [0])[1..] == path[1..] + [0];
      CStringTerminated(path[1..]);
      assert [path[0]] + path[1..] == path;
    }
  }

  /** O_CREAT is 0100 octal. */
  const O_CREAT := 64

  /** A number whose binary digit of this weight is 1. */
  function WithBit(above: int, bit: nat, below: nat): int {
    above * (2 * bit) + bit + below
  }

  /** That digit of the flags, in two's complement, is 1. */
  ghost predicate BitSet(flags: int, bit: nat) {
    exists above, below :: 0 <= below < bit && flags == WithBit(above, bit, below)
  }

  /** The test of `flags & O_CREAT`. */
  predicate Creates(flags: int)
    ensures Creates(flags) <==> BitSet(flags, O_CREAT)
  {
    BitExact(flags);
    (flags / 64) % 2 == 1
  }

  lemma BitExact(flags: int)
    ensures (flags / 64) % 2 == 1 <==> BitSet(flags, O_CREAT)
  {
    assert flags == (flags / 128) * 128 + ((flags / 64) % 2) * 64 + flags % 64;
    if (flags / 64) % 2 == 1 {
      assert flags == WithBit(flags / 128, O_CREAT, flags % 64);
    } else {
      forall above, below | 0 <= below < O_CREAT ensures flags != WithBit(above, O_CREAT, below) {
      }
    }
  }

  /** What the server's handlers read out of a message; None where the source
      would read past its end. */
  function Decode(m: Bytes): Option<Call> {
    if |m| < 8 then None
    else
      var opcode := IntAt(m, 4);
      if opcode == OPEN then DecodeOpen(m)
      else if opcode == CLOSE then if |m| < 12 then None else Some(Close(IntAt(m, 8)))
      else if opcode == WRITE then
        if |m| < 24 || SizeAt(m, 16) > |m| - 24 then None
        else Some(Write(IntAt(m, 8), m[24..24 + SizeAt(m, 16)]))
      else if opcode == LSEEK then
        if |m| < 32 then None else Some(Lseek(IntAt(m, 8), LongAt(m, 16), IntAt(m, 24)))
      else if opcode == UNLINK then
        if |m| < 12 || !(0 <= IntAt(m, 8) <= |m| - 12) then None
        else
          match CString(m[12..12 + IntAt(m, 8)])
          case None => None
          case Some(path) => Some(Unlink(path))
      else if opcode == READ then
        if |m| < 24 then None else Some(Read(IntAt(m, 8), SizeAt(m, 16)))
      else if opcode == ENTRIES then
        if |m| < 32 then None else Some(Entries(IntAt(m, 8), SizeAt(m, 16), LongAt(m, 24)))
      else None
  }

  function DecodeOpen(m: Bytes): Option<Call>
    requires |m| >= 8
  {
    if |m| < 20 || !(0 <= IntAt(m, 16) <= |m| - 20) then None
    else
      match CString(m[20..20 + IntAt(m, 16)])
      case None => None
      case Some(path) => Some(Open(path, IntAt(m, 8), UIntAt(m, 12)))
  }

  /** A complete message: it is as long as its size field says. */
  ghost predicate Framed(m: Bytes) {
    |m| >= 8 && IntAt(m, 0) == |m|
  }

  // ----- buffers -----

  /** memcpy into a buffer, within its bounds. */
  method Memcpy(a: array<byte>, at: nat, data: Bytes)
    requires at + |data| <= a.Length
    modifies a
    ensures a[..] == old(a[..at]) + data + old(a[at + |data|..])
  {
    for i := 0 to |data|
      invariant forall k :: 0 <= k < a.Length ==>
                  a[k] == if at <= k < at + i then data[k - at] else old(a[k])
    {
      a[at + i] := data[i];
    }
  }

  method PutInt(a: array<byte>, at: nat, x: int)
    requires at + 4 <= a.Length && (IsInt(x) || IsUInt(x))
    modifies a
    ensures a[at..at + 4] == IntBytes(x)
    ensures forall k :: 0 <= k < a.Length && !(at <= k < at + 4) ==> a[k] == old(a[k])
  {
    Memcpy(a, at, IntBytes(x));
  }

  method PutLong(a: array<byte>, at: nat, x: int)
    requires at + 8 <= a.Length && (IsLong(x) || IsSize(x))
    modifies a
    ensures a[at..at + 8] == LongBytes(x)
    ensures forall k :: 0 <= k < a.Length && !(at <= k < at + 8) ==> a[k] == old(a[k])
  {
    Memcpy(a, at, LongBytes(x));
  }

  method PutBytes(a: array<byte>, at: nat, data: Bytes)
    requires at + |data| <= a.Length
    modifies a
    ensures a[at..at + |data|] == data
    ensures forall k :: 0 <= k < a.Length && !(at <= k < at + |data|) ==> a[k] == old(a[k])
  {
    Memcpy(a, at, data);
  }
}
