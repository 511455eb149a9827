/** Reassembling messages from the pieces a stream socket delivers
    (p1/final/submissions/mysolution11/server.c). */
module RpcFraming {
  import opened Files
  import opened RpcWire

  function Concat<T>(parts: seq<seq<T>>): seq<T> {
    if parts == [] then [] else parts[0] + Concat(parts[1..])
  }

  /** The pieces of one message: each 1 to 100 bytes, the first holding the
      size field. */
  ghost predicate Pieces(m: Bytes, pieces: seq<Bytes>) {
    && Framed(m) && Concat(pieces) == m
    && (forall p :: p in pieces ==> 1 <= |p| <= MAXMSGLEN)
    && |pieces| > 0 && |pieces[0]| >= 4
  }

  /** No piece crosses the end of a message: `groups[i]` are those of `msgs[i]`. */
  ghost predicate Delivery(msgs: seq<Bytes>, groups: seq<seq<Bytes>>) {
    && |groups| == |msgs|
    && forall i :: 0 <= i < |msgs| ==> Pieces(msgs[i], groups[i])
  }

  lemma {:induction false} ConcatSplit<T>(parts: seq<seq<T>>, k: nat)
    requires k <= |parts|
    ensures Concat(parts) == Concat(parts[..k]) + Concat(parts[k..])
  {
    if k == 0 {
      assert parts[..0] == [] && parts[0..] == parts;
    } else {
      ConcatSplit(parts[1..], k - 1);
      assert parts[..k][1..] == parts[1..][..k - 1];
      assert parts[1..][k - 1..] == parts[k..];
    }
  }

  lemma ConcatSnoc<T>(parts: seq<seq<T>>, k: nat)
    requires k < |parts|
    ensures Concat(parts[..k + 1]) == Concat(parts[..k]) + parts[k]
  {
    ConcatSplit(parts[..k + 1], k);
    assert parts[..k + 1][..k] == parts[..k];
    assert parts[..k + 1][k..] == [parts[k]];
    assert Concat([parts[k]]) == parts[k] + Concat([parts[k]][1..]);
  }

  /** Short of the last piece, a message is incomplete. */
  lemma {:induction false} Incomplete(pieces: seq<Bytes>, k: nat)
    requires k < |pieces| && forall p :: p in pieces ==> 1 <= |p|
    ensures |Concat(pieces[..k])| < |Concat(pieces)|
  {
    ConcatSplit(pieces, k);
    assert pieces[k..][0] == pieces[k] && pieces[k] in pieces;
  }

  lemma FirstPieceSize(m: Bytes, pieces: seq<Bytes>)
    requires Pieces(m, pieces)
    ensures IntAt(pieces[0], 0) == |m| && Concat(pieces[..1]) == pieces[0] && |pieces[0]| <= |m|
  {
    ConcatSplit(pieces, 1);
    assert Concat(pieces[..1]) == pieces[0] + Concat(pieces[..1][1..]);
    assert pieces[0][0..4] == m[0..4];
  }

  /** The inner receive loop: `pieces` is what recv returns, one after another.
      It allocates as many bytes as the first piece's size field says, copies
      every piece within them, and stops exactly at the end of the message. */
  method ReceiveOne(pieces: seq<Bytes>, ghost m: Bytes, ghost own: seq<Bytes>) returns (buffer: Bytes, used: nat)
    requires Pieces(m, own) && own <= pieces
    ensures buffer == m && used == |own|
  {
    FirstPieceSize(m, own);
    var nowsize, totalsize := 0, 0;
    var data := new byte[0];
    var first := true;
    used := 0;
    while used < |pieces|
      invariant used < |own| && (first <==> used == 0)
      invariant nowsize == |Concat(own[..used])|
      invariant !first ==> totalsize == |m| == data.Length && nowsize <= |m| && data[..nowsize] == Concat(own[..used])
      invariant fresh(data)
    {
      var buf := pieces[used];
      assert buf == own[used];
      ConcatSnoc(own, used);
      ConcatSplit(own, used + 1);
      if first {
        first := false;
        totalsize := IntAt(buf, 0);
        data := new byte[totalsize];
        Memcpy(data, 0, buf);
      } else {
        Memcpy(data, nowsize, buf);
      }
      nowsize := nowsize + |buf|;
      used := used + 1;
      assert data[..nowsize] == Concat(own[..used]);
      if used == |own| {
        assert own[..used] == own;
      }
      if nowsize >= totalsize {
        break;
      }
    }
    if used < |own| {
      Incomplete(own, used);
    }
    assert own[..|own|] == own;
    buffer := data[..];
  }

  /** receiving: dispatches exactly the messages sent, in order, until the
      client closes its end. */
  method Receiving(pieces: seq<Bytes>, ghost msgs: seq<Bytes>, ghost groups: seq<seq<Bytes>>)
    returns (dispatched: seq<Bytes>)
    requires Delivery(msgs, groups) && pieces == Concat(groups)
    ensures dispatched == msgs
  {
    hide Framed, IntAt, Pieces, Concat;
    dispatched := [];
    var at := 0;
    assert groups[0..] == groups && pieces[0..] == pieces;
    while at < |pieces|
      invariant 0 <= at <= |pieces|
      invariant dispatched <= msgs
      invariant pieces[at..] == Concat(groups[|dispatched|..])
      decreases |msgs| - |dispatched|
    {
      ghost var k := |dispatched|;
      NextGroup(pieces, at, groups, k);
      assert Pieces(msgs[k], groups[k]);
      var buffer, used := ReceiveOne(pieces[at..], msgs[k], groups[k]);
      dispatched := dispatched + [buffer];
      at := at + used;
    }
    if |dispatched| < |msgs| {
      NoMorePieces(groups, msgs, |dispatched|);
    }
  }

  lemma NextGroup<T>(pieces: seq<T>, at: nat, groups: seq<seq<T>>, k: nat)
    requires at < |pieces| && k <= |groups| && pieces[at..] == Concat(groups[k..])
    ensures k < |groups| && groups[k] <= pieces[at..] && at + |groups[k]| <= |pieces|
    ensures pieces[at + |groups[k]|..] == Concat(groups[k + 1..])
  {
    assert |pieces[at..]| > 0;
    assert groups[k..][1..] == groups[k + 1..];
    assert pieces[at + |groups[k]|..] == pieces[at..][|groups[k]|..];
  }

  lemma NoMorePieces(groups: seq<seq<Bytes>>, msgs: seq<Bytes>, k: nat)
    requires Delivery(msgs, groups) && k < |msgs|
    ensures Concat(groups[k..]) != []
  {
    assert Pieces(msgs[k], groups[k]);
    assert Concat(groups[k..]) == groups[k] + Concat(groups[k..][1..]);
  }

  /** One legal way to cut any message: full pieces of 100 bytes and the rest. */
  function Chunked(m: Bytes): seq<Bytes> {
    if |m| <= MAXMSGLEN then [m] else [m[..MAXMSGLEN]] + Chunked(m[MAXMSGLEN..])
  }

  lemma {:induction false} ChunkedPieces(m: Bytes)
    requires m != []
    ensures Concat(Chunked(m)) == m && forall p :: p in Chunked(m) ==> 1 <= |p| <= MAXMSGLEN
    ensures |Chunked(m)[0]| == if |m| <= MAXMSGLEN then |m| else MAXMSGLEN
    ensures Framed(m) ==> Pieces(m, Chunked(m))
  {
    if |m| <= MAXMSGLEN {
      assert [m][1..] == [];
    } else {
      ChunkedPieces(m[MAXMSGLEN..]);
      assert Chunked(m)[1..] == Chunked(m[MAXMSGLEN..]);
      assert m[..MAXMSGLEN] + m[MAXMSGLEN..] == m;
    }
  }
}
