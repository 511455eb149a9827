/** Entities shared by the collage coordinator and its participants: messages,
    log records, and the ordered effects a handler has on the outside world. */
module CommitTypes {

  /** One "user:image" entry of a collage's sources array. */
  datatype Source = Source(user: string, image: string)

  /** The four message types.  `to`/`from` is the user at the other end of the
      link, since the server is always the peer. */
  datatype Message =
    | VoteRequest(to: string, fileName: string, images: seq<string>)
    | Vote(from: string, fileName: string, yes: bool)
    | Decision(to: string, fileName: string, commit: bool)
    | Ack(from: string, fileName: string, commit: bool)

  datatype ServerRecord =
    | StartCommit(fileName: string, sources: seq<Source>)
    | Decided(fileName: string, commit: bool, sources: seq<Source>)
    | Committed(fileName: string)

  datatype UserRecord =
    | Voted(yes: bool, fileName: string, images: seq<string>)
    | Resolved(token: string, fileName: string)

  /** What a handler does to disk and network, in program order.  A crash
      between two statements keeps a prefix of these and loses the memory. */
  datatype Effect =
    | Log(record: ServerRecord)
    | Compose(fileName: string)
    | UserLog(entry: UserRecord)
    | Remove(image: string)
    | Send(message: Message)

  /** Stands for ProjectLib and the file system: it records the effects. */
  class Environment {
    var trace: seq<Effect>

    constructor ()
      ensures trace == []
    {
      trace := [];
    }

    method Perform(e: Effect)
      modifies this
      ensures trace == old(trace) + [e]
    {
      trace := trace + [e];
    }
  }

  /** `order` is one iteration order of a hash set. */
  ghost predicate Enumerates(order: seq<string>, users: set<string>) {
    && (forall i, j :: 0 <= i < j < |order| ==> order[i] != order[j])
    && (forall u :: u in order <==> u in users)
  }

  lemma EnumerationExists(users: set<string>) returns (order: seq<string>)
    ensures Enumerates(order, users)
  {
    order := [];
    var rest := users;
    while rest != {}
      invariant rest <= users
      invariant Enumerates(order, users - rest)
    {
      var u :| u in rest;
      order, rest := order + [u], rest - {u};
    }
  }

  lemma SubsetOfSameSize<T>(a: set<T>, b: set<T>)
    requires a <= b
    ensures |a| <= |b|
    ensures |a| == |b| <==> a == b
  {
    assert b == a + (b - a);
  }
}
