/** The collage server (15440-p4/final/Server.java): a table of collages, the
    dispatch loop body, and recovery from the log. */
module CommitServer {
  import opened CommitTypes
  import opened Coordinator
  import opened ServerLog

  /** `table` holds every collage object in memory; `active` is the key set of
      collageCommit, the only collages that still receive messages. */
  datatype Memory = Memory(table: map<string, Coord>, active: set<string>)

  function AfterStart(m: Memory, f: string, sources: seq<Source>): Memory {
    Memory(m.table[f := NewCoord(f, sources)], m.active + {f})
  }

  function Dispatched(m: Memory, msg: Message, order: seq<string>): (Memory, seq<Effect>)
    requires msg.Vote? || msg.Ack?
    requires m.active <= m.table.Keys
  {
    var f := msg.fileName;
    if f !in m.active then (m, [])
    else
      var result := OnMessage(m.table[f], msg, order);
      (Memory(m.table[f := result.0], if result.2 then m.active - {f} else m.active), result.1)
  }

  /** recommitCollage: `files` and `orders` are the hash iteration orders. */
  function Recommit(table: map<string, Coord>, files: seq<string>, orders: map<string, seq<string>>): seq<Effect>
    requires forall f :: f in files ==> f in table && f in orders
  {
    if files == [] then []
    else
      var prefix, f := files[..|files| - 1], files[|files| - 1];
      Recommit(table, prefix, orders)
      + Broadcast(f, table[f].finalDecision, orders[f], table[f].ackSet)
  }

  /** The files in `done` have been redistributed, in some order. */
  ghost predicate RecommitOrders(table: map<string, Coord>, done: set<string>,
    files: seq<string>, orders: map<string, seq<string>>)
  {
    && Enumerates(files, done)
    && orders.Keys == done <= table.Keys
    && (forall f :: f in done ==> Enumerates(orders[f], table[f].userSet))
  }

  lemma {:induction false} RecommitSends(table: map<string, Coord>, files: seq<string>,
                                         orders: map<string, seq<string>>)
    requires forall f :: f in files ==> f in table && f in orders
    ensures forall e :: e in Recommit(table, files, orders) ==>
              && e.Send? && e.message.Decision? && e.message.fileName in files
              && e.message.commit == table[e.message.fileName].finalDecision
  {
    if files != [] {
      var prefix, f := files[..|files| - 1], files[|files| - 1];
      RecommitSends(table, prefix, orders);
      BroadcastTargets(f, table[f].finalDecision, orders[f], table[f].ackSet);
      assert forall g :: g in prefix ==> g in files;
    }
  }

  ghost predicate Models(o: Collage, env: Environment, f: string, c: Coord)
    reads o
  {
    o.env == env && o.fileName == f && o.Valid() && o.model == c
  }

  class Server {
    const env: Environment
    var collageDict: map<string, Collage>
    var collageCommit: map<string, Collage>
    /** The value of every collage created in this life; one that has left
        collageCommit keeps its last value. */
    ghost var table: map<string, Coord>
    ghost var Repr: set<Collage>

    ghost predicate Valid()
      reads this, Repr
    {
      forall f :: f in collageCommit ==>
        f in table && collageCommit[f] in Repr && Models(collageCommit[f], env, f, table[f])
    }

    ghost function Abs(): Memory
      reads this
    {
      Memory(table, collageCommit.Keys)
    }

    constructor (env: Environment)
      ensures Valid() && this.env == env && Abs() == Memory(map[], {})
      ensures Repr == {}
    {
      this.env, collageDict, collageCommit := env, map[], map[];
      table, Repr := map[], {};
    }

    /** A collage object starts to receive messages. */
    method Link(f: string, c: Collage)
      requires Valid() && Models(c, env, f, c.model)
      modifies `collageCommit, `table, `Repr
      ensures Valid()
      ensures collageCommit == old(collageCommit)[f := c] && table == old(table)[f := c.model]
      ensures Repr == old(Repr) + {c}
    {
      collageCommit := collageCommit[f := c];
      table, Repr := table[f := c.model], Repr + {c};
    }

    method StartCommit(f: string, sources: seq<Source>)
      requires Valid()
      modifies this, env
      ensures Valid()
      ensures Abs() == AfterStart(old(Abs()), f, sources)
      ensures env.trace == old(env.trace) + [Log(ServerRecord.StartCommit(f, sources))]
    {
      hide NewCoord;
      var c := new Collage(env, f, sources);
      collageDict := collageDict[f := c];
      Link(f, c);
      env.Perform(Log(ServerRecord.StartCommit(f, sources)));
    }

    /** One turn of the main loop. */
    method Dispatch(msg: Message) returns (ghost order: seq<string>)
      requires Valid()
      requires msg.Vote? || msg.Ack?
      modifies this, env, Repr
      ensures Valid()
      ensures msg.fileName in old(collageCommit) ==> Enumerates(order, old(table)[msg.fileName].userSet)
      ensures Abs() == Dispatched(old(Abs()), msg, order).0
      ensures env.trace == old(env.trace) + Dispatched(old(Abs()), msg, order).1
    {
      order := [];
      if msg.fileName !in collageCommit {
        return;
      }
      var done;
      done, order := Deliver(collageCommit[msg.fileName], msg);
      if done {
        collageCommit := collageCommit - {msg.fileName};
      }
    }

    method Deliver(c: Collage, msg: Message) returns (done: bool, ghost order: seq<string>)
      requires Valid() && (msg.Vote? || msg.Ack?)
      requires msg.fileName in collageCommit && collageCommit[msg.fileName] == c
      modifies `table, env, c
      ensures Valid()
      ensures Enumerates(order, old(table)[msg.fileName].userSet)
      ensures table == old(table)[msg.fileName := OnMessage(old(table)[msg.fileName], msg, order).0]
      ensures env.trace == old(env.trace) + OnMessage(old(table)[msg.fileName], msg, order).1
      ensures done == OnMessage(old(table)[msg.fileName], msg, order).2
    {
      assert forall f :: f in collageCommit && f != msg.fileName ==> collageCommit[f] != c;
      done, order := c.GetMessage(msg);
      table := table[msg.fileName := c.model];
    }

    /** Folds the log over an empty table, then redistributes. */
    method DoFailure(logs: seq<ServerRecord>)
      returns (ghost files: seq<string>, ghost orders: map<string, seq<string>>)
      requires Valid() && Abs() == Memory(map[], {}) && Repr == {}
      modifies this, env
      ensures Valid()
      ensures Abs() == Memory(Replay(logs), Replay(logs).Keys)
      ensures RecommitOrders(Replay(logs), Replay(logs).Keys, files, orders)
      ensures env.trace == old(env.trace) + Recommit(Replay(logs), files, orders)
    {
      for i := 0 to |logs|
        invariant Valid() && fresh(Repr)
        invariant table == Replay(logs[..i])
        invariant table.Keys == collageCommit.Keys
        invariant env.trace == old(env.trace)
      {
        assert logs[..i + 1] == logs[..i] + [logs[i]];
        ReplaySnoc(map[], logs[..i], logs[i]);
        ReplayLine(logs[i]);
      }
      assert logs[..|logs|] == logs;
      ReplayedStatus(logs);
      files, orders := RecommitCollage();
    }

    method ReplayLine(r: ServerRecord)
      requires Valid() && table.Keys == collageCommit.Keys
      modifies this, Repr
      ensures Valid() && table.Keys == collageCommit.Keys
      ensures fresh(Repr - old(Repr))
      ensures table == ReplayRecord(old(table), r)
    {
      match r
      case StartCommit(f, sources) =>
        Rebuild(f, sources, "startCommit", false);
      case Decided(f, commit, sources) =>
        if f in collageCommit {
          Redecide(collageCommit[f], sources, commit);
        } else {
          Rebuild(f, sources, "Decision", commit);
        }
      case Committed(f) =>
        if f in collageCommit {
          Forget(f);
        }
    }

    method Forget(f: string)
      requires Valid() && table.Keys == collageCommit.Keys
      modifies `collageCommit, `table
      ensures Valid() && table.Keys == collageCommit.Keys
      ensures table == old(table) - {f}
    {
      collageCommit := collageCommit - {f};
      table := table - {f};
    }

    method Rebuild(f: string, sources: seq<Source>, status: string, decision: bool)
      requires Valid() && table.Keys == collageCommit.Keys
      modifies `collageCommit, `table, `Repr
      ensures Valid() && table.Keys == collageCommit.Keys
      ensures fresh(Repr - old(Repr))
      ensures table == old(table)[f := Rebuilt(f, sources, status, decision)]
    {
      var curr := new Collage(env, f, sources);
      curr.Recover(sources, status, decision);
      Link(f, curr);
    }

    method Redecide(curr: Collage, sources: seq<Source>, commit: bool)
      requires Valid() && curr.fileName in collageCommit && collageCommit[curr.fileName] == curr
      modifies `table, curr
      ensures Valid()
      ensures var f := curr.fileName;
              table == old(table)[f := old(table)[f].(sources := sources, status := "Decision",
                                                      decisionMade := true, finalDecision := commit)]
    {
      curr.Recover(sources, "Decision", commit);
      table := table[curr.fileName := curr.model];
      assert forall f :: f in collageCommit && f != curr.fileName ==> collageCommit[f] != curr;
    }

    method RecommitCollage() returns (ghost files: seq<string>, ghost orders: map<string, seq<string>>)
      requires Valid() && table.Keys == collageCommit.Keys
      requires forall f :: f in table ==> Replayed(table[f])
      modifies env, Repr
      ensures Valid()
      ensures RecommitOrders(table, table.Keys, files, orders)
      ensures env.trace == old(env.trace) + Recommit(table, files, orders)
    {
      hide Broadcast, Models, Replayed;
      files, orders := [], map[];
      var rest := collageCommit.Keys;
      ghost var done: set<string> := {};
      while rest != {}
        invariant rest + done == collageCommit.Keys && rest !! done
        invariant Valid()
        invariant RecommitOrders(table, done, files, orders)
        invariant env.trace == old(env.trace) + Recommit(table, files, orders)
      {
        var f :| f in rest;
        files, orders := RecommitNext(f, done, files, orders, old(env.trace));
        rest, done := rest - {f}, done + {f};
      }
      assert done == table.Keys;
    }

    method RecommitNext(f: string, ghost done: set<string>, ghost files: seq<string>,
      ghost orders: map<string, seq<string>>, ghost before: seq<Effect>)
      returns (ghost files': seq<string>, ghost orders': map<string, seq<string>>)
      requires Valid() && f in collageCommit && Replayed(table[f])
      requires f !in done && RecommitOrders(table, done, files, orders)
      requires env.trace == before + Recommit(table, files, orders)
      modifies collageCommit[f], env
      ensures Valid()
      ensures RecommitOrders(table, done + {f}, files', orders')
      ensures env.trace == before + Recommit(table, files', orders')
    {
      ghost var order := RecommitOne(f);
      RecommitSnoc(table, done, files, orders, f, order);
      files', orders' := files + [f], orders[f := order];
    }

    method RecommitOne(f: string) returns (ghost order: seq<string>)
      requires Valid() && f in collageCommit && Replayed(table[f])
      modifies collageCommit[f], env
      ensures Valid()
      ensures Enumerates(order, table[f].userSet)
      ensures env.trace == old(env.trace) + Broadcast(f, table[f].finalDecision, order, table[f].ackSet)
    {
      var curr := collageCommit[f];
      assert forall g :: g in collageCommit && g != f ==> collageCommit[g] != curr;
      order := curr.Recommit();
    }
  }

  lemma {:induction false} ReplayedStatus(log: seq<ServerRecord>)
    ensures forall f :: f in Replay(log) ==> Replayed(Replay(log)[f])
  {
    if log != [] {
      ReplayedStatus(log[..|log| - 1]);
      assert Replay(log) == ReplayRecord(Replay(log[..|log| - 1]), log[|log| - 1]);
    }
  }

  lemma {:induction false} RecommitFrame(table: map<string, Coord>, files: seq<string>,
    orders: map<string, seq<string>>, orders': map<string, seq<string>>)
    requires forall f :: f in files ==> f in table && f in orders && f in orders' && orders[f] == orders'[f]
    ensures Recommit(table, files, orders) == Recommit(table, files, orders')
  {
    if files != [] {
      RecommitFrame(table, files[..|files| - 1], orders, orders');
    }
  }

  lemma RecommitSnoc(table: map<string, Coord>, done: set<string>, files: seq<string>, orders: map<string, seq<string>>,
    f: string, order: seq<string>)
    requires RecommitOrders(table, done, files, orders)
    requires f in table && f !in done && Enumerates(order, table[f].userSet)
    ensures RecommitOrders(table, done + {f}, files + [f], orders[f := order])
    ensures Recommit(table, files + [f], orders[f := order])
         == Recommit(table, files, orders) + Broadcast(f, table[f].finalDecision, order, table[f].ackSet)
  {
    RecommitFrame(table, files, orders, orders[f := order]);
    assert (files + [f])[..|files|] == files;
  }
}
