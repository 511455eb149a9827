/** Possibility: whatever has happened, a collage can still be finished. */
module CommitPossibility {
  import opened CommitTypes
  import opened Coordinator
  import opened CommitProtocol
  import opened CommitProgress
  import SL = ServerLog
  import CS = CommitServer
  import P = Participant
  import SS = CommitServerSafety
  import NS = CommitNodeSafety
  import CT = CommitTheorems

  /** Some run leads from one state to the other. */
  ghost predicate Leads(mode: P.Tokens, s: State, s': State) {
    exists events :: Runs(mode, s, events) && Final(mode, s, events) == s'
  }

  lemma LeadsSelf(mode: P.Tokens, s: State)
    ensures Leads(mode, s, s)
  {
    assert Runs(mode, s, []) && Final(mode, s, []) == s;
  }

  lemma LeadsOn(mode: P.Tokens, s: State, s': State, e: Event)
    requires Leads(mode, s, s') && Enabled(s', e)
    ensures Leads(mode, s, Next(mode, s', e))
  {
    hide Runs, Final, Enabled, Next;
    var events :| Runs(mode, s, events) && Final(mode, s, events) == s';
    RunSnoc(mode, s, events, e);
  }

  lemma {:induction false} LeadsTrans(mode: P.Tokens, a: State, b: State, c: State)
    requires Leads(mode, a, b) && Leads(mode, b, c)
    ensures Leads(mode, a, c)
  {
    hide Enabled, Next;
    var first :| Runs(mode, a, first) && Final(mode, a, first) == b;
    var second :| Runs(mode, b, second) && Final(mode, b, second) == c;
    RunConcat(mode, a, first, second);
  }

  lemma {:induction false} RunConcat(mode: P.Tokens, s: State, first: seq<Event>, second: seq<Event>)
    requires Runs(mode, s, first) && Runs(mode, Final(mode, s, first), second)
    ensures Runs(mode, s, first + second)
    ensures Final(mode, s, first + second) == Final(mode, Final(mode, s, first), second)
    decreases |first|
  {
    hide Enabled, Next;
    if first == [] {
      assert first + second == second;
    } else {
      assert (first + second)[1..] == first[1..] + second;
      RunConcat(mode, Next(mode, s, first[0]), first[1..], second);
    }
  }

  // ----- the server comes back -----

  lemma OrdersExist(table: map<string, Coord>, done: set<string>)
    returns (files: seq<string>, orders: map<string, seq<string>>)
    requires done <= table.Keys
    ensures CS.RecommitOrders(table, done, files, orders)
    decreases |done|
  {
    if f :| f in done {
      files, orders := OrdersExist(table, done - {f});
      var order := EnumerationExists(table[f].userSet);
      CS.RecommitSnoc(table, done - {f}, files, orders, f, order);
      files, orders := files + [f], orders[f := order];
      assert done - {f} + {f} == done;
    } else {
      files, orders := [], map[];
    }
  }

  /** Redistribution reaches everybody that has not acknowledged. */
  lemma {:induction false} RecommitReaches(table: map<string, Coord>, files: seq<string>,
                                           orders: map<string, seq<string>>, f: string, u: string)
    requires forall g :: g in files ==> g in table && g in orders
    requires f in files && u in orders[f] && u !in table[f].ackSet
    ensures Send(Decision(u, f, table[f].finalDecision)) in CS.Recommit(table, files, orders)
  {
    var prefix, g := files[..|files| - 1], files[|files| - 1];
    if g == f {
      BroadcastTargets(f, table[f].finalDecision, orders[f], table[f].ackSet);
    } else {
      assert files == prefix + [g];
      RecommitReaches(table, prefix, orders, f, u);
    }
  }

  /** The collage is being collected, and its decision is there for everybody missing. */
  ghost predicate Announced(s: State, f: string) {
    && Collecting(s, f) && Missing(s, f) <= s.nodes.Keys
    && forall u :: u in Missing(s, f) ==> Decision(u, f, s.server.memory.table[f].finalDecision) in s.past.net
  }

  lemma ServerRestarts(mode: P.Tokens, s: State, f: string) returns (s': State)
    requires Inv(mode, s) && Unfinished(f, s.past)
    requires f in s.past.started && {} < Users(s.past.started[f]) <= s.nodes.Keys
    ensures Leads(mode, s, s') && Inv(mode, s') && Announced(s', f)
  {
    hide Leads, Inv;
    var down := s;
    LeadsSelf(mode, s);
    if s.server.Up? {
      LeadsOn(mode, s, s, CrashServer);
      CT.StepKeepsInv(mode, s, CrashServer);
      down := Next(mode, s, CrashServer);
    }
    var table := SL.Replay(down.past.slog);
    var files, orders := OrdersExist(table, table.Keys);
    var e := RecoverServer(files, orders, Whole);
    LeadsOn(mode, s, down, e);
    CT.StepKeepsInv(mode, down, e);
    RestartAnnounces(mode, down, f, files, orders);
    s' := Next(mode, down, e);
  }

  lemma ReplayedEntry(mode: P.Tokens, s: State, f: string)
    requires Inv(mode, s) && Unfinished(f, s.past) && f in s.past.started
    ensures f in SL.Replay(s.past.slog)
    ensures var c := SL.Replay(s.past.slog)[f];
            c.userSet == Users(s.past.started[f]) && c.ackSet == {} && c.decisionMade
  {
    hide SL.Replay, SL.LogOk, NetInv, NodesInv;
    SL.ReplayInvertsLogging(s.past.slog);
    assert RecordsOk(f, s.past) && SL.Restored(s.past.slog, f, SL.Replay(s.past.slog)[f]);
  }

  lemma RestartAnnounces(mode: P.Tokens, s: State, f: string, files: seq<string>, orders: map<string, seq<string>>)
    requires Inv(mode, s) && Unfinished(f, s.past) && Enabled(s, RecoverServer(files, orders, Whole))
    requires f in s.past.started && {} < Users(s.past.started[f]) <= s.nodes.Keys
    ensures Announced(Next(mode, s, RecoverServer(files, orders, Whole)), f)
  {
    hide CS.Recommit, SL.Replay, Inv, Unfinished, Logged, Composed;
    var table := SL.Replay(s.past.slog);
    ReplayedEntry(mode, s, f);
    var effects := CS.Recommit(table, files, orders);
    forall u | u in table[f].userSet ensures Decision(u, f, table[f].finalDecision) in Sent(effects) {
      RecommitReaches(table, files, orders, f, u);
    }
    assert Kept(effects, Whole) == effects;
  }

  // ----- one participant after the other -----

  lemma NodeComesBack(mode: P.Tokens, s: State, u: string) returns (s': State)
    requires Inv(mode, s) && u in s.nodes
    ensures Leads(mode, s, s') && Inv(mode, s') && u in s'.nodes && s'.nodes[u].life.Running?
    ensures s'.server == s.server && s'.past == s.past && s'.nodes.Keys == s.nodes.Keys
  {
    hide Leads, Inv;
    LeadsSelf(mode, s);
    if s.nodes[u].life.Running? {
      s' := s;
    } else {
      var order := EnumerationExists(P.Replay(s.nodes[u].log).used);
      var e := RecoverNode(u, order, Whole);
      LeadsOn(mode, s, s, e);
      CT.StepKeepsInv(mode, s, e);
      s' := Next(mode, s, e);
      NS.RemovedImages(order);
      assert s'.past.net == s.past.net + {};
    }
  }

  lemma NodeAcks(mode: P.Tokens, s: State, u: string, f: string, d: bool) returns (s': State)
    requires Inv(mode, s) && u in s.nodes && s.nodes[u].life.Running? && Decision(u, f, d) in s.past.net
    ensures Leads(mode, s, s') && Inv(mode, s') && Ack(u, f, d) in s'.past.net
    ensures s'.server == s.server && s.past.net <= s'.past.net && s'.nodes.Keys == s.nodes.Keys
  {
    hide Leads, Inv;
    LeadsSelf(mode, s);
    var m := s.nodes[u].life.memory;
    var order := EnumerationExists(if f in m.locks then m.locks[f] else {});
    var e := ToNode(u, Decision(u, f, d), true, order, Whole);
    LeadsOn(mode, s, s, e);
    CT.StepKeepsInv(mode, s, e);
    s' := Next(mode, s, e);
    assert Send(Ack(u, f, d)) in P.DecideEffects(mode, u, m, f, d, order);
  }

  lemma OneMore(mode: P.Tokens, s: State, f: string, u: string) returns (s': State)
    requires Inv(mode, s) && Announced(s, f) && u in Missing(s, f)
    ensures Leads(mode, s, s') && Inv(mode, s')
    ensures if Missing(s, f) == {u} then Finished(s', f) else Announced(s', f) && Missing(s', f) == Missing(s, f) - {u}
  {
    hide Leads, Inv, Enabled, Next, Finished;
    var d := s.server.memory.table[f].finalDecision;
    var s1 := NodeComesBack(mode, s, u);
    var s2 := NodeAcks(mode, s1, u, f, d);
    LeadsTrans(mode, s, s1, s2);
    var order := EnumerationExists(s.server.memory.table[f].userSet);
    var e := ToServer(Ack(u, f, d), order, Whole);
    AckEnabled(mode, s2, f, u, d, order);
    LeadsOn(mode, s, s2, e);
    CT.StepKeepsInv(mode, s2, e);
    s' := Next(mode, s2, e);
    EventProgress(mode, s2, e, f);
  }

  lemma AckEnabled(mode: P.Tokens, s: State, f: string, u: string, d: bool, order: seq<string>)
    requires Inv(mode, s) && Collecting(s, f) && Ack(u, f, d) in s.past.net
    requires Enumerates(order, s.server.memory.table[f].userSet)
    ensures var e := ToServer(Ack(u, f, d), order, Whole);
            && Enabled(s, e) && Next(mode, s, e).server.Up? && Heard(e, f) == {u}
            && ServerInv(s) && s.past.net <= Next(mode, s, e).past.net && Next(mode, s, e).nodes == s.nodes
            && (f in Next(mode, s, e).server.memory.table ==>
                  Next(mode, s, e).server.memory.table[f].finalDecision == s.server.memory.table[f].finalDecision)
  {
    hide NetInv, LogInv, NodesInv, SL.Latest, SL.Verdict, SL.Participants, SL.LogOk, Logged, Sent, Composed, Broadcast;
  }

  lemma {:induction false} FinishAll(mode: P.Tokens, s: State, f: string) returns (s': State)
    requires Inv(mode, s) && Announced(s, f)
    ensures Leads(mode, s, s') && Finished(s', f)
    decreases |Missing(s, f)|
  {
    hide Leads, Inv, Finished, Outstanding, Counting;
    SomeoneMissing(s, f);
    var u :| u in Missing(s, f);
    var s1 := OneMore(mode, s, f, u);
    if Missing(s, f) == {u} {
      s' := s1;
    } else {
      SubsetOfSameSize(Missing(s1, f), Missing(s, f));
      s' := FinishAll(mode, s1, f);
      LeadsTrans(mode, s, s1, s');
    }
  }

  /** From every reachable state, crashed or not, a started and unfinished collage
      whose participants exist can still be finished. */
  lemma CanFinish(mode: P.Tokens, s: State, f: string)
    requires Reachable(mode, s) && Unfinished(f, s.past)
    requires f in s.past.started && {} < Users(s.past.started[f]) <= s.nodes.Keys
    ensures exists s' :: Leads(mode, s, s') && Finished(s', f)
  {
    hide Leads, Inv, Finished;
    CT.ReachableInv(mode, s);
    var s1 := ServerRestarts(mode, s, f);
    var s2 := FinishAll(mode, s1, f);
    LeadsTrans(mode, s, s1, s2);
  }
}
