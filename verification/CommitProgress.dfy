/** Progress: while the server stays up, a decided collage finishes exactly when
    it has heard from everybody, whatever else happens meanwhile: resends, late
    votes, timeouts, other collages, and crashes of participants. */
module CommitProgress {
  import opened CommitTypes
  import opened Coordinator
  import opened CommitProtocol
  import SL = ServerLog
  import CS = CommitServer
  import P = Participant
  import SS = CommitServerSafety
  import CT = CommitTheorems

  ghost predicate Finished(s: State, f: string) {
    SL.Latest(s.past.slog, f) == SL.Some(Committed(f))
  }

  /** The server has decided `f` and is still collecting acknowledgements. */
  ghost predicate Collecting(s: State, f: string) {
    && s.server.Up? && f in s.server.memory.active && f in s.server.memory.table
    && s.server.memory.table[f].decisionMade && Counting(s.server.memory.table[f])
  }

  ghost function Missing(s: State, f: string): set<string>
    requires Collecting(s, f)
  {
    Outstanding(s.server.memory.table[f])
  }

  /** Whose acknowledgement of `f` the server takes in with this event. */
  function Heard(e: Event, f: string): set<string> {
    if e.ToServer? && e.message.Ack? && e.message.fileName == f then {e.message.from} else {}
  }

  // ----- every active collage still misses somebody -----

  ghost predicate CountsOk(s: State) {
    s.server.Up? ==>
      forall f ::
        f in s.server.memory.active && f in s.server.memory.table && s.server.memory.table[f].userSet != {} ==>
          Counting(s.server.memory.table[f])
  }

  lemma DispatchCounts(c: Coord, m: Message, order: seq<string>)
    requires m.Vote? || m.Ack?
    ensures Counting(c) && !OnMessage(c, m, order).2 ==> Counting(OnMessage(c, m, order).0)
    ensures OnMessage(c, m, order).0.userSet == c.userSet
  {
    hide Broadcast;
    if m.Ack? && Counting(c) {
      AckProgress(c, m.from);
    }
  }

  lemma EventCounts(mode: P.Tokens, s: State, e: Event)
    requires ServerInv(s) && CountsOk(s) && Enabled(s, e)
    ensures CountsOk(Next(mode, s, e))
  {
    hide Broadcast, CoordOk, RecordsOk, NetInv, Kept, Logged, Sent, Composed, CS.Recommit, SL.LogOk, OnMessage;
    match e
    case ToServer(m, order, cut) =>
      var f := m.fileName;
      if f in s.server.memory.active {
        DispatchCounts(s.server.memory.table[f], m, order);
      }
    case RecoverServer(files, orders, cut) =>
      SL.ReplayInvertsLogging(s.past.slog);
    case _ =>
  }

  // ----- one event -----

  ghost predicate SameCounts(s: State, s': State, f: string)
    requires Collecting(s, f)
  {
    Collecting(s', f)
    && var c, c' := s.server.memory.table[f], s'.server.memory.table[f];
       c'.userSet == c.userSet && c'.ackSet == c.ackSet
  }

  lemma OtherEvent(mode: P.Tokens, s: State, e: Event, f: string)
    requires ServerInv(s) && Collecting(s, f) && Enabled(s, e) && Next(mode, s, e).server.Up?
    requires Heard(e, f) == {}
    ensures SameCounts(s, Next(mode, s, e), f)
  {
    hide Broadcast, RecordsOk, NetInv, LogInv, Kept, Logged, Sent, Composed, CS.Recommit, SL.Replay, SL.Latest,
      SL.Verdict, AfterAck, AfterVote, NewCoord;
    assert CoordOk(f, s.server.memory.table[f], s.past);
  }

  lemma AckEvent(mode: P.Tokens, s: State, e: Event, f: string)
    requires ServerInv(s) && Collecting(s, f) && Enabled(s, e) && Next(mode, s, e).server.Up?
    requires Heard(e, f) != {}
    ensures var s', (c, all) := Next(mode, s, e), AfterAck(s.server.memory.table[f], e.message.from);
            && (all ==> Finished(s', f))
            && (!all ==> s'.server.memory == CS.Memory(s.server.memory.table[f := c], s.server.memory.active))
  {
    hide Broadcast, RecordsOk, NetInv, Sent, Composed, CS.Recommit, SL.LogOk, SL.Latest, AfterAck;
    assert CoordOk(f, s.server.memory.table[f], s.past);
    SL.ReadSnoc(s.past.slog, Committed(f), f);
    assert Logged([Log(Committed(f))]) == [Committed(f)];
  }

  /** While the server is up, only a missing acknowledgement moves a collecting
      collage on, and the last one finishes it. */
  lemma EventProgress(mode: P.Tokens, s: State, e: Event, f: string)
    requires ServerInv(s) && Collecting(s, f) && Enabled(s, e) && Next(mode, s, e).server.Up?
    ensures var s' := Next(mode, s, e);
            if Missing(s, f) <= Heard(e, f) then Finished(s', f)
            else Collecting(s', f) && Missing(s', f) == Missing(s, f) - Heard(e, f)
  {
    hide Next, Enabled, AfterAck, ServerInv;
    var c := s.server.memory.table[f];
    SomeoneOutstanding(c);
    if Heard(e, f) == {} {
      OtherEvent(mode, s, e, f);
    } else {
      AckEvent(mode, s, e, f);
      AckProgress(c, e.message.from);
      AckKeeps(c, e.message.from);
    }
  }

  lemma AckKeeps(c: Coord, user: string)
    ensures AfterAck(c, user).0.decisionMade == c.decisionMade
  {
  }

  // ----- finished is for good -----

  lemma {:induction false} CommittedStays(log: seq<ServerRecord>, more: seq<ServerRecord>, f: string)
    requires SL.LogOk(log + more) && SL.Latest(log, f) == SL.Some(Committed(f))
    ensures SL.Latest(log + more, f) == SL.Some(Committed(f))
  {
    hide SL.LogOk, SL.Latest;
    if more == [] {
      assert log + more == log;
    } else {
      var rest, r := more[..|more| - 1], more[|more| - 1];
      assert log + more == log + rest + [r];
      SL.LogOkSnoc(log + rest, r);
      CommittedStays(log, rest, f);
      SL.ReadSnoc(log + rest, r, f);
    }
  }

  lemma LogGrows(mode: P.Tokens, s: State, e: Event)
    requires Enabled(s, e)
    ensures s.past.slog <= Next(mode, s, e).past.slog
  {
    hide Logged, Kept, Sent, Composed, Broadcast, CS.Recommit, CS.Dispatched, OnVoteTimeout, OnAckTimeout;
  }

  /** A finished collage stays finished, through crashes too. */
  lemma FinishedStays(mode: P.Tokens, s: State, e: Event, f: string)
    requires Inv(mode, s) && Enabled(s, e) && Finished(s, f)
    ensures Finished(Next(mode, s, e), f)
  {
    hide Next, Enabled, SL.Latest;
    CT.StepKeepsInv(mode, s, e);
    LogGrows(mode, s, e);
    var log, log' := s.past.slog, Next(mode, s, e).past.slog;
    assert log' == log + log'[|log|..];
    CommittedStays(log, log'[|log|..], f);
  }

  // ----- whole runs -----

  /** The server does not crash in this run; participants may. */
  ghost predicate StaysUp(mode: P.Tokens, s: State, events: seq<Event>)
    requires Runs(mode, s, events)
    decreases |events|
  {
    s.server.Up? && (events == [] || StaysUp(mode, Next(mode, s, events[0]), events[1..]))
  }

  function HeardIn(events: seq<Event>, f: string): set<string> {
    if events == [] then {} else Heard(events[0], f) + HeardIn(events[1..], f)
  }

  lemma {:induction false} FinishedRemains(mode: P.Tokens, s: State, events: seq<Event>, f: string)
    requires Inv(mode, s) && Runs(mode, s, events) && Finished(s, f)
    ensures Finished(Final(mode, s, events), f)
    decreases |events|
  {
    hide Inv, Next, Enabled, Finished;
    if events != [] {
      CT.StepKeepsInv(mode, s, events[0]);
      FinishedStays(mode, s, events[0], f);
      FinishedRemains(mode, Next(mode, s, events[0]), events[1..], f);
    }
  }

  lemma CollectingUnfinished(s: State, f: string)
    requires ServerInv(s) && Collecting(s, f)
    ensures !Finished(s, f)
  {
    assert Unfinished(f, s.past);
  }

  /** Whatever happens while the server is up, a decided collage is finished at
      the end exactly when every missing acknowledgement was taken in. */
  lemma {:induction false} CompletesExactly(mode: P.Tokens, s: State, events: seq<Event>, f: string)
    requires Inv(mode, s) && Collecting(s, f) && Runs(mode, s, events) && StaysUp(mode, s, events)
    ensures var s' := Final(mode, s, events);
            && (Finished(s', f) <==> Missing(s, f) <= HeardIn(events, f))
            && (!Finished(s', f) ==> Collecting(s', f) && Missing(s', f) == Missing(s, f) - HeardIn(events, f))
    decreases |events|
  {
    hide Next, Enabled, Finished, ServerInv, NodesInv, Outstanding, Heard;
    CollectingUnfinished(s, f);
    if events == [] {
      SomeoneMissing(s, f);
    } else {
      var e := events[0];
      var s1 := Next(mode, s, e);
      CT.StepKeepsInv(mode, s, e);
      EventProgress(mode, s, e, f);
      if Missing(s, f) <= Heard(e, f) {
        FinishedRemains(mode, s1, events[1..], f);
      } else {
        CompletesExactly(mode, s1, events[1..], f);
      }
    }
  }

  lemma SomeoneMissing(s: State, f: string)
    requires Collecting(s, f)
    ensures exists v :: v in Missing(s, f)
  {
    SomeoneOutstanding(s.server.memory.table[f]);
    var v :| v in Outstanding(s.server.memory.table[f]);
    assert v in Missing(s, f);
  }

  /** Consecutive stretches of a run; in each, unless `f` is finished, one
      acknowledgement that was missing at its start is taken in. */
  ghost predicate EveryRoundHears(mode: P.Tokens, s: State, rounds: seq<seq<Event>>, f: string)
    decreases |rounds|
  {
    rounds == [] ||
    (&& Runs(mode, s, rounds[0]) && StaysUp(mode, s, rounds[0])
     && (Collecting(s, f) ==> exists v :: v in Missing(s, f) && v in HeardIn(rounds[0], f))
     && EveryRoundHears(mode, Final(mode, s, rounds[0]), rounds[1..], f))
  }

  ghost function FinalRound(mode: P.Tokens, s: State, rounds: seq<seq<Event>>, f: string): State
    requires EveryRoundHears(mode, s, rounds, f)
    decreases |rounds|
  {
    if rounds == [] then s else FinalRound(mode, Final(mode, s, rounds[0]), rounds[1..], f)
  }

  lemma {:induction false} FinishedThroughRounds(mode: P.Tokens, s: State, rounds: seq<seq<Event>>, f: string)
    requires Inv(mode, s) && EveryRoundHears(mode, s, rounds, f) && Finished(s, f)
    ensures Finished(FinalRound(mode, s, rounds, f), f)
    decreases |rounds|
  {
    hide Inv, Finished, Runs, Final, StaysUp, Collecting;
    if rounds != [] {
      CT.RunKeepsInv(mode, s, rounds[0]);
      FinishedRemains(mode, s, rounds[0], f);
      FinishedThroughRounds(mode, Final(mode, s, rounds[0]), rounds[1..], f);
    }
  }

  /** A reachable, decided collage is finished after at most as many such rounds
      as acknowledgements were missing. */
  lemma {:induction false} CompletesWithinRounds(mode: P.Tokens, s: State, rounds: seq<seq<Event>>, f: string)
    requires Inv(mode, s) && Collecting(s, f) && EveryRoundHears(mode, s, rounds, f)
    requires |rounds| >= |Missing(s, f)|
    ensures Finished(FinalRound(mode, s, rounds, f), f)
    decreases |rounds|
  {
    hide Inv, Finished, Runs, Final, StaysUp, HeardIn, Outstanding;
    SomeoneMissing(s, f);
    var events := rounds[0];
    var s1 := Final(mode, s, events);
    CT.RunKeepsInv(mode, s, events);
    CompletesExactly(mode, s, events, f);
    if Finished(s1, f) {
      FinishedThroughRounds(mode, s1, rounds[1..], f);
    } else {
      assert Missing(s1, f) < Missing(s, f);
      SubsetOfSameSize(Missing(s1, f), Missing(s, f));
      CompletesWithinRounds(mode, s1, rounds[1..], f);
    }
  }

  // ----- decided collages of reachable states are collecting -----

  lemma {:induction false} RunCounts(mode: P.Tokens, s: State, events: seq<Event>)
    requires Inv(mode, s) && CountsOk(s) && Runs(mode, s, events)
    ensures CountsOk(Final(mode, s, events))
    decreases |events|
  {
    hide ServerInv, NodesInv, Next, Enabled, CountsOk;
    if events != [] {
      EventCounts(mode, s, events[0]);
      CT.StepKeepsInv(mode, s, events[0]);
      RunCounts(mode, Next(mode, s, events[0]), events[1..]);
    }
  }

  /** In every reachable state, a decided collage that still receives messages
      is collecting, unless it has no participants at all. */
  lemma DecidedCollects(mode: P.Tokens, s: State, f: string)
    requires Reachable(mode, s)
    requires s.server.Up? && f in s.server.memory.active && f in s.server.memory.table
    requires s.server.memory.table[f].decisionMade && s.server.memory.table[f].userSet != {}
    ensures Inv(mode, s) && Collecting(s, f)
  {
    var s0, events :| Init(s0) && Runs(mode, s0, events) && Final(mode, s0, events) == s;
    CT.InitInv(mode, s0);
    RunCounts(mode, s0, events);
    CT.ReachableInv(mode, s);
  }
}
