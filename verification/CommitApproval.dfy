/** How a collage is decided: while the server stays up, an undecided collage is
    approved exactly when the yes votes of all its participants are in before
    anything speaks against it, and aborted exactly when something does first. */
module CommitApproval {
  import opened CommitTypes
  import opened Coordinator
  import opened CommitProtocol
  import opened CommitProgress
  import SL = ServerLog
  import CS = CommitServer
  import P = Participant
  import SS = CommitServerSafety
  import CT = CommitTheorems

  /** The server is still collecting votes for `f`. */
  ghost predicate Open(s: State, f: string) {
    && s.server.Up? && f in s.server.memory.active && f in s.server.memory.table
    && Polling(s.server.memory.table[f])
  }

  ghost function Awaited(s: State, f: string): set<string>
    requires Open(s, f)
  {
    Unheard(s.server.memory.table[f])
  }

  /** The decision about `f` is in the log. */
  ghost predicate Settled(p: Past, f: string, d: bool) {
    SL.Latest(p.slog, f).Some? && !SL.Latest(p.slog, f).value.StartCommit? && SL.Verdict(p.slog, f) == d
  }

  /** It has just been logged, and everyone has been told. */
  ghost predicate Announced(p: Past, f: string, d: bool) {
    && f in p.started
    && SL.Latest(p.slog, f) == SL.Some(Decided(f, d, if d then p.started[f] else []))
    && SL.Verdict(p.slog, f) == d && (d ==> f in p.composites)
    && forall u :: u in Users(p.started[f]) ==> Decision(u, f, d) in p.net
  }

  // ----- the events that count -----

  /** Whose yes vote for `f` the server takes in with this event. */
  function YesOf(e: Event, f: string): set<string> {
    if e.ToServer? && e.message.Vote? && e.message.fileName == f && e.message.yes then {e.message.from} else {}
  }

  /** A no vote, or the vote timer. */
  predicate Against(e: Event, f: string) {
    || (e.ToServer? && e.message.Vote? && e.message.fileName == f && !e.message.yes)
    || (e.VoteTimer? && e.fileName == f)
  }

  function YesIn(events: seq<Event>, f: string): set<string> {
    if events == [] then {} else YesOf(events[0], f) + YesIn(events[1..], f)
  }

  predicate Opposed(events: seq<Event>, f: string) {
    exists e :: e in events && Against(e, f)
  }

  /** The missing votes are all in before anything against the collage. */
  predicate Passes(missing: set<string>, events: seq<Event>, f: string)
    decreases |events|
  {
    missing == {} ||
    (events != [] && !Against(events[0], f) && Passes(missing - YesOf(events[0], f), events[1..], f))
  }

  lemma {:induction false} UnopposedPasses(missing: set<string>, events: seq<Event>, f: string)
    requires !Opposed(events, f)
    ensures Passes(missing, events, f) <==> missing <= YesIn(events, f)
    decreases |events|
  {
    if events != [] && missing != {} {
      var e := events[0];
      assert e in events;
      assert forall x :: x in events[1..] ==> x in events;
      UnopposedPasses(missing - YesOf(e, f), events[1..], f);
      assert missing - YesOf(e, f) <= YesIn(events[1..], f) <==> missing <= YesIn(events, f);
    }
  }

  // ----- one event -----

  ghost predicate SamePoll(s: State, s': State, f: string)
    requires Open(s, f)
  {
    Open(s', f) && Awaited(s', f) == Awaited(s, f)
  }

  lemma NoAckYet(s: State, f: string, user: string, d: bool)
    requires ServerInv(s) && Open(s, f)
    ensures Ack(user, f, d) !in s.past.net
    ensures s.server.memory.table[f].ackSet == {}
  {
    SS.KnownCoord(s, f);
    if Ack(user, f, d) in s.past.net {
      SS.AckedDecided(s, f, user);
    }
    if v :| v in s.server.memory.table[f].ackSet {
      SS.AckedDecided(s, f, v);
    }
  }

  lemma OtherEvent(mode: P.Tokens, s: State, e: Event, f: string)
    requires ServerInv(s) && Open(s, f) && Enabled(s, e) && Next(mode, s, e).server.Up?
    requires YesOf(e, f) == {} && !Against(e, f)
    ensures SamePoll(s, Next(mode, s, e), f)
  {
    hide Broadcast, RecordsOk, NetInv, LogInv, Kept, Logged, Sent, Composed, CS.Recommit, SL.Replay, SL.Latest,
      SL.Verdict, AfterAck, AfterVote, NewCoord, CoordOk, Abort, Approve;
    SS.KnownCoord(s, f);
    if e.Start? {
      StartIsNew(s, f);
    } else if e.ToServer? && e.message.Ack? && e.message.fileName == f {
      NoAckYet(s, f, e.message.from, e.message.commit);
    }
  }

  lemma StartIsNew(s: State, f: string)
    requires ServerInv(s) && Open(s, f)
    ensures f in s.past.started
  {
    SS.KnownCoord(s, f);
  }

  /** A decision is logged and sent to everyone. */
  lemma DecisionSent(s: State, s': State, f: string, d: bool, memory: CS.Memory, order: seq<string>)
    requires ServerInv(s) && Open(s, f) && Enumerates(order, s.server.memory.table[f].userSet)
    requires var c := s.server.memory.table[f];
             var pre := if d then [Compose(f)] else [];
             var r := Decided(f, d, if d then c.sources else []);
             s' == ServerStep(s, memory, pre + [Log(r)] + Broadcast(f, d, order, c.ackSet), Whole)
    ensures Announced(s'.past, f, d)
  {
    hide Broadcast, NetInv, LogInv, Logged;
    var c := s.server.memory.table[f];
    SS.KnownCoord(s, f);
    NoAckYet(s, f, "", d);
    var pre := if d then [Compose(f)] else [];
    var r := Decided(f, d, if d then c.sources else []);
    var sends := Broadcast(f, d, order, {});
    var effects := pre + [Log(r)] + sends;
    BroadcastTargets(f, d, order, {});
    DecisionLogged(pre, r, sends);
    SL.ReadSnoc(s.past.slog, r, f);
    forall u | u in c.userSet ensures Decision(u, f, d) in Sent(effects) {
      assert Send(Decision(u, f, d)) in sends && Send(Decision(u, f, d)) in effects;
    }
    if d {
      assert Compose(f) in effects;
    }
  }

  lemma DecisionLogged(pre: seq<Effect>, r: ServerRecord, sends: seq<Effect>)
    requires (forall e :: e in pre ==> e.Compose?) && forall e :: e in sends ==> e.Send?
    ensures Logged(pre + [Log(r)] + sends) == [r]
  {
    SS.LoggedConcat(pre + [Log(r)], sends);
    SS.LoggedConcat(pre, [Log(r)]);
    SS.NothingLogged(pre);
    SS.NothingLogged(sends);
    assert [Log(r)][1..] == [];
  }

  lemma AgainstEvent(mode: P.Tokens, s: State, e: Event, f: string)
    requires ServerInv(s) && Open(s, f) && Enabled(s, e) && Next(mode, s, e).server.Up? && Against(e, f)
    ensures Announced(Next(mode, s, e).past, f, false)
  {
    hide ServerInv, AfterAck, AfterVote, Announced, Broadcast, Kept, Logged, Sent, Composed;
    var c := s.server.memory.table[f];
    FileNameOf(s, f);
    var nothing: seq<Effect> := [];
    assert nothing + [Log(Decided(f, false, []))] == [Log(Decided(f, false, []))];
    var order := e.order;
    var m := s.server.memory;
    var s' := Next(mode, s, e);
    DecisionSent(s, s', f, false, s'.server.memory, order);
  }

  lemma FileNameOf(s: State, f: string)
    requires ServerInv(s) && Open(s, f)
    ensures var c := s.server.memory.table[f];
            c.fileName == f && f in s.past.started && c.userSet == Users(s.past.started[f])
            && c.sources == s.past.started[f]
  {
    SS.KnownCoord(s, f);
  }

  lemma YesEvent(mode: P.Tokens, s: State, e: Event, f: string)
    requires ServerInv(s) && Open(s, f) && Enabled(s, e) && Next(mode, s, e).server.Up? && YesOf(e, f) != {}
    ensures var s' := Next(mode, s, e);
            if Awaited(s, f) <= YesOf(e, f) then Announced(s'.past, f, true)
            else Open(s', f) && Awaited(s', f) == Awaited(s, f) - YesOf(e, f)
  {
    hide ServerInv, AfterAck, AfterVote, Announced, Broadcast, Kept, Logged, Sent, Composed, Unheard;
    var c := s.server.memory.table[f];
    FileNameOf(s, f);
    SomeoneUnheard(c);
    VoteProgress(c, e.message.from);
    VoteKeeps(c, e.message.from);
    var s' := Next(mode, s, e);
    if AfterVote(c, e.message.from).1 {
      var r := Decided(f, true, c.sources);
      assert [Compose(f)] + [Log(r)] == [Compose(f), Log(r)];
      DecisionSent(s, s', f, true, s'.server.memory, e.order);
    }
  }

  /** Each yes vote is counted and kept, the last one approves the collage, and
      whatever speaks against it aborts it; nothing else decides. */
  lemma PollEvent(mode: P.Tokens, s: State, e: Event, f: string)
    requires ServerInv(s) && Open(s, f) && Enabled(s, e) && Next(mode, s, e).server.Up?
    ensures var s' := Next(mode, s, e);
            if Against(e, f) then Announced(s'.past, f, false)
            else if Awaited(s, f) <= YesOf(e, f) then Announced(s'.past, f, true)
            else Open(s', f) && Awaited(s', f) == Awaited(s, f) - YesOf(e, f)
  {
    hide ServerInv, Enabled, Next, Announced, Unheard;
    if Against(e, f) {
      AgainstEvent(mode, s, e, f);
    } else if YesOf(e, f) != {} {
      YesEvent(mode, s, e, f);
    } else {
      OtherEvent(mode, s, e, f);
      SomeoneAwaited(s, f);
    }
  }

  lemma SomeoneAwaited(s: State, f: string)
    requires Open(s, f)
    ensures exists v :: v in Awaited(s, f)
  {
    SomeoneUnheard(s.server.memory.table[f]);
    var v :| v in Unheard(s.server.memory.table[f]);
    assert v in Awaited(s, f);
  }

  // ----- a decision is for good -----

  lemma {:induction false} VerdictStays(log: seq<ServerRecord>, more: seq<ServerRecord>, f: string)
    requires SL.LogOk(log + more) && SL.Latest(log, f).Some? && !SL.Latest(log, f).value.StartCommit?
    ensures SL.Latest(log + more, f).Some? && !SL.Latest(log + more, f).value.StartCommit?
    ensures SL.Verdict(log + more, f) == SL.Verdict(log, f)
  {
    hide SL.LogOk, SL.Latest, SL.Verdict;
    if more == [] {
      assert log + more == log;
    } else {
      var rest, r := more[..|more| - 1], more[|more| - 1];
      assert log + more == log + rest + [r];
      SL.LogOkSnoc(log + rest, r);
      VerdictStays(log, rest, f);
      SL.ReadSnoc(log + rest, r, f);
    }
  }

  lemma SettledStays(mode: P.Tokens, s: State, e: Event, f: string, d: bool)
    requires Inv(mode, s) && Enabled(s, e) && Settled(s.past, f, d)
    ensures Settled(Next(mode, s, e).past, f, d)
  {
    hide Next, Enabled, SL.Latest, SL.Verdict;
    CT.StepKeepsInv(mode, s, e);
    LogGrows(mode, s, e);
    var log, log' := s.past.slog, Next(mode, s, e).past.slog;
    assert log' == log + log'[|log|..];
    VerdictStays(log, log'[|log|..], f);
  }

  /** Crashes and recoveries do not change a logged decision. */
  lemma {:induction false} SettledRemains(mode: P.Tokens, s: State, events: seq<Event>, f: string, d: bool)
    requires Inv(mode, s) && Runs(mode, s, events) && Settled(s.past, f, d)
    ensures Settled(Final(mode, s, events).past, f, d)
    decreases |events|
  {
    hide Inv, Next, Enabled, Settled;
    if events != [] {
      CT.StepKeepsInv(mode, s, events[0]);
      SettledStays(mode, s, events[0], f, d);
      SettledRemains(mode, Next(mode, s, events[0]), events[1..], f, d);
    }
  }

  // ----- whole runs -----

  lemma OpenUnsettled(s: State, f: string, d: bool)
    requires ServerInv(s) && Open(s, f)
    ensures !Settled(s.past, f, d)
  {
    SS.KnownCoord(s, f);
  }

  /** At the end of any run without a server crash the collage is approved
      exactly if the missing votes came in before anything against it, aborted
      exactly if something against it came first, and otherwise still misses the
      votes that did not come. */
  lemma {:induction false} DecidedExactly(mode: P.Tokens, s: State, events: seq<Event>, f: string)
    requires Inv(mode, s) && Open(s, f) && Runs(mode, s, events) && StaysUp(mode, s, events)
    ensures var s', passes := Final(mode, s, events), Passes(Awaited(s, f), events, f);
            && (Settled(s'.past, f, true) <==> passes)
            && (Settled(s'.past, f, false) <==> !passes && Opposed(events, f))
            && (!passes && !Opposed(events, f) ==>
                  Open(s', f) && Awaited(s', f) == Awaited(s, f) - YesIn(events, f))
    decreases |events|
  {
    hide Next, Enabled, ServerInv, NodesInv, Unheard, Against, YesOf, SL.Latest, SL.Verdict;
    OpenUnsettled(s, f, true);
    OpenUnsettled(s, f, false);
    SomeoneAwaited(s, f);
    if events != [] {
      var e, rest := events[0], events[1..];
      var s1 := Next(mode, s, e);
      CT.StepKeepsInv(mode, s, e);
      PollEvent(mode, s, e, f);
      OpposedHead(events, f);
      if Against(e, f) {
        SettledRemains(mode, s1, rest, f, false);
      } else if Awaited(s, f) <= YesOf(e, f) {
        assert Awaited(s, f) - YesOf(e, f) == {};
        SettledRemains(mode, s1, rest, f, true);
      } else {
        DecidedExactly(mode, s1, rest, f);
      }
    }
  }

  lemma OpposedHead(events: seq<Event>, f: string)
    requires events != []
    ensures Opposed(events, f) <==> Against(events[0], f) || Opposed(events[1..], f)
  {
    assert events == [events[0]] + events[1..];
  }

  /** Without a no vote or a timeout, approval is a matter of the yes votes. */
  lemma ApprovedExactly(mode: P.Tokens, s: State, events: seq<Event>, f: string)
    requires Inv(mode, s) && Open(s, f) && Runs(mode, s, events) && StaysUp(mode, s, events)
    requires !Opposed(events, f)
    ensures Settled(Final(mode, s, events).past, f, true) <==> Awaited(s, f) <= YesIn(events, f)
  {
    DecidedExactly(mode, s, events, f);
    UnopposedPasses(Awaited(s, f), events, f);
  }

  // ----- undecided collages of reachable states are open -----

  ghost predicate VotesOk(s: State) {
    s.server.Up? ==>
      forall f :: f in s.server.memory.active && f in s.server.memory.table ==> PollOk(s.server.memory.table[f])
  }

  predicate PollOk(c: Coord) {
    !c.decisionMade && c.userSet != {} ==> c.voteSet < c.userSet
  }

  lemma DispatchPolls(c: Coord, m: Message, order: seq<string>)
    requires (m.Vote? || m.Ack?) && PollOk(c)
    ensures PollOk(OnMessage(c, m, order).0)
  {
    hide Broadcast;
    if m.Vote? && Polling(c) {
      VoteProgress(c, m.from);
    }
  }

  lemma EventPolls(mode: P.Tokens, s: State, e: Event)
    requires ServerInv(s) && VotesOk(s) && Enabled(s, e)
    ensures VotesOk(Next(mode, s, e))
  {
    hide Broadcast, CoordOk, RecordsOk, NetInv, Kept, Logged, Sent, Composed, CS.Recommit, SL.LogOk, OnMessage;
    match e
    case ToServer(m, order, cut) =>
      var f := m.fileName;
      if f in s.server.memory.active {
        DispatchPolls(s.server.memory.table[f], m, order);
      }
    case RecoverServer(files, orders, cut) =>
      SL.ReplayInvertsLogging(s.past.slog);
    case _ =>
  }

  lemma {:induction false} RunPolls(mode: P.Tokens, s: State, events: seq<Event>)
    requires Inv(mode, s) && VotesOk(s) && Runs(mode, s, events)
    ensures VotesOk(Final(mode, s, events))
    decreases |events|
  {
    hide ServerInv, NodesInv, Next, Enabled, VotesOk;
    if events != [] {
      EventPolls(mode, s, events[0]);
      CT.StepKeepsInv(mode, s, events[0]);
      RunPolls(mode, Next(mode, s, events[0]), events[1..]);
    }
  }

  /** In every reachable state, an undecided collage that receives messages is
      open, unless it has no participants at all. */
  lemma UndecidedOpen(mode: P.Tokens, s: State, f: string)
    requires Reachable(mode, s)
    requires s.server.Up? && f in s.server.memory.active && f in s.server.memory.table
    requires !s.server.memory.table[f].decisionMade && s.server.memory.table[f].userSet != {}
    ensures Inv(mode, s) && Open(s, f)
  {
    var s0, events :| Init(s0) && Runs(mode, s0, events) && Final(mode, s0, events) == s;
    CT.InitInv(mode, s0);
    RunPolls(mode, s0, events);
    CT.ReachableInv(mode, s);
  }

  /** A collage just started waits for everybody, and has a request for everybody. */
  lemma StartOpens(mode: P.Tokens, s: State, f: string, sources: seq<Source>)
    requires Enabled(s, Start(f, sources, Whole)) && sources != []
    ensures var s' := Next(mode, s, Start(f, sources, Whole));
            && Open(s', f) && Awaited(s', f) == Users(sources)
            && s'.server.memory.table[f].requests.Keys == Users(sources)
  {
    SourcePartition(sources);
    assert sources[0].user in Users(sources);
  }
}
