/** When a composite file can be there without a logged approval: exactly after
    a crash between the two statements that write them. */
module CompositeFiles {
  import opened CommitTypes
  import opened Coordinator
  import opened CommitProtocol
  import SL = ServerLog
  import CS = CommitServer
  import P = Participant
  import SS = CommitServerSafety
  import CT = CommitTheorems

  /** The composite exists, and the log does not say approved. */
  ghost predicate Orphan(f: string, p: Past) {
    f in p.composites && !SL.Verdict(p.slog, f)
  }

  ghost predicate HasOrphan(s: State) {
    exists f :: Orphan(f, s.past)
  }

  /** The yes vote that completes an undecided collage. */
  ghost predicate Approves(s: State, e: Event) {
    && e.ToServer? && e.message.Vote? && e.message.yes
    && s.server.Up? && e.message.fileName in s.server.memory.active && e.message.fileName in s.server.memory.table
    && var c := s.server.memory.table[e.message.fileName];
       !c.decisionMade && AfterVote(c, e.message.from).1
  }

  /** ... and the server dies with the file written and the record not. */
  ghost predicate HalfCommits(s: State, e: Event) {
    Approves(s, e) && e.cut == CrashAfter(1)
  }

  // ----- what one event does to files and verdicts -----

  /** No file, and no record that changes a verdict. */
  ghost predicate Quiet(effects: seq<Effect>, log: seq<ServerRecord>) {
    forall e :: e in effects ==>
      && !e.Compose?
      && (e.Log? && e.record.Decided? ==> !e.record.commit && !SL.Verdict(log, e.record.fileName))
  }

  ghost predicate SameVerdicts(log: seq<ServerRecord>, log': seq<ServerRecord>) {
    forall f :: SL.Verdict(log', f) == SL.Verdict(log, f)
  }

  lemma {:induction false} QuietLogged(log: seq<ServerRecord>, effects: seq<Effect>)
    requires Quiet(effects, log)
    ensures SameVerdicts(log, log + Logged(effects))
    decreases |effects|
  {
    hide SL.Verdict;
    if effects == [] {
      assert log + [] == log;
    } else {
      var last := if effects[0].Log? then [effects[0].record] else [];
      QuietHead(log, effects);
      QuietLogged(log + last, effects[1..]);
      assert log + Logged(effects) == log + last + Logged(effects[1..]);
    }
  }

  lemma QuietHead(log: seq<ServerRecord>, effects: seq<Effect>)
    requires effects != [] && Quiet(effects, log)
    ensures var last := if effects[0].Log? then [effects[0].record] else [];
            SameVerdicts(log, log + last) && Quiet(effects[1..], log + last)
  {
    hide SL.Verdict;
    if effects[0].Log? {
      forall f ensures SL.Verdict(log + [effects[0].record], f) == SL.Verdict(log, f) {
        SL.ReadSnoc(log, effects[0].record, f);
      }
    } else {
      assert log + [] == log;
    }
  }

  lemma QuietStep(s: State, memory: CS.Memory, effects: seq<Effect>, cut: Cut)
    requires Quiet(effects, s.past.slog)
    ensures var s' := ServerStep(s, memory, effects, cut);
            s'.past.composites == s.past.composites && SameVerdicts(s.past.slog, s'.past.slog)
  {
    SS.KeptIsPrefix(effects, cut);
    QuietLogged(s.past.slog, Kept(effects, cut));
  }

  lemma UndecidedVerdict(s: State, f: string)
    requires ServerInv(s) && s.server.Up? && f in s.server.memory.table && !s.server.memory.table[f].decisionMade
    ensures !SL.Verdict(s.past.slog, f)
  {
    assert CoordOk(f, s.server.memory.table[f], s.past);
    SL.VerdictIsLatest(s.past.slog, f);
  }

  lemma AbortQuiet(s: State, f: string, order: seq<string>)
    requires ServerInv(s) && s.server.Up? && f in s.server.memory.table && !s.server.memory.table[f].decisionMade
    ensures Quiet(Abort(s.server.memory.table[f], order).1, s.past.slog)
  {
    var c := s.server.memory.table[f];
    assert CoordOk(f, c, s.past);
    UndecidedVerdict(s, f);
    SS.BroadcastAnnounces(f, false, order, c.ackSet);
  }

  lemma DispatchQuiet(mode: P.Tokens, s: State, m: Message, order: seq<string>, cut: Cut)
    requires ServerInv(s) && Enabled(s, ToServer(m, order, cut)) && !Approves(s, ToServer(m, order, cut))
    ensures Quiet(CS.Dispatched(s.server.memory, m, order).1, s.past.slog)
  {
    var f := m.fileName;
    if f in s.server.memory.active && m.Vote? && !m.yes && !s.server.memory.table[f].decisionMade {
      AbortQuiet(s, f, order);
    }
  }

  lemma TimersQuiet(s: State, f: string, order: seq<string>)
    requires ServerInv(s) && s.server.Up? && f in s.server.memory.table
    ensures Quiet(OnVoteTimeout(s.server.memory.table[f], order).1, s.past.slog)
    ensures Quiet(OnAckTimeout(s.server.memory.table[f], order).1, s.past.slog)
  {
    var c := s.server.memory.table[f];
    SS.BroadcastAnnounces(c.fileName, c.finalDecision, order, c.ackSet);
    if !c.decisionMade {
      AbortQuiet(s, f, order);
    }
  }

  /** Only an approval touches a composite or a verdict. */
  lemma OthersQuiet(mode: P.Tokens, s: State, e: Event)
    requires ServerInv(s) && Enabled(s, e) && !Approves(s, e)
    ensures Next(mode, s, e).past.composites == s.past.composites
    ensures SameVerdicts(s.past.slog, Next(mode, s, e).past.slog)
  {
    var past := s.past;
    match e
    case Start(f, sources, cut) =>
      QuietStep(s, CS.AfterStart(s.server.memory, f, sources), [Log(StartCommit(f, sources))], cut);
    case SendRequest(f, u) =>
      var c := s.server.memory.table[f];
      QuietStep(s, s.server.memory.(table := s.server.memory.table[f := c.(requests := c.requests - {u})]),
                [Send(VoteRequest(u, f, c.requests[u]))], Whole);
    case ToServer(m, order, cut) =>
      DispatchQuiet(mode, s, m, order, cut);
      var result := CS.Dispatched(s.server.memory, m, order);
      QuietStep(s, result.0, result.1, cut);
    case VoteTimer(f, order, cut) =>
      TimersQuiet(s, f, order);
      var result := OnVoteTimeout(s.server.memory.table[f], order);
      QuietStep(s, s.server.memory.(table := s.server.memory.table[f := result.0]), result.1, cut);
    case AckTimer(f, order, cut) =>
      TimersQuiet(s, f, order);
      var result := OnAckTimeout(s.server.memory.table[f], order);
      QuietStep(s, s.server.memory.(table := s.server.memory.table[f := result.0]), result.1, cut);
    case RecoverServer(files, orders, cut) =>
      SS.RecommitOk(s.past, files, orders);
      var table := SL.Replay(s.past.slog);
      QuietStep(s, CS.Memory(table, table.Keys), CS.Recommit(table, files, orders), cut);
    case _ =>
  }

  /** How far an approval gets before a crash. */
  lemma ApprovalFiles(mode: P.Tokens, s: State, e: Event)
    requires ServerInv(s) && Enabled(s, e) && Approves(s, e)
    ensures var f, p, p' := e.message.fileName, s.past, Next(mode, s, e).past;
            && !SL.Verdict(p.slog, f)
            && (e.cut == CrashAfter(0) ==> p'.composites == p.composites)
            && (e.cut != CrashAfter(0) ==> p'.composites == p.composites + {f})
            && (e.cut == CrashAfter(0) || e.cut == CrashAfter(1) ==> p'.slog == p.slog)
            && (e.cut != CrashAfter(0) && e.cut != CrashAfter(1) ==>
                  p'.slog == p.slog + [Decided(f, true, s.server.memory.table[f].sources)])
  {
    hide Kept, Logged, Composed, Sent, Broadcast, SL.Verdict, SL.Latest, RecordsOk, NetInv, LogInv;
    var f := e.message.fileName;
    var c := s.server.memory.table[f];
    UndecidedVerdict(s, f);
    assert CoordOk(f, c, s.past);
    ApprovalEffects(c, e.message, e.order);
    ApprovalKept(f, Decided(f, true, c.sources), Broadcast(f, true, e.order, c.ackSet), e.cut);
    assert s.past.slog + [] == s.past.slog;
    assert s.past.composites + {} == s.past.composites;
  }

  lemma ApprovalEffects(c: Coord, m: Message, order: seq<string>)
    requires m.Vote? && m.yes && !c.decisionMade && AfterVote(c, m.from).1
    ensures OnMessage(c, m, order).1
         == [Compose(c.fileName)] + [Log(Decided(c.fileName, true, c.sources))]
            + Broadcast(c.fileName, true, order, c.ackSet)
    ensures forall e :: e in Broadcast(c.fileName, true, order, c.ackSet) ==> e.Send?
  {
    SS.BroadcastAnnounces(c.fileName, true, order, c.ackSet);
  }

  lemma ApprovalKept(f: string, r: ServerRecord, sends: seq<Effect>, cut: Cut)
    requires forall e :: e in sends ==> e.Send?
    ensures var kept := Kept([Compose(f)] + [Log(r)] + sends, cut);
            && Composed(kept) == (if cut == CrashAfter(0) then {} else {f})
            && Logged(kept) == (if cut == CrashAfter(0) || cut == CrashAfter(1) then [] else [r])
  {
    hide Logged;
    var effects := [Compose(f)] + [Log(r)] + sends;
    var kept := Kept(effects, cut);
    if cut == CrashAfter(0) {
      assert kept == [];
      SS.NothingLogged(kept);
    } else if cut == CrashAfter(1) {
      assert kept == [Compose(f)];
      assert Compose(f) in kept;
      SS.NothingLogged(kept);
    } else {
      var rest := kept[2..];
      assert kept == [Compose(f)] + ([Log(r)] + rest);
      assert forall e :: e in rest ==> e in sends;
      FileThenRecord(f, r, rest);
    }
  }

  lemma FileThenRecord(f: string, r: ServerRecord, sends: seq<Effect>)
    requires forall e :: e in sends ==> e.Send?
    ensures var kept := [Compose(f)] + ([Log(r)] + sends);
            Composed(kept) == {f} && Logged(kept) == [r]
  {
    var kept := [Compose(f)] + ([Log(r)] + sends);
    assert kept[1..] == [Log(r)] + sends && ([Log(r)] + sends)[1..] == sends;
    SS.NothingLogged(sends);
    assert Logged([Log(r)] + sends) == [r] + [];
    assert kept[0] == Compose(f);
    assert forall e :: e in kept && e.Compose? ==> e == Compose(f);
  }

  /** If every composite is approved so far, the next event leaves one that is
      not exactly when it is a half commit. */
  lemma CompositeStepExact(mode: P.Tokens, s: State, e: Event)
    requires Inv(mode, s) && Enabled(s, e) && !HasOrphan(s)
    ensures HasOrphan(Next(mode, s, e)) <==> HalfCommits(s, e)
  {
    hide Next, Enabled, CoordOk, RecordsOk, NodesInv, SL.Verdict, AfterVote;
    var p, p' := s.past, Next(mode, s, e).past;
    if Approves(s, e) {
      var f := e.message.fileName;
      ApprovalFiles(mode, s, e);
      if HalfCommits(s, e) {
        assert Orphan(f, p');
      } else {
        ApprovalVerdicts(mode, s, e);
        assert forall g :: Orphan(g, p') ==> Orphan(g, p);
      }
    } else {
      OthersQuiet(mode, s, e);
      assert forall g :: Orphan(g, p') ==> Orphan(g, p);
    }
  }

  /** An approval that is not a half commit leaves no composite unapproved. */
  lemma ApprovalVerdicts(mode: P.Tokens, s: State, e: Event)
    requires ServerInv(s) && Enabled(s, e) && Approves(s, e)
    ensures forall g :: g != e.message.fileName ==>
              SL.Verdict(Next(mode, s, e).past.slog, g) == SL.Verdict(s.past.slog, g)
    ensures !HalfCommits(s, e) && e.message.fileName in Next(mode, s, e).past.composites ==>
              e.message.fileName in s.past.composites || SL.Verdict(Next(mode, s, e).past.slog, e.message.fileName)
  {
    hide Next;
    ApprovalFiles(mode, s, e);
    if e.cut != CrashAfter(0) && e.cut != CrashAfter(1) {
      var r := Decided(e.message.fileName, true, s.server.memory.table[e.message.fileName].sources);
      forall g ensures g != r.fileName ==> SL.Verdict(s.past.slog + [r], g) == SL.Verdict(s.past.slog, g) {
        SL.ReadSnoc(s.past.slog, r, g);
      }
      SL.ReadSnoc(s.past.slog, r, r.fileName);
    }
  }

  // ----- over whole runs -----

  /** An orphan is settled: it was started, and no collage object that could
      still approve it is left. */
  ghost predicate Settled(s: State) {
    forall f :: Orphan(f, s.past) ==>
      f in s.past.started && (s.server.Up? && f in s.server.memory.table ==> s.server.memory.table[f].decisionMade)
  }

  /** A collage is undecided only if it was before, or has just been started. */
  ghost predicate StaysDecided(s: State, e: Event, s': State) {
    forall f :: s'.server.Up? && f in s'.server.memory.table && !s'.server.memory.table[f].decisionMade ==>
      || (s.server.Up? && f in s.server.memory.table && !s.server.memory.table[f].decisionMade)
      || (e.Start? && e.fileName == f)
  }

  lemma EventStaysDecided(mode: P.Tokens, s: State, e: Event)
    requires ServerInv(s) && Enabled(s, e)
    ensures StaysDecided(s, e, Next(mode, s, e))
    ensures forall f :: f in s.past.started ==> f in Next(mode, s, e).past.started
  {
    hide CoordOk, RecordsOk, NetInv, SL.Verdict, SL.Latest, SL.Participants, SL.LogOk, Kept, Logged, Sent, Composed,
      Broadcast, CS.Recommit;
    if e.RecoverServer? {
      SS.ReplayedMemoryOk(s.past);
    }
  }

  lemma EventSettled(mode: P.Tokens, s: State, e: Event)
    requires Inv(mode, s) && Settled(s) && Enabled(s, e)
    ensures Settled(Next(mode, s, e))
    ensures HasOrphan(s) ==> HasOrphan(Next(mode, s, e))
  {
    hide Next, Enabled, NetInv, LogInv, MemoryOk, NodesInv, SL.Verdict, AfterVote;
    var s' := Next(mode, s, e);
    EventStaysDecided(mode, s, e);
    if Approves(s, e) {
      ApprovalFiles(mode, s, e);
      ApprovalVerdicts(mode, s, e);
      ApprovalDecides(mode, s, e);
    } else {
      OthersQuiet(mode, s, e);
    }
    forall f | Orphan(f, s.past) ensures Orphan(f, s'.past) {
    }
    forall f | Orphan(f, s'.past)
      ensures f in s'.past.started
      ensures s'.server.Up? && f in s'.server.memory.table ==> s'.server.memory.table[f].decisionMade
    {
      if Orphan(f, s.past) {
        StartedIsNew(s, e);
      }
    }
  }

  lemma StartedIsNew(s: State, e: Event)
    requires Enabled(s, e)
    ensures e.Start? ==> e.fileName !in s.past.started
  {
  }

  lemma ApprovalDecides(mode: P.Tokens, s: State, e: Event)
    requires ServerInv(s) && Enabled(s, e) && Approves(s, e)
    ensures e.message.fileName in Next(mode, s, e).past.started
    ensures var s' := Next(mode, s, e);
            s'.server.Up? ==>
              && e.message.fileName in s'.server.memory.table
              && s'.server.memory.table[e.message.fileName].decisionMade
  {
    assert CoordOk(e.message.fileName, s.server.memory.table[e.message.fileName], s.past);
  }

  /** Some event of the run is a half commit. */
  ghost predicate EverHalfCommits(mode: P.Tokens, s: State, events: seq<Event>)
    requires Runs(mode, s, events)
    decreases |events|
  {
    events != [] && (HalfCommits(s, events[0]) || EverHalfCommits(mode, Next(mode, s, events[0]), events[1..]))
  }

  lemma {:induction false} RunOrphans(mode: P.Tokens, s: State, events: seq<Event>)
    requires Inv(mode, s) && Settled(s) && Runs(mode, s, events)
    ensures HasOrphan(Final(mode, s, events)) <==> HasOrphan(s) || EverHalfCommits(mode, s, events)
    decreases |events|
  {
    hide Next, Inv, Enabled, HalfCommits, Settled, HasOrphan;
    if events != [] {
      var e := events[0];
      CT.StepKeepsInv(mode, s, e);
      EventSettled(mode, s, e);
      if !HasOrphan(s) {
        CompositeStepExact(mode, s, e);
      }
      RunOrphans(mode, Next(mode, s, e), events[1..]);
    }
  }

  /** A run from the beginning leaves a composite without a logged approval
      exactly when, at some yes vote that completed an undecided collage, the
      server crashed right after writing the file. */
  lemma CompositeWithoutCommitExact(mode: P.Tokens, s0: State, events: seq<Event>)
    requires Init(s0) && Runs(mode, s0, events)
    ensures HasOrphan(Final(mode, s0, events)) <==> EverHalfCommits(mode, s0, events)
  {
    CT.InitInv(mode, s0);
    RunOrphans(mode, s0, events);
  }
}
