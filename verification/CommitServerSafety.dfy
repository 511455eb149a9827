/** The server half of the protocol invariant is kept by every step. */
module CommitServerSafety {
  import opened CommitTypes
  import opened Coordinator
  import opened CommitProtocol
  import SL = ServerLog
  import CS = CommitServer
  import P = Participant

  // ----- effect lists -----

  lemma LoggedHead(a: seq<Effect>)
    requires a != []
    ensures Logged(a) == Logged(a[..1]) + Logged(a[1..])
  {
    assert a[..1][0] == a[0] && a[..1][1..] == [];
  }

  lemma {:induction false} LoggedConcat(a: seq<Effect>, b: seq<Effect>)
    ensures Logged(a + b) == Logged(a) + Logged(b)
  {
    if a == [] {
      assert a + b == b;
    } else {
      hide Logged;
      LoggedConcat(a[1..], b);
      assert (a + b)[..1] == a[..1] && (a + b)[1..] == a[1..] + b;
      LoggedHead(a);
      LoggedHead(a + b);
    }
  }

  lemma {:induction false} NothingLogged(a: seq<Effect>)
    requires forall e :: e in a ==> !e.Log?
    ensures Logged(a) == []
  {
    if a != [] {
      NothingLogged(a[1..]);
    }
  }

  lemma KeptIsPrefix(effects: seq<Effect>, cut: Cut)
    ensures forall e :: e in Kept(effects, cut) ==> e in effects
    ensures Sent(Kept(effects, cut)) <= Sent(effects)
  {
  }

  lemma KeptSends(effects: seq<Effect>, cut: Cut)
    requires forall e :: e in effects ==> e.Send?
    ensures Logged(Kept(effects, cut)) == []
  {
    KeptIsPrefix(effects, cut);
    NothingLogged(Kept(effects, cut));
  }

  /** A handler that logs does so once, before its first message: a crash
      either precedes the record and every message, or follows the record. */
  lemma KeptLogsFirst(pre: seq<Effect>, r: ServerRecord, sends: seq<Effect>, cut: Cut)
    requires forall e :: e in pre ==> e.Compose?
    requires forall e :: e in sends ==> e.Send?
    ensures var kept := Kept(pre + [Log(r)] + sends, cut);
            || (cut.CrashAfter? && Logged(kept) == [] && Sent(kept) == {})
            || (Logged(kept) == [r] && Sent(kept) <= Sent(sends) && Composed(pre) <= Composed(kept))
  {
    var kept := Kept(pre + [Log(r)] + sends, cut);
    if |pre| < |kept| {
      var rest := kept[|pre| + 1..];
      assert kept == pre + ([Log(r)] + rest);
      assert forall e :: e in rest ==> e in sends;
      LoggedConcat(pre, [Log(r)] + rest);
      NothingLogged(pre);
      NothingLogged(rest);
      assert ([Log(r)] + rest)[1..] == rest;
      forall m | m in Sent(kept) ensures m in Sent(sends) {
        assert Send(m) in rest;
      }
      forall f | f in Composed(pre) ensures f in Composed(kept) {
        assert Compose(f) in kept;
      }
    } else {
      assert kept == pre[..|kept|];
      assert forall e :: e in kept ==> e in pre;
      NothingLogged(kept);
    }
  }

  /** Any messages in the effects are decisions saying `d` about `f`. */
  ghost predicate Announces(effects: seq<Effect>, f: string, d: bool) {
    forall e :: e in effects ==> e.Send? && e.message.Decision? && e.message.fileName == f && e.message.commit == d
  }

  lemma BroadcastAnnounces(f: string, d: bool, order: seq<string>, acked: set<string>)
    ensures Announces(Broadcast(f, d, order, acked), f, d)
  {
    BroadcastTargets(f, d, order, acked);
  }

  // ----- growing the network and the log -----

  /** Correct new messages keep what the network and the log say. */
  lemma NetGrows(p: Past, p': Past)
    requires NetInv(p) && LogInv(p)
    requires p'.slog == p.slog && p'.started == p.started && p.net <= p'.net
    requires p.composites <= p'.composites
    requires forall m :: m in p'.net && m !in p.net ==> MessageOk(m, p')
    ensures NetInv(p') && LogInv(p')
  {
    forall m | m in p'.net ensures MessageOk(m, p') {
      if m in p.net {
        assert MessageOk(m, p);
      }
    }
    forall f ensures RecordsOk(f, p') {
      assert RecordsOk(f, p);
    }
  }

  /** A record about one collage changes nothing the log says about others. */
  lemma LogGrows(p: Past, p': Past, r: ServerRecord)
    requires NetInv(p) && LogInv(p)
    requires p'.slog == p.slog + [r] && p'.started == p.started && p.net <= p'.net
    requires p.composites <= p'.composites
    requires SL.Follows(SL.Latest(p.slog, r.fileName), r)
    requires r.Decided? ==> forall u, d :: Decision(u, r.fileName, d) !in p.net
    requires forall m :: m in p'.net && m !in p.net ==> MessageOk(m, p')
    requires RecordsOk(r.fileName, p')
    ensures NetInv(p') && LogInv(p')
  {
    SL.LogOkSnoc(p.slog, r);
    forall m | m in p'.net ensures MessageOk(m, p') {
      if m in p.net {
        assert MessageOk(m, p);
        SL.ReadSnoc(p.slog, r, m.fileName);
      }
    }
    forall f ensures RecordsOk(f, p') {
      if f != r.fileName {
        assert RecordsOk(f, p);
        SL.ReadSnoc(p.slog, r, f);
      }
    }
  }

  lemma CoordKept(f: string, c: Coord, p: Past, p': Past)
    requires CoordOk(f, c, p)
    requires p.net <= p'.net
    requires f in p'.started && p'.started[f] == p.started[f]
    requires SL.Latest(p'.slog, f) == SL.Latest(p.slog, f) && SL.Verdict(p'.slog, f) == SL.Verdict(p.slog, f)
    requires !c.decisionMade ==> forall u, d :: Decision(u, f, d) in p'.net ==> Decision(u, f, d) in p.net
    ensures CoordOk(f, c, p')
  {
  }

  // ----- kinds of step -----

  /** A step that only sends: the messages are correct, and decisions concern
      collages that have decided. */
  lemma SendingStep(s: State, s': State, memory: CS.Memory, effects: seq<Effect>, cut: Cut)
    requires ServerInv(s) && s' == ServerStep(s, memory, effects, cut)
    requires forall e :: e in effects ==> e.Send?
    requires forall m :: m in Sent(effects) ==> !m.Ack? && MessageOk(m, s.past)
    requires MemoryOk(memory, s.past)
    requires forall m :: m in Sent(effects) && m.Decision? && m.fileName in memory.table ==>
                           memory.table[m.fileName].decisionMade
    ensures ServerInv(s')
  {
    KeptIsPrefix(effects, cut);
    KeptSends(effects, cut);
    assert s'.past.slog == s.past.slog;
    NetGrows(s.past, s'.past);
    forall f | f in memory.table ensures CoordOk(f, memory.table[f], s'.past) {
      CoordKept(f, memory.table[f], s.past, s'.past);
    }
  }

  /** A step that logs `r` and then announces the verdict it stands for. */
  lemma LoggingStep(s: State, s': State, memory: CS.Memory, pre: seq<Effect>, r: ServerRecord,
    sends: seq<Effect>, cut: Cut)
    requires ServerInv(s)
    requires s' == ServerStep(s, memory, pre + [Log(r)] + sends, cut)
    requires forall e :: e in pre ==> e.Compose?
    requires Announces(sends, r.fileName, SL.Verdict(s.past.slog + [r], r.fileName))
    requires r.fileName in s.past.started
    requires SL.Follows(SL.Latest(s.past.slog, r.fileName), r)
    requires r.Decided? ==> forall u, d :: Decision(u, r.fileName, d) !in s.past.net
    requires RecordsOk(r.fileName, s.past.(slog := s.past.slog + [r], composites := s.past.composites + Composed(pre)))
    requires MemoryOk(memory, s.past.(slog := s.past.slog + [r]))
    requires r.fileName in memory.table && memory.table[r.fileName].decisionMade
    ensures ServerInv(s')
  {
    KeptLogsFirst(pre, r, sends, cut);
    var kept := Kept(pre + [Log(r)] + sends, cut);
    if Logged(kept) == [] {
      assert s'.past.slog == s.past.slog;
      NetGrows(s.past, s'.past);
    } else {
      assert s'.past.slog == s.past.slog + [r];
      assert RecordsOk(r.fileName, s'.past);
      LogGrows(s.past, s'.past, r);
      forall f | f in memory.table ensures CoordOk(f, memory.table[f], s'.past) {
        CoordKept(f, memory.table[f], s.past.(slog := s.past.slog + [r]), s'.past);
      }
    }
  }

  /** Memory after a record about `f`: only `f` may have changed. */
  lemma MemoryKept(m: CS.Memory, m': CS.Memory, p: Past, r: ServerRecord)
    requires MemoryOk(m, p)
    requires m'.table.Keys == m.table.Keys + {r.fileName}
    requires forall f :: f in m.table && f != r.fileName ==> m'.table[f] == m.table[f]
    requires m'.active <= m.active + {r.fileName}
    requires CoordOk(r.fileName, m'.table[r.fileName], p.(slog := p.slog + [r]))
    requires r.Committed? ==> r.fileName !in m'.active
    ensures MemoryOk(m', p.(slog := p.slog + [r]))
  {
    var p' := p.(slog := p.slog + [r]);
    forall f | f in m'.table ensures CoordOk(f, m'.table[f], p') {
      if f != r.fileName {
        SL.ReadSnoc(p.slog, r, f);
        CoordKept(f, m.table[f], p, p');
      }
    }
    forall f | f in m'.active ensures f in m'.table && Unfinished(f, p') {
      SL.ReadSnoc(p.slog, r, f);
      if f != r.fileName {
        assert Unfinished(f, p);
      }
    }
  }

  // ----- the events -----

  lemma StartStep(mode: P.Tokens, s: State, f: string, sources: seq<Source>, cut: Cut)
    requires ServerInv(s) && Enabled(s, Start(f, sources, cut))
    ensures ServerInv(Next(mode, s, Start(f, sources, cut)))
  {
    var r := StartCommit(f, sources);
    var s' := Next(mode, s, Start(f, sources, cut));
    var p := s.past.(started := s.past.started[f := sources]);
    assert RecordsOk(f, s.past);
    StartedGrows(s.past, p, f);
    forall g | g in s.server.memory.table ensures CoordOk(g, s.server.memory.table[g], p) {
      CoordKept(g, s.server.memory.table[g], s.past, p);
    }
    KeptLogsFirst([], r, [], cut);
    assert [] + [Log(r)] + [] == [Log(r)];
    if Logged(Kept([Log(r)], cut)) == [] {
      assert s'.past == p;
    } else {
      assert s'.past == p.(slog := p.slog + [r]);
      SL.ReadSnoc(p.slog, r, f);
      SL.VerdictIsLatest(p.slog, f);
      LogGrows(p, s'.past, r);
      MemoryKept(s.server.memory, CS.AfterStart(s.server.memory, f, sources), p, r) by {
        StartedCoord(p, f, sources);
      }
    }
  }

  lemma StartedGrows(p: Past, p': Past, f: string)
    requires NetInv(p) && LogInv(p) && f !in p.started
    requires f in p'.started && p' == p.(started := p.started[f := p'.started[f]])
    ensures NetInv(p') && LogInv(p')
    ensures SL.Latest(p'.slog, f).None? && forall m :: m in p'.net ==> m.fileName != f
  {
    assert RecordsOk(f, p);
    forall m | m in p'.net ensures MessageOk(m, p') {
      assert MessageOk(m, p);
    }
    forall g ensures RecordsOk(g, p') {
      assert RecordsOk(g, p);
      SL.VerdictIsLatest(p.slog, g);
    }
  }

  lemma StartedCoord(p: Past, f: string, sources: seq<Source>)
    requires f in p.started && p.started[f] == sources
    requires SL.LogOk(p.slog) && SL.Latest(p.slog, f).None?
    requires forall u, d :: Decision(u, f, d) !in p.net
    ensures CoordOk(f, NewCoord(f, sources), p.(slog := p.slog + [StartCommit(f, sources)]))
  {
    SL.ReadSnoc(p.slog, StartCommit(f, sources), f);
    SourcePartition(sources);
    forall u | u in Requests(sources) ensures P.ToSet(Requests(sources)[u]) == ImagesOf(sources, u) {
      RequestImages(sources, u);
    }
  }

  lemma SendRequestStep(mode: P.Tokens, s: State, f: string, u: string)
    requires ServerInv(s) && Enabled(s, SendRequest(f, u))
    ensures ServerInv(Next(mode, s, SendRequest(f, u)))
  {
    var m := s.server.memory;
    var c := m.table[f];
    assert CoordOk(f, c, s.past);
    var m' := m.(table := m.table[f := c.(requests := c.requests - {u})]);
    forall g | g in m'.table ensures CoordOk(g, m'.table[g], s.past) {
      assert CoordOk(g, m.table[g], s.past);
    }
    SendingStep(s, Next(mode, s, SendRequest(f, u)), m', [Send(VoteRequest(u, f, c.requests[u]))], Whole);
  }

  /** Nothing is written or sent and only `f`'s counters change. */
  lemma SilentStep(s: State, s': State, f: string, c: Coord, cut: Cut)
    requires ServerInv(s) && s.server.Up?
    requires f in s.server.memory.table ==> CoordOk(f, c, s.past)
    requires var m := s.server.memory;
             s' == ServerStep(s, if f in m.table then m.(table := m.table[f := c]) else m, [], cut)
    ensures ServerInv(s')
  {
    var m := s.server.memory;
    var m' := if f in m.table then m.(table := m.table[f := c]) else m;
    forall g | g in m'.table ensures CoordOk(g, m'.table[g], s.past) {
      assert CoordOk(g, m.table[g], s.past);
    }
    SendingStep(s, s', m', [], cut);
  }

  lemma KnownCoord(s: State, f: string)
    requires ServerInv(s) && s.server.Up? && f in s.server.memory.table
    ensures CoordOk(f, s.server.memory.table[f], s.past) && RecordsOk(f, s.past)
    ensures f in s.server.memory.active ==> Unfinished(f, s.past)
  {
  }

  lemma AbortStep(s: State, s': State, f: string, order: seq<string>, cut: Cut)
    requires ServerInv(s) && s.server.Up? && f in s.server.memory.table
    requires !s.server.memory.table[f].decisionMade
    requires var m := s.server.memory;
             var result := Abort(m.table[f], order);
             s' == ServerStep(s, m.(table := m.table[f := result.0]), result.1, cut)
    ensures ServerInv(s')
  {
    hide MemoryOk, NetInv, LogInv, SL.Latest, SL.Verdict, SL.Participants, Broadcast, Logged, Kept, Sent, Composed;
    var m := s.server.memory;
    var c := m.table[f];
    KnownCoord(s, f);
    var r := Decided(f, false, []);
    var m' := m.(table := m.table[f := Abort(c, order).0]);
    var sends := Broadcast(f, false, order, c.ackSet);
    SL.ReadSnoc(s.past.slog, r, f);
    BroadcastAnnounces(f, false, order, c.ackSet);
    MemoryKept(m, m', s.past, r);
    assert [] + [Log(r)] + sends == [Log(r)] + sends;
    LoggingStep(s, s', m', [], r, sends, cut);
  }

  /** The size test of countVote means that everybody has voted yes. */
  lemma AllVoted(c: Coord, user: string, f: string, p: Past)
    requires CoordOk(f, c, p) && Vote(user, f, true) in p.net && AfterVote(c, user).1
    ensures forall u :: u in Users(p.started[f]) ==> Vote(u, f, true) in p.net
  {
    SubsetOfSameSize(c.voteSet + {user}, c.userSet);
    assert c.voteSet + {user} == c.userSet;
  }

  lemma ApproveStep(s: State, s': State, f: string, user: string, order: seq<string>, cut: Cut)
    requires ServerInv(s) && s.server.Up? && f in s.server.memory.table
    requires Vote(user, f, true) in s.past.net
    requires var c := s.server.memory.table[f];
             !c.decisionMade && AfterVote(c, user).1
    requires var m := s.server.memory;
             var result := Approve(AfterVote(m.table[f], user).0, order);
             s' == ServerStep(s, m.(table := m.table[f := result.0]), result.1, cut)
    ensures ServerInv(s')
  {
    hide MemoryOk, NetInv, LogInv, SL.Latest, SL.Verdict, SL.Participants, Broadcast, Logged, Kept, Sent, Composed;
    var m := s.server.memory;
    var c := m.table[f];
    KnownCoord(s, f);
    var r := Decided(f, true, c.sources);
    var result := Approve(AfterVote(c, user).0, order);
    var sends := Broadcast(f, true, order, c.ackSet);
    BroadcastAnnounces(f, true, order, c.ackSet);
    ApprovedPast(s.past, f, c, user);
    ApprovedMemory(s, f, c, user, order);
    assert [Compose(f)] + [Log(r)] + sends == result.1;
    LoggingStep(s, s', m.(table := m.table[f := result.0]), [Compose(f)], r, sends, cut);
  }

  lemma ApprovedPast(p: Past, f: string, c: Coord, user: string)
    requires LogInv(p) && CoordOk(f, c, p) && !c.decisionMade
    requires Vote(user, f, true) in p.net && AfterVote(c, user).1
    ensures var r := Decided(f, true, c.sources);
            && SL.Follows(SL.Latest(p.slog, f), r) && SL.Verdict(p.slog + [r], f)
            && RecordsOk(f, p.(slog := p.slog + [r], composites := p.composites + Composed([Compose(f)])))
  {
    AllVoted(c, user, f, p);
    SL.ReadSnoc(p.slog, Decided(f, true, c.sources), f);
    assert RecordsOk(f, p);
    assert Compose(f) in [Compose(f)];
  }

  lemma ApprovedMemory(s: State, f: string, c: Coord, user: string, order: seq<string>)
    requires ServerInv(s) && s.server.Up? && f in s.server.memory.table && c == s.server.memory.table[f]
    requires !c.decisionMade && AfterVote(c, user).1
    ensures var m := s.server.memory;
            var c' := Approve(AfterVote(c, user).0, order).0;
            MemoryOk(m.(table := m.table[f := c']), s.past.(slog := s.past.slog + [Decided(f, true, c.sources)]))
  {
    var m := s.server.memory;
    assert CoordOk(f, c, s.past);
    var r := Decided(f, true, c.sources);
    SL.ReadSnoc(s.past.slog, r, f);
    MemoryKept(m, m.(table := m.table[f := Approve(AfterVote(c, user).0, order).0]), s.past, r);
  }

  /** An acknowledged collage is decided. */
  lemma AckedDecided(s: State, f: string, user: string)
    requires ServerInv(s) && s.server.Up? && f in s.server.memory.table && Acked(s.past.net, user, f)
    ensures s.server.memory.table[f].decisionMade
  {
    assert CoordOk(f, s.server.memory.table[f], s.past);
    var d :| Ack(user, f, d) in s.past.net;
    assert MessageOk(Ack(user, f, d), s.past);
  }

  lemma FinishStep(s: State, s': State, f: string, user: string, cut: Cut)
    requires ServerInv(s) && s.server.Up? && f in s.server.memory.active
    requires exists d :: Ack(user, f, d) in s.past.net
    requires f in s.server.memory.table && AfterAck(s.server.memory.table[f], user).1
    requires var m := s.server.memory;
             s' == ServerStep(s, CS.Memory(m.table[f := AfterAck(m.table[f], user).0], m.active - {f}),
                              [Log(Committed(f))], cut)
    ensures ServerInv(s')
  {
    hide MemoryOk, NetInv, LogInv, SL.Latest, SL.Verdict, SL.Participants, Broadcast, Logged, Kept, Sent, Composed;
    var m := s.server.memory;
    var c := m.table[f];
    KnownCoord(s, f);
    AckedDecided(s, f, user);
    SubsetOfSameSize(c.ackSet + {user}, c.userSet);
    assert c.ackSet + {user} == c.userSet;
    var r := Committed(f);
    var m' := CS.Memory(m.table[f := AfterAck(c, user).0], m.active - {f});
    SL.ReadSnoc(s.past.slog, r, f);
    forall u | u in Users(s.past.started[f]) ensures Acked(s.past.net, u, f) {
      assert u in c.ackSet || u == user;
    }
    var c' := AfterAck(c, user).0;
    assert CoordOk(f, c', s.past.(slog := s.past.slog + [r]));
    MemoryKept(m, m', s.past, r);
    assert [] + [Log(r)] + [] == [Log(r)];
    LoggingStep(s, s', m', [], r, [], cut);
  }

  lemma AckKeepsEntry(f: string, c: Coord, user: string, p: Past)
    requires CoordOk(f, c, p) && !AfterAck(c, user).1 && (user in c.userSet ==> Acked(p.net, user, f))
    ensures CoordOk(f, AfterAck(c, user).0, p)
  {
  }

  lemma AckArrives(mode: P.Tokens, s: State, msg: Message, order: seq<string>, cut: Cut)
    requires ServerInv(s) && Enabled(s, ToServer(msg, order, cut))
    requires msg.Ack? && msg.fileName in s.server.memory.active
    ensures ServerInv(Next(mode, s, ToServer(msg, order, cut)))
  {
    var f := msg.fileName;
    var c := s.server.memory.table[f];
    var s' := Next(mode, s, ToServer(msg, order, cut));
    KnownCoord(s, f);
    hide AfterAck, ServerInv, SL.Latest, SL.Verdict, Logged, Kept, Sent, Composed;
    if AfterAck(c, msg.from).1 {
      FinishStep(s, s', f, msg.from, cut);
    } else {
      assert s.server.memory == CS.Memory(s.server.memory.table, s.server.memory.active);
      AckKeepsEntry(f, c, msg.from, s.past);
      SilentStep(s, s', f, AfterAck(c, msg.from).0, cut);
    }
  }

  lemma VoteArrives(mode: P.Tokens, s: State, msg: Message, order: seq<string>, cut: Cut)
    requires ServerInv(s) && Enabled(s, ToServer(msg, order, cut))
    requires !msg.Ack? && msg.fileName in s.server.memory.active
    ensures ServerInv(Next(mode, s, ToServer(msg, order, cut)))
  {
    var f := msg.fileName;
    var c := s.server.memory.table[f];
    var s' := Next(mode, s, ToServer(msg, order, cut));
    assert CoordOk(f, c, s.past);
    if c.decisionMade {
      SilentStep(s, s', f, c, cut);
    } else if !msg.yes {
      AbortStep(s, s', f, order, cut);
    } else if AfterVote(c, msg.from).1 {
      ApproveStep(s, s', f, msg.from, order, cut);
    } else {
      SilentStep(s, s', f, AfterVote(c, msg.from).0, cut);
    }
  }

  lemma ToServerStep(mode: P.Tokens, s: State, msg: Message, order: seq<string>, cut: Cut)
    requires ServerInv(s) && Enabled(s, ToServer(msg, order, cut))
    ensures ServerInv(Next(mode, s, ToServer(msg, order, cut)))
  {
    if msg.fileName !in s.server.memory.active {
      SendingStep(s, Next(mode, s, ToServer(msg, order, cut)), s.server.memory, [], cut);
    } else if msg.Ack? {
      AckArrives(mode, s, msg, order, cut);
    } else {
      VoteArrives(mode, s, msg, order, cut);
    }
  }

  lemma VoteTimerStep(mode: P.Tokens, s: State, f: string, order: seq<string>, cut: Cut)
    requires ServerInv(s) && Enabled(s, VoteTimer(f, order, cut))
    ensures ServerInv(Next(mode, s, VoteTimer(f, order, cut)))
  {
    var c := s.server.memory.table[f];
    var s' := Next(mode, s, VoteTimer(f, order, cut));
    assert CoordOk(f, c, s.past);
    if c.decisionMade {
      SilentStep(s, s', f, c, cut);
    } else {
      AbortStep(s, s', f, order, cut);
    }
  }

  lemma AckTimerStep(mode: P.Tokens, s: State, f: string, order: seq<string>, cut: Cut)
    requires ServerInv(s) && Enabled(s, AckTimer(f, order, cut))
    ensures ServerInv(Next(mode, s, AckTimer(f, order, cut)))
  {
    var m := s.server.memory;
    var c := m.table[f];
    assert CoordOk(f, c, s.past);
    assert c.(decisionMade := true) == c;
    assert m.(table := m.table[f := c]) == m;
    BroadcastAnnounces(f, c.finalDecision, order, c.ackSet);
    SendingStep(s, Next(mode, s, AckTimer(f, order, cut)), m,
                Broadcast(f, c.finalDecision, order, c.ackSet), cut);
  }

  /** The table rebuilt from the log at any moment satisfies the invariant. */
  lemma ReplayedMemoryOk(p: Past)
    requires NetInv(p) && LogInv(p)
    ensures MemoryOk(CS.Memory(SL.Replay(p.slog), SL.Replay(p.slog).Keys), p)
    ensures forall f :: f in SL.Replay(p.slog) ==>
              SL.Replay(p.slog)[f].decisionMade && SL.Replay(p.slog)[f].finalDecision == SL.Verdict(p.slog, f)
  {
    var table := SL.Replay(p.slog);
    SL.ReplayInvertsLogging(p.slog);
    forall f | f in table ensures CoordOk(f, table[f], p) && Unfinished(f, p) {
      SL.ReplayVerdict(p.slog, f);
      assert RecordsOk(f, p) && SL.Restored(p.slog, f, table[f]);
    }
  }

  lemma RecoverServerStep(mode: P.Tokens, s: State, files: seq<string>, orders: map<string, seq<string>>, cut: Cut)
    requires ServerInv(s) && Enabled(s, RecoverServer(files, orders, cut))
    ensures ServerInv(Next(mode, s, RecoverServer(files, orders, cut)))
  {
    var table := SL.Replay(s.past.slog);
    var effects := CS.Recommit(table, files, orders);
    ReplayedMemoryOk(s.past);
    RecommitOk(s.past, files, orders);
    SendingStep(s, Next(mode, s, RecoverServer(files, orders, cut)), CS.Memory(table, table.Keys), effects, cut);
  }

  lemma RecommitOk(p: Past, files: seq<string>, orders: map<string, seq<string>>)
    requires NetInv(p) && LogInv(p)
    requires CS.RecommitOrders(SL.Replay(p.slog), SL.Replay(p.slog).Keys, files, orders)
    ensures forall e :: e in CS.Recommit(SL.Replay(p.slog), files, orders) ==>
              e.Send? && e.message.Decision? && MessageOk(e.message, p)
  {
    var table := SL.Replay(p.slog);
    ReplayedMemoryOk(p);
    CS.RecommitSends(table, files, orders);
    forall e | e in CS.Recommit(table, files, orders) ensures MessageOk(e.message, p) {
      assert CoordOk(e.message.fileName, table[e.message.fileName], p);
    }
  }

  /** Participants only add votes for known collages and acks of real decisions. */
  lemma NodeSends(s: State, s': State)
    requires ServerInv(s)
    requires s'.server == s.server && s'.past == s.past.(net := s'.past.net)
    requires s.past.net <= s'.past.net
    requires forall m :: m in s'.past.net && m !in s.past.net ==> !m.Decision? && MessageOk(m, s.past)
    ensures ServerInv(s')
  {
    forall m | m in s'.past.net && m !in s.past.net ensures MessageOk(m, s'.past) {
      assert MessageOk(m, s.past);
    }
    NetGrows(s.past, s'.past);
    if s.server.Up? {
      var m := s.server.memory;
      forall f | f in m.table ensures CoordOk(f, m.table[f], s'.past) {
        CoordKept(f, m.table[f], s.past, s'.past);
      }
    }
  }
}
