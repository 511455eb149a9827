/** What two-phase commit promises, over every run: any messages lost, delayed,
    duplicated or reordered, and any number of crashes at any statement. */
module CommitTheorems {
  import opened CommitTypes
  import opened Coordinator
  import opened CommitProtocol
  import SL = ServerLog
  import CS = CommitServer
  import P = Participant
  import SS = CommitServerSafety
  import NS = CommitNodeSafety

  ghost predicate ByServer(e: Event) {
    !e.ToNode? && !e.CrashNode? && !e.RecoverNode?
  }

  lemma ServerEventOk(mode: P.Tokens, s: State, e: Event)
    requires ServerInv(s) && ByServer(e) && Enabled(s, e)
    ensures ServerInv(Next(mode, s, e))
  {
    match e
    case Start(f, sources, cut) => SS.StartStep(mode, s, f, sources, cut);
    case SendRequest(f, u) => SS.SendRequestStep(mode, s, f, u);
    case ToServer(m, order, cut) => SS.ToServerStep(mode, s, m, order, cut);
    case VoteTimer(f, order, cut) => SS.VoteTimerStep(mode, s, f, order, cut);
    case AckTimer(f, order, cut) => SS.AckTimerStep(mode, s, f, order, cut);
    case CrashServer =>
    case RecoverServer(files, orders, cut) => SS.RecoverServerStep(mode, s, files, orders, cut);
  }

  /** The effects of a server event: records and composites apart, only vote
      requests and decisions. */
  ghost predicate ServerMessages(effects: seq<Effect>) {
    forall e :: e in effects && e.Send? ==> !e.message.Vote? && !e.message.Ack?
  }

  lemma HandlerMessages(c: Coord, m: Message, order: seq<string>)
    ensures m.Vote? || m.Ack? ==> ServerMessages(OnMessage(c, m, order).1)
    ensures ServerMessages(OnVoteTimeout(c, order).1)
    ensures ServerMessages(OnAckTimeout(c, order).1)
  {
    SS.BroadcastAnnounces(c.fileName, true, order, c.ackSet);
    SS.BroadcastAnnounces(c.fileName, false, order, c.ackSet);
  }

  ghost predicate LeavesNodes(s: State, s': State) {
    && s'.nodes == s.nodes && s'.origin == s.origin && s.past.net <= s'.past.net
    && (forall f :: f in s.past.started ==> f in s'.past.started && s'.past.started[f] == s.past.started[f])
    && (forall m :: m in s'.past.net && m !in s.past.net ==> !m.Vote? && !m.Ack?)
  }

  lemma ServerStepLeavesNodes(s: State, memory: CS.Memory, effects: seq<Effect>, cut: Cut)
    requires ServerMessages(effects)
    ensures LeavesNodes(s, ServerStep(s, memory, effects, cut))
  {
    SS.KeptIsPrefix(effects, cut);
  }

  lemma ServerEventSends(mode: P.Tokens, s: State, e: Event)
    requires ServerInv(s) && ByServer(e) && Enabled(s, e)
    ensures LeavesNodes(s, Next(mode, s, e))
  {
    match e
    case Start(f, sources, cut) =>
    case SendRequest(f, u) =>
    case ToServer(m, order, cut) =>
      var result := CS.Dispatched(s.server.memory, m, order);
      if m.fileName in s.server.memory.active {
        HandlerMessages(s.server.memory.table[m.fileName], m, order);
      }
      ServerStepLeavesNodes(s, result.0, result.1, cut);
    case VoteTimer(f, order, cut) =>
      var memory := s.server.memory;
      var result := OnVoteTimeout(memory.table[f], order);
      HandlerMessages(memory.table[f], Vote("", "", true), order);
      ServerStepLeavesNodes(s, memory.(table := memory.table[f := result.0]), result.1, cut);
    case AckTimer(f, order, cut) =>
      var memory := s.server.memory;
      var result := OnAckTimeout(memory.table[f], order);
      HandlerMessages(memory.table[f], Vote("", "", true), order);
      ServerStepLeavesNodes(s, memory.(table := memory.table[f := result.0]), result.1, cut);
    case CrashServer =>
    case RecoverServer(files, orders, cut) =>
      var table := SL.Replay(s.past.slog);
      SS.RecommitOk(s.past, files, orders);
      ServerStepLeavesNodes(s, CS.Memory(table, table.Keys), CS.Recommit(table, files, orders), cut);
  }

  lemma StepKeepsInv(mode: P.Tokens, s: State, e: Event)
    requires Inv(mode, s) && Enabled(s, e)
    ensures Inv(mode, Next(mode, s, e))
  {
    if ByServer(e) {
      ServerEventOk(mode, s, e);
      ServerEventSends(mode, s, e);
      NS.ServerStepKeepsNodes(mode, s, Next(mode, s, e));
    } else {
      match e
      case ToNode(u, m, answer, order, cut) => NS.ToNodeStep(mode, s, u, m, answer, order, cut);
      case CrashNode(u) => NS.CrashNodeStep(mode, s, u);
      case RecoverNode(u, order, cut) => NS.RecoverNodeStep(mode, s, u, order, cut);
    }
  }

  lemma InitInv(mode: P.Tokens, s: State)
    requires Init(s)
    ensures Inv(mode, s)
  {
  }

  lemma {:induction false} RunKeepsInv(mode: P.Tokens, s: State, events: seq<Event>)
    requires Inv(mode, s) && Runs(mode, s, events)
    ensures Inv(mode, Final(mode, s, events))
    decreases |events|
  {
    if events != [] {
      StepKeepsInv(mode, s, events[0]);
      RunKeepsInv(mode, Next(mode, s, events[0]), events[1..]);
    }
  }

  lemma ReachableInv(mode: P.Tokens, s: State)
    requires Reachable(mode, s)
    ensures Inv(mode, s)
  {
    var s0, events :| Init(s0) && Runs(mode, s0, events) && Final(mode, s0, events) == s;
    InitInv(mode, s0);
    RunKeepsInv(mode, s0, events);
  }

  // ----- atomic commitment -----

  ghost predicate Agreement(p: Past) {
    forall u, v, f, d, e :: Decision(u, f, d) in p.net && Decision(v, f, e) in p.net ==> d == e
  }

  /** Every member of the collage's user set sent a yes vote. */
  ghost predicate Unanimous(f: string, p: Past) {
    f in p.started && forall v :: v in Users(p.started[f]) ==> Vote(v, f, true) in p.net
  }

  /** The image belongs to a collage that was committed, unanimously. */
  ghost predicate Taken(u: string, image: string, p: Past) {
    exists f :: Unanimous(f, p) && SL.Verdict(p.slog, f) && Source(u, image) in p.started[f]
  }

  ghost predicate OnlyTakenImagesDeleted(s: State) {
    forall u, image :: u in s.nodes && u in s.origin && image in s.origin[u] && image !in s.nodes[u].disk ==>
      Taken(u, image, s.past)
  }

  lemma VerdictStarted(p: Past, f: string)
    requires LogInv(p) && SL.Verdict(p.slog, f)
    ensures Unanimous(f, p)
  {
    assert RecordsOk(f, p);
    SL.VerdictIsLatest(p.slog, f);
  }

  lemma SpentIsTaken(u: string, image: string, log: seq<UserRecord>, p: Past)
    requires NetInv(p) && LogInv(p) && Spent(u, image, log, p)
    ensures Taken(u, image, p)
  {
    var f :| f in Promises(log) && f in p.started && image in ImagesOf(p.started[f], u)
      && Decision(u, f, true) in p.net;
    assert MessageOk(Decision(u, f, true), p);
    VerdictStarted(p, f);
    assert Source(u, image) in p.started[f];
  }

  /** No two decisions about one collage ever disagree, and a participant
      deletes an image only for a collage that everyone voted for and the
      server's log committed. */
  lemma AtomicCommitment(mode: P.Tokens, s: State)
    requires Reachable(mode, s)
    ensures Agreement(s.past)
    ensures OnlyTakenImagesDeleted(s)
  {
    ReachableInv(mode, s);
    forall u, v, f, d, e | Decision(u, f, d) in s.past.net && Decision(v, f, e) in s.past.net ensures d == e {
      assert MessageOk(Decision(u, f, d), s.past) && MessageOk(Decision(v, f, e), s.past);
    }
    forall u, image | u in s.nodes && u in s.origin && image in s.origin[u] && image !in s.nodes[u].disk
      ensures Taken(u, image, s.past)
    {
      assert NodeInv(mode, u, s.nodes[u], s.origin[u], s.past);
      SpentIsTaken(u, image, s.nodes[u].log, s.past);
    }
  }

  /** Two collages that were both committed share no source. */
  lemma NoImageCommittedTwice(mode: P.Tokens, s: State, f: string, g: string)
    requires Reachable(mode, s)
    requires f != g && SL.Verdict(s.past.slog, f) && SL.Verdict(s.past.slog, g)
    ensures var p := s.past;
            && f in p.started && g in p.started
            && forall x :: x in p.started[f] ==> x !in p.started[g]
  {
    ReachableInv(mode, s);
    VerdictStarted(s.past, f);
    VerdictStarted(s.past, g);
    forall x | x in s.past.started[f] ensures x !in s.past.started[g] {
      if x in s.past.started[g] {
        SharedSourceExcluded(mode, s, f, g, x);
      }
    }
  }

  lemma SharedSourceExcluded(mode: P.Tokens, s: State, f: string, g: string, x: Source)
    requires Inv(mode, s) && f != g
    requires Unanimous(f, s.past) && Unanimous(g, s.past)
    requires x in s.past.started[f] && x in s.past.started[g]
    ensures !SL.Verdict(s.past.slog, f) || !SL.Verdict(s.past.slog, g)
  {
    var p, u := s.past, x.user;
    assert u in Users(p.started[f]) && u in Users(p.started[g]);
    assert NodeInv(mode, u, s.nodes[u], s.origin[u], p);
    assert x.image in ImagesOf(p.started[f], u) * ImagesOf(p.started[g], u);
    assert Exclusive(u, f, g, p);
    if Decision(u, f, false) in p.net {
      assert MessageOk(Decision(u, f, false), p);
    } else {
      assert MessageOk(Decision(u, g, false), p);
    }
  }

  // ----- crash safety of the server -----

  /** A replayed collage reaches the same users, and repeats only what has
      already been decided. */
  ghost predicate Resumes(f: string, c: Coord, p: Past) {
    && f in p.started && c.userSet == Users(p.started[f]) && c.decisionMade
    && forall u, d :: Decision(u, f, d) in p.net ==> d == c.finalDecision
  }

  /** Crash the server at any moment: what it rebuilds from its log agrees with
      every decision it ever sent. */
  lemma ServerCrashSafety(mode: P.Tokens, s: State)
    requires Reachable(mode, s)
    ensures var p := s.past;
            forall f :: f in SL.Replay(p.slog) ==> Resumes(f, SL.Replay(p.slog)[f], p)
  {
    ReachableInv(mode, s);
    var p := s.past;
    var table := SL.Replay(p.slog);
    SS.ReplayedMemoryOk(p);
    forall f | f in table ensures Resumes(f, table[f], p) {
      assert CoordOk(f, table[f], p);
      forall u, d | Decision(u, f, d) in p.net ensures d == table[f].finalDecision {
        assert MessageOk(Decision(u, f, d), p);
      }
    }
  }

  /** The log the server leaves behind always has the shape that replay inverts. */
  lemma ServerLogReplays(mode: P.Tokens, s: State)
    requires Reachable(mode, s)
    ensures var log := s.past.slog;
            && SL.LogOk(log)
            && (forall f :: f in SL.Replay(log) <==> SL.Latest(log, f).Some? && !SL.Latest(log, f).value.Committed?)
            && (forall f :: f in SL.Replay(log) ==> SL.Restored(log, f, SL.Replay(log)[f]))
  {
    ReachableInv(mode, s);
    SL.ReplayInvertsLogging(s.past.slog);
  }

  /** The log record is the commit point: it is never there without the
      composite file, which is written first. */
  lemma CommittedHasComposite(mode: P.Tokens, s: State, f: string)
    requires Reachable(mode, s)
    requires SL.Verdict(s.past.slog, f)
    ensures f in s.past.composites
  {
    ReachableInv(mode, s);
    assert RecordsOk(f, s.past);
  }

  // ----- completion -----

  /** When the log says a committed collage is finished, every participant has
      already deleted every one of its images. */
  lemma CompletionSoundness(mode: P.Tokens, s: State, f: string)
    requires Reachable(mode, s)
    requires SL.Latest(s.past.slog, f) == SL.Some(Committed(f))
    requires SL.Verdict(s.past.slog, f)
    ensures && f in s.past.started
            && forall x :: x in s.past.started[f] ==> x.user in s.nodes && x.image !in s.nodes[x.user].disk
  {
    ReachableInv(mode, s);
    VerdictStarted(s.past, f);
    forall x | x in s.past.started[f] ensures x.user in s.nodes && x.image !in s.nodes[x.user].disk {
      AckedImageGone(mode, s, f, x);
    }
  }

  lemma AckedImageGone(mode: P.Tokens, s: State, f: string, x: Source)
    requires Inv(mode, s) && f in s.past.started && x in s.past.started[f]
    requires SL.Latest(s.past.slog, f) == SL.Some(Committed(f)) && SL.Verdict(s.past.slog, f)
    ensures x.user in s.nodes && x.image !in s.nodes[x.user].disk
  {
    var p, u := s.past, x.user;
    assert RecordsOk(f, p) && u in Users(p.started[f]) && Acked(p.net, u, f);
    assert Ack(u, f, false) in p.net ==> MessageOk(Ack(u, f, false), p);
    assert Decision(u, f, false) in p.net ==> MessageOk(Decision(u, f, false), p);
    assert NodeInv(mode, u, s.nodes[u], s.origin[u], p);
    assert x.image in ImagesOf(p.started[f], u);
  }

  // ----- participant recovery -----

  /** The images a participant will not promise again. */
  ghost function Held(m: P.Memory): set<string> {
    m.used + (set f, image | f in m.locks && image in m.locks[f] :: image)
  }

  lemma VoteLocks(m: P.Memory, r: UserRecord)
    requires r.Voted?
    ensures P.ReplayRecord(m, r).used == m.used
    ensures P.ReplayRecord(m, r).locks.Keys == m.locks.Keys + (if r.yes then {r.fileName} else {})
  {
  }

  lemma {:induction false} VotesLock(log: seq<UserRecord>)
    ensures P.Replay(P.Votes(log)).used == {} && P.Replay(P.Votes(log)).locks.Keys == Promises(log)
  {
    if log == [] {
      assert P.Replay([]) == P.Blank;
    } else {
      hide P.Replay, P.ReplayRecord, Promises;
      var prefix, r := log[..|log| - 1], log[|log| - 1];
      VotesLock(prefix);
      assert log == prefix + [r];
      NS.PromisesSnoc(prefix, r);
      if r.Voted? {
        P.ReplaySnoc(P.Votes(prefix), r);
        VoteLocks(P.Replay(P.Votes(prefix)), r);
      } else {
        assert P.Votes(prefix) + [] == P.Votes(prefix);
      }
    }
  }

  /** Without matching tokens, replay locks every promise ever logged. */
  lemma AsWrittenKeepsPromises(u: string, log: seq<UserRecord>, p: Past)
    requires forall r :: r in log ==> UserRecordOk(P.AsWritten, u, r, p)
    ensures P.Replay(log).used == {} && P.Replay(log).locks.Keys == Promises(log)
  {
    forall r | r in log && r.Resolved? ensures exists commit :: r.token == P.DecisionToken(P.AsWritten, commit) {
      assert UserRecordOk(P.AsWritten, u, r, p);
    }
    P.AsWrittenIgnoresDecisions(log);
    VotesLock(log);
  }

  /** Replaying the whole log never frees an image that was held at the crash;
      with the corrected token it restores the memory exactly, and as written
      it does so exactly when every promise ever made is still locked. */
  lemma ConservativeRecovery(mode: P.Tokens, s: State, u: string)
    requires Reachable(mode, s)
    requires u in s.nodes && s.nodes[u].life.Running?
    ensures var n := s.nodes[u];
            && Held(n.life.memory) <= Held(P.Replay(n.log))
            && (mode.Matched? ==> P.Replay(n.log) == n.life.memory)
            && (mode.AsWritten? ==>
                  (P.Replay(n.log) == n.life.memory <==>
                     n.life.memory.used == {} && Promises(n.log) <= n.life.memory.locks.Keys))
  {
    ReachableInv(mode, s);
    var n := s.nodes[u];
    var m := n.life.memory;
    var m' := P.Replay(n.log);
    assert NodeInv(mode, u, n, s.origin[u], s.past);
    if mode.AsWritten? {
      RecoveredAsWritten(u, n, s.origin[u], s.past);
    }
  }

  lemma RecoveredAsWritten(u: string, n: Node, origin: set<string>, p: Past)
    requires NodeInv(P.AsWritten, u, n, origin, p) && n.life.Running?
    ensures Held(n.life.memory) <= Held(P.Replay(n.log))
    ensures P.Replay(n.log) == n.life.memory <==>
              n.life.memory.used == {} && Promises(n.log) <= n.life.memory.locks.Keys
  {
    hide P.Replay, Promises, Users;
    var m, m' := n.life.memory, P.Replay(n.log);
    AsWrittenKeepsPromises(u, n.log, p);
    NS.ReplaySound(P.AsWritten, u, n.log, p);
    forall image | image in Held(m) ensures image in Held(m') {
      if image in m.used {
        assert Spent(u, image, n.log, p);
        var f :| f in Promises(n.log) && f in p.started && image in ImagesOf(p.started[f], u);
        assert f in m'.locks && image in m'.locks[f];
      } else {
        var f :| f in m.locks && image in m.locks[f];
        assert f in m'.locks && image in m'.locks[f];
      }
    }
    if m.used == {} && Promises(n.log) <= m.locks.Keys {
      assert m.locks == m'.locks;
    }
  }
}
