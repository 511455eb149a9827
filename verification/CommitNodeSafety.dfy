/** The participant half of the protocol invariant is kept by every step. */
module CommitNodeSafety {
  import opened CommitTypes
  import opened Coordinator
  import opened CommitProtocol
  import SL = ServerLog
  import CS = CommitServer
  import P = Participant
  import SS = CommitServerSafety

  // ----- other participants and the server do not disturb a node -----

  /** A node's invariant survives any growth of the past that brings no new
      message from the node itself. */
  lemma NodeUndisturbed(mode: P.Tokens, u: string, n: Node, origin: set<string>, p: Past, p': Past)
    requires NodeInv(mode, u, n, origin, p)
    requires p.net <= p'.net
    requires forall f :: f in p.started ==> f in p'.started && p'.started[f] == p.started[f]
    requires forall f :: Vote(u, f, true) in p'.net ==> Vote(u, f, true) in p.net
    requires forall f :: Ack(u, f, true) in p'.net && f in p'.started ==> Ack(u, f, true) in p.net && f in p.started
    ensures NodeInv(mode, u, n, origin, p')
  {
    forall r | r in n.log ensures UserRecordOk(mode, u, r, p') {
      assert UserRecordOk(mode, u, r, p);
    }
    forall f | f in Promises(n.log) ensures f in p.started {
      PromiseRecord(n.log, f);
    }
    forall f, g | f in Promises(n.log) && g in Promises(n.log) ensures Exclusive(u, f, g, p') {
      assert Exclusive(u, f, g, p);
    }
    forall image | Spent(u, image, n.log, p) ensures Spent(u, image, n.log, p') {
      SpentKept(u, image, n.log, n.log, p, p');
    }
    if n.life.Running? {
      var m := n.life.memory;
      forall f | f in Promises(n.log) ensures Standing(u, f, m, n.disk, p') {
        assert Standing(u, f, m, n.disk, p);
      }
    }
  }

  lemma SpentKept(u: string, image: string, log: seq<UserRecord>, log': seq<UserRecord>, p: Past, p': Past)
    requires Spent(u, image, log, p)
    requires Promises(log) <= Promises(log')
    requires p.net <= p'.net
    requires forall f :: f in p.started ==> f in p'.started && p'.started[f] == p.started[f]
    ensures Spent(u, image, log', p')
  {
    var f :| f in Promises(log) && f in p.started && image in ImagesOf(p.started[f], u)
      && Decision(u, f, true) in p.net;
    assert f in Promises(log') && f in p'.started;
  }

  lemma PromiseRecord(log: seq<UserRecord>, f: string)
    requires f in Promises(log)
    ensures exists r :: r in log && r.Voted? && r.yes && r.fileName == f
  {
  }

  lemma PromisesSnoc(log: seq<UserRecord>, r: UserRecord)
    ensures Promises(log + [r]) == Promises(log) + (if r.Voted? && r.yes then {r.fileName} else {})
  {
    assert forall x :: x in log + [r] <==> x in log || x == r;
  }

  // ----- effect lists of a participant -----

  lemma {:induction false} NothingUserLogged(a: seq<Effect>)
    requires forall e :: e in a ==> !e.UserLog?
    ensures UserLogged(a) == []
  {
    if a != [] {
      NothingUserLogged(a[1..]);
    }
  }

  /** Every participant handler that logs does so first and sends last. */
  lemma KeptUserEffects(r: UserRecord, removals: seq<Effect>, m: Message, cut: Cut)
    requires forall e :: e in removals ==> e.Remove?
    ensures var effects := [UserLog(r)] + removals + [Send(m)];
            var kept := Kept(effects, cut);
            || (cut.CrashAfter? && UserLogged(kept) == [] && Removed(kept) == {} && Sent(kept) == {})
            || (cut.CrashAfter? && UserLogged(kept) == [r] && Removed(kept) <= Removed(removals) && Sent(kept) == {})
            || (UserLogged(kept) == [r] && Removed(kept) == Removed(removals) && Sent(kept) == {m})
  {
    hide UserLogged, Removed, Sent;
    var effects := [UserLog(r)] + removals + [Send(m)];
    var kept := Kept(effects, cut);
    if kept == [] {
      NothingKept();
    } else if |kept| == |effects| {
      assert kept == effects;
      RecordFirst(r, removals, [Send(m)]);
    } else {
      assert kept == [UserLog(r)] + removals[..|kept| - 1] + [];
      RecordFirst(r, removals[..|kept| - 1], []);
      FewerRemoved(removals, |kept| - 1);
    }
  }

  lemma NothingKept()
    ensures UserLogged([]) == [] && Removed([]) == {} && Sent([]) == {}
  {
  }

  lemma FewerRemoved(removals: seq<Effect>, n: nat)
    requires n <= |removals|
    ensures Removed(removals[..n]) <= Removed(removals)
  {
  }

  /** A record, then removals, then perhaps a message. */
  lemma RecordFirst(r: UserRecord, removals: seq<Effect>, sends: seq<Effect>)
    requires forall e :: e in removals ==> e.Remove?
    requires sends == [] || (|sends| == 1 && sends[0].Send?)
    ensures var kept := [UserLog(r)] + removals + sends;
            && UserLogged(kept) == [r] && Removed(kept) == Removed(removals)
            && Sent(kept) == if sends == [] then {} else {sends[0].message}
  {
    var kept := [UserLog(r)] + removals + sends;
    assert kept[1..] == removals + sends;
    NothingUserLogged(kept[1..]);
    assert forall e :: e in kept <==> e == UserLog(r) || e in removals || e in sends;
    RecordOnly(kept, r);
  }

  lemma RecordOnly(kept: seq<Effect>, r: UserRecord)
    requires kept != [] && kept[0] == UserLog(r) && UserLogged(kept[1..]) == []
    ensures UserLogged(kept) == [r]
  {
  }

  lemma KeptLoneSend(m: Message, cut: Cut)
    ensures var kept := Kept([Send(m)], cut);
            UserLogged(kept) == [] && Removed(kept) == {} && Sent(kept) <= {m}
    ensures cut.Whole? ==> Sent(Kept([Send(m)], cut)) == {m}
  {
    var kept := Kept([Send(m)], cut);
    NothingUserLogged(kept);
    assert forall e :: e in kept ==> e == Send(m);
    if cut.Whole? {
      assert kept[0] == Send(m);
    }
  }

  lemma RemovedImages(order: seq<string>)
    ensures Removed(P.Removals(order)) == (set image | image in order)
    ensures forall e :: e in P.Removals(order) ==> e.Remove?
  {
    P.RemovalEffects(order);
    forall image | image in order ensures image in Removed(P.Removals(order)) {
      assert Remove(image) in P.Removals(order);
    }
  }

  // ----- replay -----

  /** What a replayed participant knows: every promise stands, every lock is a
      promise, and everything used was committed. */
  lemma {:induction false} ReplaySound(mode: P.Tokens, u: string, log: seq<UserRecord>, p: Past)
    requires forall r :: r in log ==> UserRecordOk(mode, u, r, p)
    ensures var m := P.Replay(log);
            && (forall f :: f in m.locks ==>
                  f in Promises(log) && f in p.started && m.locks[f] == ImagesOf(p.started[f], u))
            && (forall f :: f in Promises(log) ==>
                  && f in p.started
                  && (f in m.locks || Decision(u, f, false) in p.net || ImagesOf(p.started[f], u) <= m.used))
            && (forall image :: image in m.used ==> Spent(u, image, log, p))
  {
    if log != [] {
      var prefix, r := log[..|log| - 1], log[|log| - 1];
      ReplaySound(mode, u, prefix, p);
      assert log == prefix + [r];
      PromisesSnoc(prefix, r);
      assert UserRecordOk(mode, u, r, p);
      forall image | image in P.Replay(log).used ensures Spent(u, image, log, p) {
        if image in P.Replay(prefix).used {
          SpentKept(u, image, prefix, log, p, p);
        }
      }
    }
  }

  // ----- the participant's steps -----

  /** A crash that keeps part of the node's removals of spent images. */
  lemma CrashedNodeOk(mode: P.Tokens, u: string, n: Node, disk: set<string>, origin: set<string>, p: Past)
    requires NodeInv(mode, u, n, origin, p)
    requires disk <= n.disk
    requires forall image :: image in n.disk && image !in disk ==> Spent(u, image, n.log, p)
    ensures NodeInv(mode, u, Node(Crashed, n.log, disk), origin, p)
  {
  }

  lemma KeptRemovals(order: seq<string>, cut: Cut)
    ensures var kept := Kept(P.Removals(order), cut);
            && UserLogged(kept) == [] && Sent(kept) == {}
            && Removed(kept) <= (set image | image in order)
            && (cut.Whole? ==> Removed(kept) == (set image | image in order))
  {
    RemovedImages(order);
    var kept := Kept(P.Removals(order), cut);
    SS.KeptIsPrefix(P.Removals(order), cut);
    NothingUserLogged(kept);
  }

  lemma RecoveredLife(mode: P.Tokens, u: string, n: Node, origin: set<string>, p: Past)
    requires NodeInv(mode, u, n, origin, p)
    ensures var m := P.Replay(n.log);
            LifeInv(mode, u, m, Node(Running(m), n.log, n.disk - m.used), p)
  {
    ReplaySound(mode, u, n.log, p);
  }

  /** The vote record is the promise: it may only be written when no other
      standing promise covers one of the images. */
  lemma VoteLogged(mode: P.Tokens, u: string, n: Node, origin: set<string>, p: Past,
    f: string, images: seq<string>, answer: bool, life: Life, p': Past)
    requires NodeInv(mode, u, n, origin, p) && n.life.Running?
    requires f in p.started && u in Users(p.started[f]) && P.ToSet(images) == ImagesOf(p.started[f], u)
    requires var yes := P.Willing(n.life.memory, f, images, answer);
             && (p' == p || p' == p.(net := p.net + {Vote(u, f, yes)}))
             && (life == Crashed || life == Running(P.AfterVote(n.life.memory, f, images, yes)))
    ensures var yes := P.Willing(n.life.memory, f, images, answer);
            NodeInv(mode, u, Node(life, n.log + [Voted(yes, f, images)], n.disk), origin, p')
  {
    var m := n.life.memory;
    var yes := P.Willing(m, f, images, answer);
    var r := Voted(yes, f, images);
    var log' := n.log + [r];
    PromisesSnoc(n.log, r);
    forall x | x in log' ensures UserRecordOk(mode, u, x, p') {
      if x in n.log {
        assert UserRecordOk(mode, u, x, p);
      }
    }
    forall image | Spent(u, image, n.log, p) ensures Spent(u, image, log', p') {
      SpentKept(u, image, n.log, log', p, p');
    }
    forall g, h | g in Promises(log') && h in Promises(log') ensures Exclusive(u, g, h, p') {
      if g in Promises(n.log) && h in Promises(n.log) {
        assert Exclusive(u, g, h, p);
      } else if g in Promises(n.log) {
        WillingExcludes(mode, u, n, p, f, images, answer, g);
      } else if h in Promises(n.log) {
        WillingExcludes(mode, u, n, p, f, images, answer, h);
      }
    }
    if life.Running? {
      P.ReplaySnoc(n.log, r);
      forall g | g in Promises(log') ensures Standing(u, g, life.memory, n.disk, p') {
        if g in Promises(n.log) {
          assert Standing(u, g, m, n.disk, p);
        }
      }
    }
  }

  /** A yes vote proves every earlier promise over the same image called off. */
  lemma WillingExcludes(mode: P.Tokens, u: string, n: Node, p: Past, f: string, images: seq<string>, answer: bool,
                        g: string)
    requires n.life.Running? && LifeInv(mode, u, n.life.memory, n, p)
    requires P.Willing(n.life.memory, f, images, answer)
    requires f in p.started && P.ToSet(images) == ImagesOf(p.started[f], u)
    requires g in Promises(n.log)
    ensures g in p.started
    ensures ImagesOf(p.started[f], u) * ImagesOf(p.started[g], u) != {} ==> Decision(u, g, false) in p.net
  {
    var m := n.life.memory;
    assert Standing(u, g, m, n.disk, p);
    if ImagesOf(p.started[f], u) * ImagesOf(p.started[g], u) != {} {
      var image :| image in ImagesOf(p.started[f], u) * ImagesOf(p.started[g], u);
      assert image in images && P.Free(m, image);
    }
  }

  /** The decision reaches a participant that holds the lock. */
  lemma DecisionLogged(mode: P.Tokens, u: string, n: Node, origin: set<string>, p: Past,
    f: string, d: bool, removed: set<string>, life: Life, p': Past)
    requires NodeInv(mode, u, n, origin, p) && n.life.Running?
    requires f in n.life.memory.locks && Decision(u, f, d) in p.net
    requires removed <= if d then n.life.memory.locks[f] else {}
    requires || (life == Crashed && p' == p)
             || (&& removed == (if d then n.life.memory.locks[f] else {})
                 && p' == p.(net := p.net + {Ack(u, f, d)})
                 && (life == Crashed || life == Running(P.AfterDecision(n.life.memory, f, d))))
    ensures NodeInv(mode, u, Node(life, n.log + [Resolved(P.DecisionToken(mode, d), f)], n.disk - removed), origin, p')
  {
    var m := n.life.memory;
    var r := Resolved(P.DecisionToken(mode, d), f);
    var log' := n.log + [r];
    var disk' := n.disk - removed;
    PromisesSnoc(n.log, r);
    forall x | x in log' ensures UserRecordOk(mode, u, x, p') {
      if x in n.log {
        assert UserRecordOk(mode, u, x, p);
      }
    }
    forall image | Spent(u, image, n.log, p) ensures Spent(u, image, log', p') {
      SpentKept(u, image, n.log, log', p, p');
    }
    forall image | d && image in m.locks[f] ensures Spent(u, image, log', p') {
      assert f in Promises(log') && Decision(u, f, true) in p'.net;
    }
    forall g, h | g in Promises(log') && h in Promises(log') ensures Exclusive(u, g, h, p') {
      assert Exclusive(u, g, h, p);
    }
    if life.Running? {
      P.ReplaySnoc(n.log, r);
      P.MatchedStepsReplayExactly(m, f, [], true, d);
      forall g | g in Promises(log') ensures Standing(u, g, life.memory, disk', p') {
        assert Standing(u, g, m, n.disk, p);
      }
    }
  }

  /** The decision reaches a participant that holds no lock: it only acks. */
  lemma DecisionAcked(mode: P.Tokens, s: State, u: string, f: string, d: bool, life: Life, p': Past)
    requires Inv(mode, s) && u in s.nodes && s.nodes[u].life.Running?
    requires f !in s.nodes[u].life.memory.locks && Decision(u, f, d) in s.past.net
    requires p' == s.past.(net := s.past.net + {Ack(u, f, d)})
    requires life == Crashed || life == s.nodes[u].life
    ensures NodeInv(mode, u, s.nodes[u].(life := life), s.origin[u], p')
  {
    var n := s.nodes[u];
    var p := s.past;
    assert NodeInv(mode, u, n, s.origin[u], p);
    assert MessageOk(Decision(u, f, d), p) && RecordsOk(f, p);
    if d && u in Users(p.started[f]) {
      assert Vote(u, f, true) in p.net;
      assert Standing(u, f, n.life.memory, n.disk, p);
      assert Decision(u, f, false) in p.net ==> MessageOk(Decision(u, f, false), p);
    }
    AckAdded(mode, u, n, s.origin[u], p, f, d);
  }

  lemma AckAdded(mode: P.Tokens, u: string, n: Node, origin: set<string>, p: Past, f: string, d: bool)
    requires NodeInv(mode, u, n, origin, p)
    requires d && f in p.started ==> ImagesOf(p.started[f], u) !! n.disk
    ensures NodeInv(mode, u, n, origin, p.(net := p.net + {Ack(u, f, d)}))
  {
    var p' := p.(net := p.net + {Ack(u, f, d)});
    forall r | r in n.log ensures UserRecordOk(mode, u, r, p') {
      assert UserRecordOk(mode, u, r, p);
    }
    forall image | Spent(u, image, n.log, p) ensures Spent(u, image, n.log, p') {
      SpentKept(u, image, n.log, n.log, p, p');
    }
    forall g, h | g in Promises(n.log) && h in Promises(n.log) ensures Exclusive(u, g, h, p') {
      assert Exclusive(u, g, h, p);
    }
    if n.life.Running? {
      forall g | g in Promises(n.log) ensures Standing(u, g, n.life.memory, n.disk, p') {
        assert Standing(u, g, n.life.memory, n.disk, p);
      }
    }
  }

  // ----- the events -----

  /** What one handler of `u` may do to the shared state: change `u`'s node and
      send the one message `m`. */
  ghost predicate OwnStep(s: State, s': State, u: string, m: Message) {
    && u in s.nodes && s'.nodes.Keys == s.nodes.Keys
    && s'.origin == s.origin && s'.server == s.server
    && (forall v :: v in s.nodes && v != u ==> s'.nodes[v] == s.nodes[v])
    && (s'.past == s.past || s'.past == s.past.(net := s.past.net + {m}))
    && (m.Vote? || m.Ack?) && m.from == u
  }

  lemma OwnStepOk(mode: P.Tokens, s: State, s': State, u: string, m: Message)
    requires Inv(mode, s) && OwnStep(s, s', u, m) && MessageOk(m, s.past)
    requires NodeInv(mode, u, s'.nodes[u], s'.origin[u], s'.past)
    ensures Inv(mode, s')
  {
    OthersKept(mode, s, s', u, m);
    SS.NodeSends(s, s');
  }

  lemma OthersKept(mode: P.Tokens, s: State, s': State, u: string, m: Message)
    requires NodesInv(mode, s) && OwnStep(s, s', u, m)
    requires NodeInv(mode, u, s'.nodes[u], s'.origin[u], s'.past)
    ensures NodesInv(mode, s')
  {
    hide NodeInv;
    forall v | v in s'.nodes ensures NodeInv(mode, v, s'.nodes[v], s'.origin[v], s'.past) {
      if v != u {
        NodeUndisturbed(mode, v, s.nodes[v], s.origin[v], s.past, s'.past);
      }
    }
  }

  /** The node and the past after a handler with these effects. */
  ghost function NodeAfter(n: Node, memory: P.Memory, effects: seq<Effect>, cut: Cut): Node {
    var kept := Kept(effects, cut);
    Node(if cut.Whole? then Running(memory) else Crashed, n.log + UserLogged(kept), n.disk - Removed(kept))
  }

  ghost function PastAfter(p: Past, effects: seq<Effect>, cut: Cut): Past {
    p.(net := p.net + Sent(Kept(effects, cut)))
  }

  lemma VoteOk(mode: P.Tokens, u: string, n: Node, origin: set<string>, p: Past,
    f: string, images: seq<string>, answer: bool, cut: Cut)
    requires NodeInv(mode, u, n, origin, p) && n.life.Running?
    requires MessageOk(VoteRequest(u, f, images), p)
    ensures var yes := P.Willing(n.life.memory, f, images, answer);
            var effects := P.VoteEffects(u, f, images, yes);
            && NodeInv(mode, u, NodeAfter(n, P.AfterVote(n.life.memory, f, images, yes), effects, cut),
                       origin, PastAfter(p, effects, cut))
            && Sent(Kept(effects, cut)) <= {Vote(u, f, yes)}
  {
    var yes := P.Willing(n.life.memory, f, images, answer);
    var effects := P.VoteEffects(u, f, images, yes);
    var n' := NodeAfter(n, P.AfterVote(n.life.memory, f, images, yes), effects, cut);
    var p' := PastAfter(p, effects, cut);
    var r := Voted(yes, f, images);
    assert [UserLog(r)] + [] + [Send(Vote(u, f, yes))] == effects;
    KeptUserEffects(r, [], Vote(u, f, yes), cut);
    if UserLogged(Kept(effects, cut)) == [] {
      CrashedNodeOk(mode, u, n, n.disk, origin, p);
      assert n' == Node(Crashed, n.log, n.disk) && p' == p;
    } else {
      if Sent(Kept(effects, cut)) == {} {
        assert p' == p;
      }
      VoteLogged(mode, u, n, origin, p, f, images, answer, n'.life, p');
      assert n' == Node(n'.life, n.log + [r], n.disk);
    }
  }

  lemma LockedDecisionOk(mode: P.Tokens, u: string, n: Node, origin: set<string>, p: Past,
    f: string, d: bool, order: seq<string>, cut: Cut)
    requires NodeInv(mode, u, n, origin, p) && n.life.Running?
    requires Decision(u, f, d) in p.net
    requires f in n.life.memory.locks && Enumerates(order, n.life.memory.locks[f])
    ensures var effects := P.DecideEffects(mode, u, n.life.memory, f, d, order);
            && NodeInv(mode, u, NodeAfter(n, P.AfterDecision(n.life.memory, f, d), effects, cut),
                       origin, PastAfter(p, effects, cut))
            && Sent(Kept(effects, cut)) <= {Ack(u, f, d)}
  {
    var memory := n.life.memory;
    var r := Resolved(P.DecisionToken(mode, d), f);
    var removals := if d then P.Removals(order) else [];
    var effects := P.DecideEffects(mode, u, memory, f, d, order);
    RemovedImages(order);
    assert (set image | image in order) == memory.locks[f];
    assert effects == [UserLog(r)] + removals + [Send(Ack(u, f, d))];
    KeptUserEffects(r, removals, Ack(u, f, d), cut);
    var kept := Kept(effects, cut);
    var n' := NodeAfter(n, P.AfterDecision(memory, f, d), effects, cut);
    var p' := PastAfter(p, effects, cut);
    if UserLogged(kept) == [] {
      CrashedNodeOk(mode, u, n, n.disk, origin, p);
      assert n' == Node(Crashed, n.log, n.disk) && p' == p;
    } else {
      if Sent(kept) == {} {
        assert p' == p;
      }
      DecisionLogged(mode, u, n, origin, p, f, d, Removed(kept), n'.life, p');
    }
  }

  lemma KnownNode(mode: P.Tokens, s: State, u: string)
    requires NodesInv(mode, s) && u in s.nodes
    ensures u in s.origin && NodeInv(mode, u, s.nodes[u], s.origin[u], s.past)
  {
  }

  lemma FreeDecisionOk(mode: P.Tokens, s: State, u: string, f: string, d: bool, order: seq<string>, cut: Cut)
    requires Inv(mode, s) && u in s.nodes && s.nodes[u].life.Running?
    requires Decision(u, f, d) in s.past.net && f !in s.nodes[u].life.memory.locks
    ensures var n := s.nodes[u];
            var effects := P.DecideEffects(mode, u, n.life.memory, f, d, order);
            && NodeInv(mode, u, NodeAfter(n, P.AfterDecision(n.life.memory, f, d), effects, cut),
                       s.origin[u], PastAfter(s.past, effects, cut))
            && Sent(Kept(effects, cut)) <= {Ack(u, f, d)}
  {
    KnownNode(mode, s, u);
    hide Inv, NodeInv, P.Removals, Removed, UserLogged, Sent, Kept, P.AfterDecision, P.DecisionToken;
    var n := s.nodes[u];
    var m := Ack(u, f, d);
    var effects := P.DecideEffects(mode, u, n.life.memory, f, d, order);
    var n' := NodeAfter(n, P.AfterDecision(n.life.memory, f, d), effects, cut);
    var p' := PastAfter(s.past, effects, cut);
    assert effects == [Send(m)];
    KeptLoneSend(m, cut);
    assert n' == n.(life := n'.life);
    if Sent(Kept(effects, cut)) == {} {
      assert p' == s.past && n'.life == Crashed;
      CrashedNodeOk(mode, u, n, n.disk, s.origin[u], s.past);
    } else {
      assert p' == s.past.(net := s.past.net + {m});
      DecisionAcked(mode, s, u, f, d, n'.life, p');
    }
  }

  /** Puts a handler's node-level result into the whole system. */
  lemma HandlerOk(mode: P.Tokens, s: State, u: string, memory: P.Memory, effects: seq<Effect>, cut: Cut, m: Message)
    requires Inv(mode, s) && u in s.nodes
    requires NodeInv(mode, u, NodeAfter(s.nodes[u], memory, effects, cut), s.origin[u], PastAfter(s.past, effects, cut))
    requires Sent(Kept(effects, cut)) <= {m}
    requires (m.Vote? || m.Ack?) && m.from == u && MessageOk(m, s.past)
    ensures Inv(mode, NodeStep(s, u, memory, effects, cut))
  {
    var s' := NodeStep(s, u, memory, effects, cut);
    var sent := Sent(Kept(effects, cut));
    assert s'.nodes[u] == NodeAfter(s.nodes[u], memory, effects, cut);
    assert s'.past == PastAfter(s.past, effects, cut);
    if m in sent {
      assert sent == {m};
    } else {
      assert s.past.net + sent == s.past.net;
      assert s'.past == s.past;
    }
    OwnStepOk(mode, s, s', u, m);
  }

  lemma ToNodeStep(mode: P.Tokens, s: State, u: string, m: Message, answer: bool, order: seq<string>, cut: Cut)
    requires Inv(mode, s) && Enabled(s, ToNode(u, m, answer, order, cut))
    ensures Inv(mode, Next(mode, s, ToNode(u, m, answer, order, cut)))
  {
    var n := s.nodes[u];
    var memory := n.life.memory;
    var f := m.fileName;
    assert NodeInv(mode, u, n, s.origin[u], s.past) && MessageOk(m, s.past);
    if m.VoteRequest? {
      var yes := P.Willing(memory, f, m.images, answer);
      VoteOk(mode, u, n, s.origin[u], s.past, f, m.images, answer, cut);
      HandlerOk(mode, s, u, P.AfterVote(memory, f, m.images, yes), P.VoteEffects(u, f, m.images, yes), cut,
                Vote(u, f, yes));
    } else {
      if f in memory.locks {
        LockedDecisionOk(mode, u, n, s.origin[u], s.past, f, m.commit, order, cut);
      } else {
        FreeDecisionOk(mode, s, u, f, m.commit, order, cut);
      }
      HandlerOk(mode, s, u, P.AfterDecision(memory, f, m.commit),
                P.DecideEffects(mode, u, memory, f, m.commit, order), cut, Ack(u, f, m.commit));
    }
  }

  lemma RecoverOk(mode: P.Tokens, u: string, n: Node, origin: set<string>, p: Past, order: seq<string>, cut: Cut)
    requires NodeInv(mode, u, n, origin, p) && Enumerates(order, P.Replay(n.log).used)
    ensures NodeInv(mode, u, NodeAfter(n, P.Replay(n.log), P.Removals(order), cut), origin, p)
    ensures Sent(Kept(P.Removals(order), cut)) == {}
  {
    var m := P.Replay(n.log);
    var n' := NodeAfter(n, m, P.Removals(order), cut);
    KeptRemovals(order, cut);
    assert (set image | image in order) == m.used;
    ReplaySound(mode, u, n.log, p);
    assert n'.log == n.log;
    CrashedNodeOk(mode, u, n, n'.disk, origin, p);
    if cut.Whole? {
      RecoveredLife(mode, u, n, origin, p);
      assert n' == Node(Running(m), n.log, n.disk - m.used);
    }
  }

  lemma RecoverNodeStep(mode: P.Tokens, s: State, u: string, order: seq<string>, cut: Cut)
    requires Inv(mode, s) && Enabled(s, RecoverNode(u, order, cut))
    ensures Inv(mode, Next(mode, s, RecoverNode(u, order, cut)))
  {
    hide NodeInv, NetInv, LogInv, MemoryOk, P.Replay, Kept, Removed, UserLogged, Sent;
    var n := s.nodes[u];
    var s' := Next(mode, s, RecoverNode(u, order, cut));
    KnownNode(mode, s, u);
    RecoverOk(mode, u, n, s.origin[u], s.past, order, cut);
    assert s'.nodes[u] == NodeAfter(n, P.Replay(n.log), P.Removals(order), cut);
    assert s'.past == s.past;
    forall v | v in s'.nodes ensures NodeInv(mode, v, s'.nodes[v], s'.origin[v], s'.past) {
      if v != u {
        assert s'.nodes[v] == s.nodes[v];
      }
    }
  }

  lemma CrashNodeStep(mode: P.Tokens, s: State, u: string)
    requires Inv(mode, s) && Enabled(s, CrashNode(u))
    ensures Inv(mode, Next(mode, s, CrashNode(u)))
  {
    var n := s.nodes[u];
    var s' := Next(mode, s, CrashNode(u));
    assert NodeInv(mode, u, n, s.origin[u], s.past);
    CrashedNodeOk(mode, u, n, n.disk, s.origin[u], s.past);
    forall v | v in s'.nodes ensures NodeInv(mode, v, s'.nodes[v], s'.origin[v], s'.past) {
      if v != u {
        assert s'.nodes[v] == s.nodes[v];
      }
    }
  }

  /** A server step sends no participant's message, so every node is undisturbed. */
  lemma ServerStepKeepsNodes(mode: P.Tokens, s: State, s': State)
    requires NodesInv(mode, s)
    requires s'.nodes == s.nodes && s'.origin == s.origin && s.past.net <= s'.past.net
    requires forall f :: f in s.past.started ==> f in s'.past.started && s'.past.started[f] == s.past.started[f]
    requires forall m :: m in s'.past.net && m !in s.past.net ==> !m.Vote? && !m.Ack?
    requires NetInv(s.past)
    ensures NodesInv(mode, s')
  {
    hide NodeInv;
    forall v | v in s'.nodes ensures NodeInv(mode, v, s'.nodes[v], s'.origin[v], s'.past) {
      forall f | Ack(v, f, true) in s'.past.net ensures Ack(v, f, true) in s.past.net && f in s.past.started {
        assert MessageOk(Ack(v, f, true), s.past);
      }
      NodeUndisturbed(mode, v, s.nodes[v], s.origin[v], s.past, s'.past);
    }
  }
}
