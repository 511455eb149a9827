/** Where the collage code departs from its intent: concrete runs, and the
    exact condition under which the code still does what it should. */
module CommitDepartures {
  import opened CommitTypes
  import opened Coordinator
  import opened CommitProtocol
  import SL = ServerLog
  import CS = CommitServer
  import P = Participant
  import SS = CommitServerSafety
  import NS = CommitNodeSafety

  // ----- a composite without a commit -----

  ghost function Fresh(u: string, image: string): State {
    State(Up(CS.Memory(map[], {})), Past([], {}, {}, map[]),
          map[u := Node(Running(P.Blank), [], {image})], map[u := {image}])
  }

  /** A collage of one participant's image, up to that participant's vote. */
  ghost function Asked(f: string, u: string, image: string): State {
    var sources := [Source(u, image)];
    var c := NewCoord(f, sources).(requests := map[]);
    State(Up(CS.Memory(map[f := c], {f})),
          Past([StartCommit(f, sources)], {}, {VoteRequest(u, f, [image])}, map[f := sources]),
          map[u := Node(Running(P.Blank), [], {image})], map[u := {image}])
  }

  lemma ReachAsked(mode: P.Tokens, f: string, u: string, image: string)
    ensures var s := Fresh(u, image);
            var e := Start(f, [Source(u, image)], Whole);
            && Init(s) && Enabled(s, e)
            && Enabled(Next(mode, s, e), SendRequest(f, u))
            && Next(mode, Next(mode, s, e), SendRequest(f, u)) == Asked(f, u, image)
  {
    var s := Fresh(u, image);
    var sources := [Source(u, image)];
    assert sources[..0] == [];
    assert Requests(sources) == map[u := [image]];
    assert Users(sources) == {u};
    var s1 := Next(mode, s, Start(f, sources, Whole));
    assert Logged([Log(StartCommit(f, sources))]) == [StartCommit(f, sources)];
    assert s1.past == Past([StartCommit(f, sources)], {}, {}, map[f := sources]);
    assert s1.server.memory == CS.Memory(map[f := NewCoord(f, sources)], {f});
    OneSend(VoteRequest(u, f, [image]));
    var s2 := Next(mode, s1, SendRequest(f, u));
    assert s2.server.memory.table == map[f := NewCoord(f, sources).(requests := map[])];
    assert s2.past == Asked(f, u, image).past;
  }

  lemma OneSend(m: Message)
    ensures Sent([Send(m)]) == {m} && Logged([Send(m)]) == [] && Composed([Send(m)]) == {}
  {
    assert Send(m) in [Send(m)];
    SS.NothingLogged([Send(m)]);
  }

  /** ... then votes yes. */
  ghost function Promised(f: string, u: string, image: string): State {
    var s := Asked(f, u, image);
    s.(nodes := map[u := Node(Running(P.Memory(map[f := {image}], {})), [Voted(true, f, [image])], {image})],
       past := s.past.(net := {VoteRequest(u, f, [image]), Vote(u, f, true)}))
  }

  lemma ReachPromised(mode: P.Tokens, f: string, u: string, image: string)
    ensures var s := Asked(f, u, image);
            var e := ToNode(u, VoteRequest(u, f, [image]), true, [], Whole);
            Enabled(s, e) && Next(mode, s, e) == Promised(f, u, image)
  {
    var s := Asked(f, u, image);
    var n := s.nodes[u];
    assert P.Willing(P.Blank, f, [image], true);
    var r, m := Voted(true, f, [image]), Vote(u, f, true);
    assert [UserLog(r)] + [] + [Send(m)] == P.VoteEffects(u, f, [image], true);
    NS.KeptUserEffects(r, [], m, Whole);
    assert P.ToSet([image]) == {image};
    assert P.AfterVote(P.Blank, f, [image], true) == P.Memory(map[f := {image}], {});
    var s' := Next(mode, s, ToNode(u, VoteRequest(u, f, [image]), true, [], Whole));
    assert s'.nodes[u] == Promised(f, u, image).nodes[u];
    assert s'.past == Promised(f, u, image).past;
  }

  /** ... and the server dies between the composite file and the log record. */
  ghost function HalfCommitted(f: string, u: string, image: string): State {
    var s := Promised(f, u, image);
    s.(server := Down, past := s.past.(composites := {f}))
  }

  lemma ReachHalfCommitted(mode: P.Tokens, f: string, u: string, image: string)
    ensures var s := Promised(f, u, image);
            var e := ToServer(Vote(u, f, true), [u], CrashAfter(1));
            Enabled(s, e) && Next(mode, s, e) == HalfCommitted(f, u, image)
  {
    hide Requests, P.ToSet, Removed;
    var s := Promised(f, u, image);
    var sources := [Source(u, image)];
    var c := s.server.memory.table[f];
    assert Users(sources) == {u};
    var effects := Approve(AfterVote(c, u).0, [u]).1;
    assert CS.Dispatched(s.server.memory, Vote(u, f, true), [u]).1 == effects;
    assert Kept(effects, CrashAfter(1)) == [Compose(f)];
    assert Composed([Compose(f)]) == {f} by {
      assert Compose(f) in [Compose(f)];
    }
    SS.NothingLogged([Compose(f)]);
    var s' := Next(mode, s, ToServer(Vote(u, f, true), [u], CrashAfter(1)));
    assert s'.past == HalfCommitted(f, u, image).past;
  }

  /** The composite file can exist for a collage that is aborted: the file is
      not the commit point, the log record is. */
  lemma CompositeWithoutCommit(mode: P.Tokens, f: string, u: string, image: string)
    ensures exists s :: Reachable(mode, s) && f in s.past.composites && Decision(u, f, false) in s.past.net
  {
    PromisedReachable(mode, f, u, image);
    ReachHalfCommitted(mode, f, u, image);
    ReachableNext(mode, Promised(f, u, image), ToServer(Vote(u, f, true), [u], CrashAfter(1)));
    ReachAborted(mode, f, u, image);
    ReachableNext(mode, HalfCommitted(f, u, image), RecoverServer([f], map[f := [u]], Whole));
  }

  lemma PromisedReachable(mode: P.Tokens, f: string, u: string, image: string)
    ensures Reachable(mode, Promised(f, u, image))
  {
    var s0 := Fresh(u, image);
    InitReachable(mode, s0);
    ReachAsked(mode, f, u, image);
    ReachableNext(mode, s0, Start(f, [Source(u, image)], Whole));
    ReachableNext(mode, Next(mode, s0, Start(f, [Source(u, image)], Whole)), SendRequest(f, u));
    ReachPromised(mode, f, u, image);
    ReachableNext(mode, Asked(f, u, image), ToNode(u, VoteRequest(u, f, [image]), true, [], Whole));
  }

  lemma ReachAborted(mode: P.Tokens, f: string, u: string, image: string)
    ensures var s := HalfCommitted(f, u, image);
            var e := RecoverServer([f], map[f := [u]], Whole);
            && Enabled(s, e)
            && f in Next(mode, s, e).past.composites
            && Decision(u, f, false) in Next(mode, s, e).past.net
  {
    var s := HalfCommitted(f, u, image);
    var sources := [Source(u, image)];
    var table := SL.Replay([StartCommit(f, sources)]);
    SL.ReplaySnoc(map[], [], StartCommit(f, sources));
    assert [] + [StartCommit(f, sources)] == [StartCommit(f, sources)];
    assert table == map[f := SL.Rebuilt(f, sources, "startCommit", false)];
    assert Users(sources) == {u};
    var effects := CS.Recommit(table, [f], map[f := [u]]);
    assert [f][..0] == [];
    assert CS.Recommit(table, [], map[f := [u]]) == [];
    assert effects == Broadcast(f, false, [u], {});
    BroadcastTargets(f, false, [u], {});
    assert Send(Decision(u, f, false)) in effects;
  }

  // ----- the decision token -----

  /** As written, a lock released by an abort comes back at the next recovery:
      the node below holds nothing, but replaying its log locks `f` again. */
  lemma ReleasedLockReturns(f: string, u: string, image: string)
    ensures exists s :: Reachable(P.AsWritten, s) && u in s.nodes && s.nodes[u].life.Running?
                        && f !in s.nodes[u].life.memory.locks && f in P.Replay(s.nodes[u].log).locks
  {
    var mode := P.AsWritten;
    var s0 := Promised(f, u, image);
    PromisedReachable(mode, f, u, image);
    assert Users([Source(u, image)]) == {u};
    var s1 := Next(mode, s0, VoteTimer(f, [u], Whole));
    ReachableNext(mode, s0, VoteTimer(f, [u], Whole));
    AbortAnnounced(mode, f, u, image);
    var e := ToNode(u, Decision(u, f, false), true, [image], Whole);
    ReachableNext(mode, s1, e);
    ReleasedByAbort(s1, f, u, image);
  }

  lemma AbortAnnounced(mode: P.Tokens, f: string, u: string, image: string)
    ensures var s := Promised(f, u, image);
            var e := VoteTimer(f, [u], Whole);
            && Enabled(s, e) && Next(mode, s, e).nodes == s.nodes
            && Decision(u, f, false) in Next(mode, s, e).past.net
  {
    var s := Promised(f, u, image);
    assert Users([Source(u, image)]) == {u};
    var effects := Abort(s.server.memory.table[f], [u]).1;
    BroadcastTargets(f, false, [u], {});
    assert Send(Decision(u, f, false)) in Broadcast(f, false, [u], {});
    assert Send(Decision(u, f, false)) in effects;
  }

  lemma ReleasedByAbort(s: State, f: string, u: string, image: string)
    requires s.nodes == Promised(f, u, image).nodes && Decision(u, f, false) in s.past.net
    ensures var e := ToNode(u, Decision(u, f, false), true, [image], Whole);
            && Enabled(s, e)
            && var n := Next(P.AsWritten, s, e).nodes[u];
            n.life.Running? && f !in n.life.memory.locks && f in P.Replay(n.log).locks
  {
    var e := ToNode(u, Decision(u, f, false), true, [image], Whole);
    var v, r := Voted(true, f, [image]), Resolved("false", f);
    NS.KeptUserEffects(r, [], Ack(u, f, false), Whole);
    var effects := P.DecideEffects(P.AsWritten, u, s.nodes[u].life.memory, f, false, [image]);
    assert effects == [UserLog(r)] + [] + [Send(Ack(u, f, false))];
    var n := Next(P.AsWritten, s, e).nodes[u];
    assert n.log == [v] + [r];
    P.ReplaySnoc([v], r);
    P.ReplaySnoc([], v);
    assert [] + [v] == [v];
  }
}
