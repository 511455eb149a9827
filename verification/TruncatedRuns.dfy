/** The system with the logs as the code writes them, every write leaving one
    record: two collages over one image can both be committed. */
module TruncatedRuns {
  import opened CommitTypes
  import opened Coordinator
  import opened CommitProtocol
  import opened TruncatedLog
  import SL = ServerLog
  import CS = CommitServer
  import P = Participant
  import SS = CommitServerSafety
  import NS = CommitNodeSafety
  import CD = CommitDepartures

  /** Only the last record of each log is left; a handler writes at most one. */
  function Shortened(s: State): State {
    s.(past := s.past.(slog := Truncated(s.past.slog)),
       nodes := map u | u in s.nodes :: s.nodes[u].(log := Truncated(s.nodes[u].log)))
  }

  ghost function NextShort(mode: P.Tokens, s: State, e: Event): State
    requires Enabled(s, e)
  {
    Shortened(Next(mode, s, e))
  }

  ghost predicate RunsShort(mode: P.Tokens, s: State, events: seq<Event>)
    decreases |events|
  {
    events == [] || (Enabled(s, events[0]) && RunsShort(mode, NextShort(mode, s, events[0]), events[1..]))
  }

  ghost function FinalShort(mode: P.Tokens, s: State, events: seq<Event>): State
    requires RunsShort(mode, s, events)
    decreases |events|
  {
    if events == [] then s else FinalShort(mode, NextShort(mode, s, events[0]), events[1..])
  }

  /** `s` is the end of some run with shortened logs. */
  ghost predicate ReachableShort(mode: P.Tokens, s: State) {
    exists s0, events :: Init(s0) && RunsShort(mode, s0, events) && FinalShort(mode, s0, events) == s
  }

  lemma {:induction false} ShortSnoc(mode: P.Tokens, s: State, events: seq<Event>, e: Event)
    requires RunsShort(mode, s, events) && Enabled(FinalShort(mode, s, events), e)
    ensures RunsShort(mode, s, events + [e])
    ensures FinalShort(mode, s, events + [e]) == NextShort(mode, FinalShort(mode, s, events), e)
    decreases |events|
  {
    hide Enabled, NextShort;
    if events == [] {
      assert [e][1..] == [];
      assert events + [e] == [e];
    } else {
      ShortSnoc(mode, NextShort(mode, s, events[0]), events[1..], e);
      assert (events + [e])[1..] == events[1..] + [e];
    }
  }

  lemma ShortNext(mode: P.Tokens, s: State, e: Event)
    requires ReachableShort(mode, s) && Enabled(s, e)
    ensures ReachableShort(mode, NextShort(mode, s, e))
  {
    hide RunsShort, FinalShort, Enabled, NextShort;
    var s0, events :| Init(s0) && RunsShort(mode, s0, events) && FinalShort(mode, s0, events) == s;
    ShortSnoc(mode, s0, events, e);
  }

  // ----- what one participant has been asked and has answered -----

  /** A collage of one image, waiting for its owner's vote. */
  ghost predicate Pending(s: State, f: string, u: string, image: string) {
    && s.server.Up? && f in s.server.memory.active && f in s.server.memory.table
    && s.server.memory.active <= s.server.memory.table.Keys
    && s.server.memory.table[f] == NewCoord(f, [Source(u, image)]).(requests := map[])
    && f in s.past.started && s.past.started[f] == [Source(u, image)]
  }

  /** Everything that was pending or sent still is. */
  ghost predicate Grows(s: State, s': State) {
    && s.past.net <= s'.past.net
    && (forall g, v, image :: Pending(s, g, v, image) ==> Pending(s', g, v, image))
    && (forall g :: g in s.past.started ==> g in s'.past.started && s'.past.started[g] == s.past.started[g])
  }

  ghost predicate Ready(s: State, u: string) {
    && s.server.Up? && s.server.memory.active <= s.server.memory.table.Keys
    && u in s.nodes && s.nodes[u].life.Running?
  }

  lemma StartOne(mode: P.Tokens, s: State, f: string, u: string, image: string)
    requires Ready(s, u) && f !in s.past.started
    ensures var e := Start(f, [Source(u, image)], Whole);
            && Enabled(s, e)
            && var s' := NextShort(mode, s, e);
            && Grows(s, s') && Ready(s', u) && s'.nodes[u].life == s.nodes[u].life
            && s'.past.started == s.past.started[f := [Source(u, image)]]
            && f in s'.server.memory.active && s'.server.memory.table[f] == NewCoord(f, [Source(u, image)])
  {
    hide Logged, Truncated, NewCoord;
  }

  lemma AskOne(mode: P.Tokens, s: State, f: string, u: string, image: string)
    requires Ready(s, u) && f in s.server.memory.active && s.server.memory.table[f] == NewCoord(f, [Source(u, image)])
    requires f in s.past.started && s.past.started[f] == [Source(u, image)]
    ensures var e := SendRequest(f, u);
            && Enabled(s, e)
            && var s' := NextShort(mode, s, e);
            && Grows(s, s') && Ready(s', u) && s'.nodes[u].life == s.nodes[u].life
            && s'.past.started == s.past.started && Pending(s', f, u, image)
            && VoteRequest(u, f, [image]) in s'.past.net
  {
    hide Logged, Truncated, Composed;
    var sources := [Source(u, image)];
    assert sources[..0] == [];
    assert Requests(sources) == map[u := [image]];
    CD.OneSend(VoteRequest(u, f, [image]));
  }

  lemma Ask(mode: P.Tokens, s: State, f: string, u: string, image: string) returns (s': State)
    requires ReachableShort(mode, s) && Ready(s, u) && f !in s.past.started
    ensures ReachableShort(mode, s') && Grows(s, s') && Ready(s', u) && Pending(s', f, u, image)
    ensures VoteRequest(u, f, [image]) in s'.past.net && s'.past.started == s.past.started[f := [Source(u, image)]]
    ensures s'.nodes[u].life == s.nodes[u].life
  {
    hide ReachableShort, Enabled, NextShort, Pending;
    StartOne(mode, s, f, u, image);
    ShortNext(mode, s, Start(f, [Source(u, image)], Whole));
    var s1 := NextShort(mode, s, Start(f, [Source(u, image)], Whole));
    AskOne(mode, s1, f, u, image);
    ShortNext(mode, s1, SendRequest(f, u));
    s' := NextShort(mode, s1, SendRequest(f, u));
  }

  /** ... the owner promises it, and that is all its log remembers. */
  lemma Promise(mode: P.Tokens, s: State, f: string, u: string, image: string) returns (s': State)
    requires ReachableShort(mode, s) && Ready(s, u) && VoteRequest(u, f, [image]) in s.past.net
    requires f !in s.nodes[u].life.memory.locks && P.Free(s.nodes[u].life.memory, image)
    ensures ReachableShort(mode, s') && Grows(s, s') && Ready(s', u) && Vote(u, f, true) in s'.past.net
    ensures s'.nodes[u].log == [Voted(true, f, [image])] && s'.past.started == s.past.started
    ensures s'.nodes[u].life.memory == s.nodes[u].life.memory.(locks := s.nodes[u].life.memory.locks[f := {image}])
  {
    hide ReachableShort;
    var e := ToNode(u, VoteRequest(u, f, [image]), true, [], Whole);
    VotedNext(mode, s, u, f, image);
    ShortNext(mode, s, e);
    s' := NextShort(mode, s, e);
    assert Send(Vote(u, f, true)) in P.VoteEffects(u, f, [image], true);
    assert P.ToSet([image]) == {image};
  }

  /** ... then crashes and recovers: it holds the last image it promised. */
  lemma Forget(mode: P.Tokens, s: State, u: string, f: string, image: string) returns (s': State)
    requires ReachableShort(mode, s) && Ready(s, u) && s.nodes[u].log == [Voted(true, f, [image])]
    ensures ReachableShort(mode, s') && Grows(s, s') && Ready(s', u) && s'.past.started == s.past.started
    ensures s'.nodes[u].life.memory == P.Memory(map[f := {image}], {})
  {
    hide ReachableShort, P.Replay, Logged, UserLogged, Composed, Removed, Sent, NewCoord, Users;
    ReplayVote(f, image);
    ShortNext(mode, s, CrashNode(u));
    var s1 := NextShort(mode, s, CrashNode(u));
    var e := RecoverNode(u, [], Whole);
    ShortNext(mode, s1, e);
    s' := NextShort(mode, s1, e);
  }

  lemma ReplayVote(f: string, image: string)
    ensures P.Replay([Voted(true, f, [image])]) == P.Memory(map[f := {image}], {})
  {
    P.ReplaySnoc([], Voted(true, f, [image]));
    assert [] + [Voted(true, f, [image])] == [Voted(true, f, [image])];
    assert P.ToSet([image]) == {image};
  }

  /** ... and the server, hearing its vote, approves the collage. */
  lemma Approval(mode: P.Tokens, s: State, f: string, u: string, image: string) returns (s': State)
    requires ReachableShort(mode, s) && Pending(s, f, u, image) && Vote(u, f, true) in s.past.net
    ensures ReachableShort(mode, s') && Decision(u, f, true) in s'.past.net
    ensures s.past.net <= s'.past.net && s'.past.started == s.past.started
    ensures forall g, v, other :: g != f && Pending(s, g, v, other) ==> Pending(s', g, v, other)
  {
    hide ReachableShort, Logged, Composed, Truncated;
    var e := ToServer(Vote(u, f, true), [u], Whole);
    assert Users([Source(u, image)]) == {u};
    ShortNext(mode, s, e);
    s' := NextShort(mode, s, e);
    var c := s.server.memory.table[f];
    BroadcastTargets(f, true, [u], {});
    assert Send(Decision(u, f, true)) in Broadcast(f, true, [u], {});
    assert Send(Decision(u, f, true)) in Approve(AfterVote(c, u).0, [u]).1;
  }

  /** One participant, one crash of it and no other: two collages over the same
      image are both committed. */
  lemma ImageCommittedTwice(mode: P.Tokens, f: string, g: string, h: string, u: string, image: string, other: string)
    requires f != g && f != h && g != h && image != other
    ensures exists s :: ReachableShort(mode, s) && f in s.past.started && g in s.past.started
              && Source(u, image) in s.past.started[f] && Source(u, image) in s.past.started[g]
              && Decision(u, f, true) in s.past.net && Decision(u, g, true) in s.past.net
  {
    hide Pending, RunsShort, FinalShort, NextShort, Enabled;
    var s0 := CD.Fresh(u, image);
    assert RunsShort(mode, s0, []) && FinalShort(mode, s0, []) == s0 by {
      NoEvents(mode, s0);
    }
    hide ReachableShort;
    var s1 := Ask(mode, s0, f, u, image);
    var s2 := Promise(mode, s1, f, u, image);
    var s3 := Ask(mode, s2, h, u, other);
    var s4 := Promise(mode, s3, h, u, other);
    var s5 := Forget(mode, s4, u, h, other);
    var s6 := Ask(mode, s5, g, u, image);
    var s7 := Promise(mode, s6, g, u, image);
    var s8 := Approval(mode, s7, f, u, image);
    var s9 := Approval(mode, s8, g, u, image);
    assert Source(u, image) in [Source(u, image)];
  }

  lemma NoEvents(mode: P.Tokens, s: State)
    ensures RunsShort(mode, s, []) && FinalShort(mode, s, []) == s
  {
  }
}
