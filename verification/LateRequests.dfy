/** A vote request sent after the decision: from any state in which one can
    still be sent, the run can end with a lock that is never released. */
module LateRequests {
  import opened CommitTypes
  import opened Coordinator
  import opened CommitProtocol
  import opened LockRelease
  import SL = ServerLog
  import CS = CommitServer
  import P = Participant
  import SS = CommitServerSafety

  ghost predicate Reaches(s: Net, s': Net) {
    exists turns :: Plays(s, turns) && Outcome(s, turns) == s'
  }

  lemma {:induction false} PlaysConcat(s: Net, first: seq<Turn>, second: seq<Turn>)
    requires Plays(s, first) && Plays(Outcome(s, first), second)
    ensures Plays(s, first + second)
    ensures Outcome(s, first + second) == Outcome(Outcome(s, first), second)
    decreases |first|
  {
    hide Possible, After;
    if first == [] {
      assert first + second == second;
    } else {
      assert (first + second)[0] == first[0] && (first + second)[1..] == first[1..] + second;
      PlaysConcat(After(s, first[0]), first[1..], second);
    }
  }

  lemma ReachesOne(s: Net, t: Turn)
    requires Possible(s, t)
    ensures Reaches(s, After(s, t))
  {
    hide Possible, After;
    assert [t][0] == t && [t][1..] == [];
    assert Plays(After(s, t), []) && Outcome(After(s, t), []) == After(s, t);
    assert Plays(s, [t]) && Outcome(s, [t]) == After(s, t);
  }

  lemma ReachesSelf(s: Net)
    ensures Reaches(s, s)
  {
    assert Plays(s, []) && Outcome(s, []) == s;
  }

  lemma ReachesOn(a: Net, b: Net, c: Net)
    requires Reaches(a, b) && Reaches(b, c)
    ensures Reaches(a, c)
  {
    hide Plays, Outcome;
    var first :| Plays(a, first) && Outcome(a, first) == b;
    var second :| Plays(b, second) && Outcome(b, second) == c;
    PlaysConcat(a, first, second);
  }

  lemma ReachesInv(s: Net, s': Net)
    requires LinksInv(s) && Reaches(s, s')
    ensures LinksInv(s')
  {
    hide LinksInv, Plays, Outcome;
    var turns :| Plays(s, turns) && Outcome(s, turns) == s';
    TurnsKeepInv(s, turns);
  }

  // ----- the rest of a finished run -----

  /** Everything in flight to `v` is lost. */
  lemma {:induction false} Drain(s: Net, v: string) returns (s': Net)
    ensures Reaches(s, s') && s' == s.(links := s'.links) && Link(s'.links, v) == []
    decreases |Link(s.links, v)|
  {
    if Link(s.links, v) == [] {
      s' := s;
      ReachesSelf(s);
    } else {
      ReachesOne(s, Lose(v, 0));
      var s1 := After(s, Lose(v, 0));
      s' := Drain(s1, v);
      ReachesOn(s, s1, s');
    }
  }

  lemma {:induction false} PostDelivers(links: map<string, seq<Message>>, effects: seq<Effect>, m: Message)
    requires Send(m) in effects && (m.Decision? || m.VoteRequest?)
    ensures m in Link(Post(links, effects), m.to)
  {
    var prefix, e := effects[..|effects| - 1], effects[|effects| - 1];
    assert effects == prefix + [e];
    if e != Send(m) {
      PostDelivers(links, prefix, m);
    }
  }

  /** Sends the decision again; on an empty link it comes first. */
  lemma ResendOne(s: Net, f: string, v: string) returns (s': Net)
    requires LinksInv(s) && f in s.memory.table && f in s.memory.active && s.memory.table[f].decisionMade
    requires v in Outstanding(s.memory.table[f]) && Link(s.links, v) == []
    ensures Reaches(s, s') && s' == s.(links := s'.links)
    ensures Link(s'.links, v) != [] && Link(s'.links, v)[0] == Decision(v, f, s.memory.table[f].finalDecision)
  {
    hide LinksInv, Reaches, Post;
    var c := s.memory.table[f];
    var order := EnumerationExists(c.userSet);
    EntryKnown(s, f);
    var effects := Broadcast(f, c.finalDecision, order, c.ackSet);
    BroadcastTargets(f, c.finalDecision, order, c.ackSet);
    var m := Decision(v, f, c.finalDecision);
    assert Send(m) in effects;
    PostDelivers(s.links, effects, m);
    PostAppends(s.links, effects, v);
    assert OnAckTimeout(c, order) == (c, effects);
    ReachesOne(s, Resend(f, order));
    s' := After(s, Resend(f, order));
    SS.NothingLogged(effects);
    assert s.memory.table[f := c] == s.memory.table && s.slog + [] == s.slog;
    assert Link(s'.links, v)[0] in Link(s'.links, v)[|Link(s.links, v)|..];
  }

  /** Untouched participants: those that hold no lock for `f`. */
  ghost predicate Spares(s: Net, s': Net, f: string) {
    && s'.nodes.Keys == s.nodes.Keys
    && (forall u :: u in s.nodes && f !in s.nodes[u].locks ==> s'.nodes[u] == s.nodes[u])
  }

  /** One more participant is told, acknowledges, and is heard. */
  lemma AckOne(s: Net, f: string, v: string) returns (s': Net)
    requires LinksInv(s) && f in s.memory.table && f in s.memory.active && s.memory.table[f].decisionMade
    requires v in Outstanding(s.memory.table[f]) && v in s.nodes
    ensures Reaches(s, s') && Spares(s, s', f)
    ensures s'.memory == CS.Dispatched(s.memory, Ack(v, f, s.memory.table[f].finalDecision), []).0
  {
    hide LinksInv, Reaches, Post;
    var d := s.memory.table[f].finalDecision;
    EntryKnown(s, f);
    var s1 := Drain(s, v);
    ReachesInv(s, s1);
    var s2 := ResendOne(s1, f, v);
    ReachesOn(s, s1, s2);
    ReachesOne(s2, Receive(v, false));
    var s3 := After(s2, Receive(v, false));
    ReachesOn(s, s2, s3);
    var order := EnumerationExists(s.memory.table[f].userSet);
    assert Ack(v, f, d) in s3.replies;
    ReachesOne(s3, Hear(Ack(v, f, d), order));
    s' := After(s3, Hear(Ack(v, f, d), order));
    ReachesOn(s, s3, s');
  }

  /** A decided collage can always be finished, without touching a participant
      that holds no lock for it. */
  lemma {:induction false} Finish(s: Net, f: string) returns (s': Net)
    requires LinksInv(s) && f in s.memory.table && s.memory.table[f].decisionMade
    requires {} < s.memory.table[f].userSet <= s.nodes.Keys
    ensures Reaches(s, s') && Spares(s, s', f) && Finished(s', f)
    ensures f in s'.memory.table && s'.memory.table[f].requests == s.memory.table[f].requests
    ensures f !in s'.memory.active
    decreases if f in s.memory.active then 1 + |Outstanding(s.memory.table[f])| else 0
  {
    hide LinksInv, Reaches;
    EntryKnown(s, f);
    if f !in s.memory.active {
      s' := s;
      ReachesSelf(s);
    } else {
      var c := s.memory.table[f];
      SomeoneOutstanding(c);
      var v :| v in Outstanding(c);
      var s1 := AckOne(s, f, v);
      ReachesInv(s, s1);
      AckProgress(c, v);
      if f in s1.memory.active {
        SubsetOfSameSize(Outstanding(s1.memory.table[f]), Outstanding(c));
      }
      s' := Finish(s1, f);
      ReachesOn(s, s1, s');
    }
  }

  /** The request is sent and answered after all. */
  lemma AskLate(s: Net, f: string, u: string) returns (s': Net)
    requires f in s.memory.table && u in s.memory.table[f].requests && u in s.nodes
    requires P.Willing(s.nodes[u], f, s.memory.table[f].requests[u], true)
    ensures Reaches(s, s') && s'.slog == s.slog && s'.memory.active == s.memory.active
    ensures s'.memory.table.Keys == s.memory.table.Keys
    ensures u in s'.nodes && f in s'.nodes[u].locks && NoDecision(f, Link(s'.links, u))
  {
    hide Reaches;
    var s1 := Drain(s, u);
    var request := VoteRequest(u, f, s.memory.table[f].requests[u]);
    PostDelivers(s1.links, [Send(request)], request);
    PostAppends(s1.links, [Send(request)], u);
    ReachesOne(s1, Ask(f, u));
    var s2 := After(s1, Ask(f, u));
    assert Logged([Send(request)]) == [] && s1.slog + [] == s1.slog;
    assert Link(s2.links, u)[|Link(s1.links, u)|..] == Link(s2.links, u);
    assert forall m :: m in Link(s2.links, u) ==> Send(m) in [Send(request)];
    assert forall m :: m in Link(s2.links, u) ==> m == request;
    ReachesOn(s, s1, s2);
    ReachesOne(s2, Receive(u, true));
    s' := After(s2, Receive(u, true));
    ReachesOn(s, s2, s');
    assert forall m :: m in Link(s'.links, u) ==> m in Link(s2.links, u);
  }

  // ----- held for ever -----

  ghost predicate NoDecision(f: string, link: seq<Message>) {
    forall m :: m in link ==> !(m.Decision? && m.fileName == f)
  }

  /** The collage is over, and nothing that could release the lock is on its way. */
  ghost predicate Stranded(s: Net, f: string, u: string) {
    && Finished(s, f) && f in s.memory.table && f !in s.memory.active
    && u in s.nodes && f in s.nodes[u].locks && NoDecision(f, Link(s.links, u))
  }

  /** A server turn about another collage, or one without effects about this one. */
  lemma ServedKeepsStranded(s: Net, s': Net, g: string, effects: seq<Effect>, f: string, u: string)
    requires Stranded(s, f, u) && Served(s, s', g, effects) && g != f
    ensures Stranded(s', f, u)
  {
    hide EntryOk, RecordOk, CountOk, RoutedOk, SL.Latest, Post;
    PostAppends(s.links, effects, u);
    var suffix := Link(s'.links, u)[|Link(s.links, u)|..];
    assert Link(s'.links, u) == Link(s.links, u) + suffix;
  }

  lemma OwnTurnKeepsStranded(s: Net, t: Turn, f: string, u: string)
    requires LinksInv(s) && Stranded(s, f, u) && Possible(s, t)
    requires t.Begin? || t.Ask? || t.GiveUp? || t.Resend? ==> t.fileName == f
    requires t.Hear? ==> t.message.fileName == f
    requires !t.Receive? && !t.Lose?
    ensures Stranded(After(s, t), f, u)
  {
    hide EntryOk, RecordOk, RoutedOk, SL.Latest, Post;
    EntryKnown(s, f);
    match t
    case Ask(_, v) =>
      var request := VoteRequest(v, f, s.memory.table[f].requests[v]);
      PostAppends(s.links, [Send(request)], u);
      var suffix := Link(After(s, t).links, u)[|Link(s.links, u)|..];
      assert Link(After(s, t).links, u) == Link(s.links, u) + suffix;
      assert forall m :: m in suffix ==> Send(m) in [Send(request)];
      assert Logged([Send(request)]) == [] && s.slog + [] == s.slog;
    case Hear(m, order) => HearUnknown(s, m, order);
    case GiveUp(_, order) =>
      NothingPosted(s.links);
      assert s.slog + [] == s.slog;
    case _ =>
  }

  lemma NothingPosted(links: map<string, seq<Message>>)
    ensures Post(links, []) == links
  {
  }

  lemma LinkTurnKeepsStranded(s: Net, t: Turn, f: string, u: string)
    requires Stranded(s, f, u) && Possible(s, t) && (t.Receive? || t.Lose?)
    ensures Stranded(After(s, t), f, u)
  {
    var link := Link(s.links, t.user);
    if t.Lose? {
      assert forall m :: m in link[..t.index] + link[t.index + 1..] ==> m in link;
    } else {
      assert link[0] in link && forall m :: m in link[1..] ==> m in link;
    }
  }

  lemma TurnKeepsStranded(s: Net, t: Turn, f: string, u: string)
    requires LinksInv(s) && Stranded(s, f, u) && Possible(s, t)
    ensures Stranded(After(s, t), f, u)
  {
    hide LinksInv, After, Served, Stranded, EntryOk;
    if t.Receive? || t.Lose? {
      LinkTurnKeepsStranded(s, t, f, u);
    } else if (if t.Hear? then t.message.fileName else t.fileName) == f {
      OwnTurnKeepsStranded(s, t, f, u);
    } else {
      var g, effects := ServerTurn(s, t);
      if After(s, t) != s {
        ServedKeepsStranded(s, After(s, t), g, effects, f, u);
      }
    }
  }

  lemma {:induction false} TurnsKeepStranded(s: Net, turns: seq<Turn>, f: string, u: string)
    requires LinksInv(s) && Stranded(s, f, u) && Plays(s, turns)
    ensures Stranded(Outcome(s, turns), f, u)
    decreases |turns|
  {
    hide LinksInv, Possible, After, Stranded;
    if turns != [] {
      TurnKeepsInv(s, turns[0]);
      TurnKeepsStranded(s, turns[0], f, u);
      TurnsKeepStranded(After(s, turns[0]), turns[1..], f, u);
    }
  }

  /** The collage is logged finished, and however things go on, `u` keeps its lock. */
  ghost predicate HeldForEver(s: Net, f: string, u: string) {
    && Finished(s, f)
    && forall s' :: Reaches(s, s') ==> u in s'.nodes && f in s'.nodes[u].locks
  }

  lemma StrandedForEver(s: Net, f: string, u: string)
    requires LinksInv(s) && Stranded(s, f, u)
    ensures HeldForEver(s, f, u)
  {
    hide LinksInv, Stranded, Plays, Outcome;
    assert Finished(s, f) by {
      StrandedHolds(s, f, u);
    }
    forall s' | Reaches(s, s') ensures u in s'.nodes && f in s'.nodes[u].locks {
      var turns :| Plays(s, turns) && Outcome(s, turns) == s';
      TurnsKeepStranded(s, turns, f, u);
      StrandedHolds(s', f, u);
    }
  }

  lemma StrandedHolds(s: Net, f: string, u: string)
    requires Stranded(s, f, u)
    ensures Finished(s, f) && u in s.nodes && f in s.nodes[u].locks
  {
  }

  /** As long as one request is unsent when the collage is decided, and its
      images are free, the collage can finish with these images locked for ever. */
  lemma LateRequestLocks(s: Net, f: string, u: string)
    requires LinksInv(s) && f in s.memory.table && s.memory.table[f].decisionMade
    requires u in s.memory.table[f].requests && s.memory.table[f].userSet <= s.nodes.Keys
    requires u in s.nodes && P.Willing(s.nodes[u], f, s.memory.table[f].requests[u], true)
    ensures exists s' :: Reaches(s, s') && HeldForEver(s', f, u)
  {
    hide LinksInv, Reaches, SL.Latest, HeldForEver;
    EntryKnown(s, f);
    var s1 := Finish(s, f);
    var s2 := AskLate(s1, f, u);
    ReachesOn(s, s1, s2);
    ReachesInv(s, s2);
    StrandedForEver(s2, f, u);
  }

  // ----- when a lock can be stranded -----

  /** A request once sent, or never owed, is not sent again. */
  lemma RequestGone(s: Net, t: Turn, f: string, u: string)
    requires LinksInv(s) && Possible(s, t)
    requires f in s.memory.table && u !in s.memory.table[f].requests
    ensures !Late(s, t, f, u)
    ensures f in After(s, t).memory.table && u !in After(s, t).memory.table[f].requests
  {
    hide Post, Logged, EntryOk, RecordOk, CountOk, RoutedOk;
  }

  lemma {:induction false} StaysTimely(s: Net, turns: seq<Turn>, f: string, u: string)
    requires LinksInv(s) && Plays(s, turns)
    requires f in s.memory.table && u !in s.memory.table[f].requests
    ensures Timely(s, turns, f, u)
    decreases |turns|
  {
    hide LinksInv, Possible, After, Late;
    if turns != [] {
      RequestGone(s, turns[0], f, u);
      TurnKeepsInv(s, turns[0]);
      StaysTimely(After(s, turns[0]), turns[1..], f, u);
    }
  }

  lemma {:induction false} TimelyConcat(s: Net, first: seq<Turn>, second: seq<Turn>, f: string, u: string)
    requires Plays(s, first) && Plays(Outcome(s, first), second)
    requires Timely(s, first, f, u) && Timely(Outcome(s, first), second, f, u)
    ensures Plays(s, first + second) && Timely(s, first + second, f, u)
    decreases |first|
  {
    hide Possible, After, Late;
    PlaysConcat(s, first, second);
    if first == [] {
      assert first + second == second;
    } else {
      assert (first + second)[0] == first[0] && (first + second)[1..] == first[1..] + second;
      TimelyConcat(After(s, first[0]), first[1..], second, f, u);
    }
  }

  /** Some way to go on finishes the collage with `u`'s images locked for ever. */
  ghost predicate CanStrand(s: Net, f: string, u: string) {
    exists s' :: Reaches(s, s') && HeldForEver(s', f, u)
  }

  /** At the decision, and as long as nothing was late: the lock can be stranded
      exactly when the request to `u` is still unsent. */
  lemma StrandedExactly(s0: Net, turns: seq<Turn>, f: string, u: string)
    requires Idle(s0) && Plays(s0, turns) && Timely(s0, turns, f, u)
    requires f in Outcome(s0, turns).memory.table && Outcome(s0, turns).memory.table[f].decisionMade
    requires Outcome(s0, turns).memory.table[f].userSet <= Outcome(s0, turns).nodes.Keys
             && u in Outcome(s0, turns).nodes
    requires var s := Outcome(s0, turns);
             u in s.memory.table[f].requests ==> P.Willing(s.nodes[u], f, s.memory.table[f].requests[u], true)
    ensures CanStrand(Outcome(s0, turns), f, u) <==> u in Outcome(s0, turns).memory.table[f].requests
  {
    hide LinksInv, Plays, Outcome, Timely, Finished, TrackInv;
    IdleInv(s0, f, u);
    TurnsKeepInv(s0, turns);
    var s := Outcome(s0, turns);
    if u in s.memory.table[f].requests {
      LateRequestLocks(s, f, u);
    } else if CanStrand(s, f, u) {
      var s' :| Reaches(s, s') && HeldForEver(s', f, u);
      ReachesSelf(s');
      var more :| Plays(s, more) && Outcome(s, more) == s';
      StaysTimely(s, more, f, u);
      TimelyConcat(s0, turns, more, f, u);
      PlaysConcat(s0, turns, more);
      LocksReleased(s0, turns + more, f, u);
    }
  }

  // ----- such a state is reached -----

  /** Two users, one image each; `a` refuses before `b` has been asked. */
  datatype Case = Case(f: string, a: string, b: string, x: string, y: string)

  function LateSources(k: Case): seq<Source> {
    [Source(k.a, k.x), Source(k.b, k.y)]
  }

  /** The states of the run: requests still unsent, what is on the two links,
      the replies, and whether `b` holds its lock. */
  function LateNet(k: Case, memory: CS.Memory, slog: seq<ServerRecord>, la: seq<Message>, lb: seq<Message>,
    replies: set<Message>, locked: bool, started: bool): Net
  {
    Net(memory, slog,
        map[k.a := P.Blank, k.b := P.Memory(if locked then map[k.f := {k.y}] else map[], {})],
        map[k.a := la, k.b := lb],
        replies,
        if started then map[k.f := LateSources(k)] else map[])
  }

  function LateMemory(k: Case, requests: map<string, seq<string>>, acks: set<string>, decided: bool): CS.Memory {
    CS.Memory(map[k.f := Coord(k.f, LateSources(k), {k.a, k.b}, {}, acks, requests, decided, false, "")], {k.f})
  }

  function Refusal(k: Case): Message {
    Vote(k.a, k.f, false)
  }

  function FreshNet(k: Case): Net {
    LateNet(k, CS.Memory(map[], {}), [], [], [], {}, false, false)
  }

  function BegunNet(k: Case): Net {
    LateNet(k, LateMemory(k, map[k.a := [k.x], k.b := [k.y]], {}, false), [StartCommit(k.f, LateSources(k))],
            [], [], {}, false, true)
  }

  function AskedNet(k: Case): Net {
    LateNet(k, LateMemory(k, map[k.b := [k.y]], {}, false), [StartCommit(k.f, LateSources(k))],
            [VoteRequest(k.a, k.f, [k.x])], [], {}, false, true)
  }

  function RefusedNet(k: Case): Net {
    LateNet(k, LateMemory(k, map[k.b := [k.y]], {}, false), [StartCommit(k.f, LateSources(k))],
            [], [], {Refusal(k)}, false, true)
  }

  function LateLog(k: Case): seq<ServerRecord> {
    [StartCommit(k.f, LateSources(k)), Decided(k.f, false, [])]
  }

  /** `a`'s refusal has aborted the collage; `b`'s request is still unsent. */
  function AbortedNet(k: Case): Net {
    LateNet(k, LateMemory(k, map[k.b := [k.y]], {}, true), LateLog(k),
            [Decision(k.a, k.f, false)], [Decision(k.b, k.f, false)], {Refusal(k)}, false, true)
  }

  ghost predicate Turns(s: Net, t: Turn, s': Net) {
    Possible(s, t) && After(s, t) == s'
  }

  lemma PostSnoc(links: map<string, seq<Message>>, effects: seq<Effect>, m: Message)
    requires m.Decision? || m.VoteRequest?
    ensures var posted := Post(links, effects);
            Post(links, effects + [Send(m)]) == posted[m.to := Link(posted, m.to) + [m]]
  {
    assert (effects + [Send(m)])[..|effects|] == effects;
  }

  lemma BeginLate(k: Case)
    requires k.a != k.b
    ensures Turns(FreshNet(k), Begin(k.f, LateSources(k)), BegunNet(k))
  {
    var e := Log(StartCommit(k.f, LateSources(k)));
    assert [e][..0] == [];
    SourcePartition(LateSources(k));
    assert LateSources(k)[..1] == [Source(k.a, k.x)] && LateSources(k)[..1][..0] == [];
    assert Requests(LateSources(k)[..1]) == map[k.a := [k.x]];
    assert Requests(LateSources(k)) == map[k.a := [k.x], k.b := [k.y]];
    assert LateSources(k)[0] in LateSources(k) && LateSources(k)[1] in LateSources(k);
    assert Users(LateSources(k)) == {k.a, k.b};
    var c := NewCoord(k.f, LateSources(k));
    assert c == BegunNet(k).memory.table[k.f];
    assert map[][k.f := c] == BegunNet(k).memory.table && {} + {k.f} == {k.f};
    assert map[][k.f := LateSources(k)] == BegunNet(k).started;
    assert Logged([e]) == [e.record] && [] + [e.record] == [e.record];
    var s := After(FreshNet(k), Begin(k.f, LateSources(k)));
    assert s.memory == BegunNet(k).memory;
    var links := FreshNet(k).links;
    assert Post(links, []) == links;
    assert Post(links, [e]) == Post(links, [e][..0]);
    assert s.links == Post(links, [e]);
    assert s.slog == BegunNet(k).slog && s.links == BegunNet(k).links && s.started == BegunNet(k).started;
  }

  /** Sending one request puts it on its receiver's link. */
  lemma AskPosts(k: Case, s: Net, u: string, s': Net)
    requires k.f in s.memory.table && u in s.memory.table[k.f].requests
    requires var c := s.memory.table[k.f];
             && s'.memory == s.memory.(table := s.memory.table[k.f := c.(requests := c.requests - {u})])
             && s' == s.(memory := s'.memory,
                         links := s.links[u := Link(s.links, u) + [VoteRequest(u, k.f, c.requests[u])]])
    ensures Turns(s, Ask(k.f, u), s')
  {
    PostSnoc(s.links, [], VoteRequest(u, k.f, s.memory.table[k.f].requests[u]));
    assert [] + [Send(VoteRequest(u, k.f, s.memory.table[k.f].requests[u]))]
        == [Send(VoteRequest(u, k.f, s.memory.table[k.f].requests[u]))];
    assert Logged([Send(VoteRequest(u, k.f, s.memory.table[k.f].requests[u]))]) == [];
    assert s.slog + [] == s.slog;
  }

  lemma AskFirst(k: Case)
    requires k.a != k.b
    ensures Turns(BegunNet(k), Ask(k.f, k.a), AskedNet(k))
  {
    var s, s' := BegunNet(k), AskedNet(k);
    var c := s.memory.table[k.f];
    assert c.requests - {k.a} == map[k.b := [k.y]];
    assert s.memory.table[k.f := c.(requests := c.requests - {k.a})] == s'.memory.table;
    assert Link(s.links, k.a) + [VoteRequest(k.a, k.f, [k.x])] == [VoteRequest(k.a, k.f, [k.x])];
    assert s.links[k.a := [VoteRequest(k.a, k.f, [k.x])]] == s'.links;
    AskPosts(k, BegunNet(k), k.a, AskedNet(k));
  }

  lemma RefuseFirst(k: Case)
    requires k.a != k.b
    ensures Turns(AskedNet(k), Receive(k.a, false), RefusedNet(k))
  {
    assert AskedNet(k).links[k.a][1..] == [];
  }

  /** The abort goes to `a` and then to `b`. */
  lemma AbortPosts(k: Case, links: map<string, seq<Message>>)
    requires k.a != k.b
    ensures var da, db := Decision(k.a, k.f, false), Decision(k.b, k.f, false);
            Post(links, [Log(Decided(k.f, false, []))] + Broadcast(k.f, false, [k.a, k.b], {}))
            == links[k.a := Link(links, k.a) + [da]][k.b := Link(links, k.b) + [db]]
  {
    var log := Log(Decided(k.f, false, []));
    var da, db := Decision(k.a, k.f, false), Decision(k.b, k.f, false);
    assert [k.b][1..] == [] && [k.a, k.b][1..] == [k.b];
    assert Broadcast(k.f, false, [k.b], {}) == [Send(db)];
    assert Broadcast(k.f, false, [k.a, k.b], {}) == [Send(da)] + [Send(db)];
    assert [log] + ([Send(da)] + [Send(db)]) == [log] + [Send(da)] + [Send(db)];
    assert [log][..0] == [];
    PostSnoc(links, [log], da);
    PostSnoc(links, [log] + [Send(da)], db);
  }

  lemma HearRefusalPosts(k: Case)
    requires k.a != k.b
    ensures Post(RefusedNet(k).links, Abort(RefusedNet(k).memory.table[k.f], [k.a, k.b]).1) == AbortedNet(k).links
  {
    var links, links' := RefusedNet(k).links, AbortedNet(k).links;
    AbortPosts(k, links);
    assert links[k.a := [Decision(k.a, k.f, false)]][k.b := [Decision(k.b, k.f, false)]] == links';
    assert Link(links, k.a) + [Decision(k.a, k.f, false)] == links'[k.a];
    assert Link(links, k.b) + [Decision(k.b, k.f, false)] == links'[k.b];
  }

  lemma HearRefusal(k: Case)
    requires k.a != k.b
    ensures Turns(RefusedNet(k), Hear(Refusal(k), [k.a, k.b]), AbortedNet(k))
  {
    hide Post, Logged, Broadcast;
    var s, s' := RefusedNet(k), AbortedNet(k);
    var c := s.memory.table[k.f];
    HearRefusalPosts(k);
    AbortEffects(c, [k.a, k.b]);
    assert s.memory.table[k.f := c.(decisionMade := true)] == s'.memory.table;
    assert CS.Dispatched(s.memory, Refusal(k), [k.a, k.b]) == (s'.memory, Abort(c, [k.a, k.b]).1);
    assert s.slog + [Decided(k.f, false, [])] == s'.slog;
  }

  lemma RefusalRun(k: Case)
    requires k.a != k.b
    ensures Reaches(FreshNet(k), AbortedNet(k))
  {
    hide Possible, After, Reaches;
    BeginLate(k);
    AskFirst(k);
    RefuseFirst(k);
    HearRefusal(k);
    ReachesOne(FreshNet(k), Begin(k.f, LateSources(k)));
    ReachesOne(BegunNet(k), Ask(k.f, k.a));
    ReachesOne(AskedNet(k), Receive(k.a, false));
    ReachesOne(RefusedNet(k), Hear(Refusal(k), [k.a, k.b]));
    ReachesOn(FreshNet(k), BegunNet(k), AskedNet(k));
    ReachesOn(FreshNet(k), AskedNet(k), RefusedNet(k));
    ReachesOn(FreshNet(k), RefusedNet(k), AbortedNet(k));
  }

  /** The vote thread does not look at the decision, so a request can follow
      it: the collage finishes and `b` keeps its image locked for ever. */
  lemma LateRequestKeepsLock(k: Case)
    requires k.a != k.b
    ensures exists s0, turns ::
              && Idle(s0) && Plays(s0, turns)
              && HeldForEver(Outcome(s0, turns), k.f, k.b)
  {
    hide LinksInv, Plays, Outcome, HeldForEver;
    var s0, s := FreshNet(k), AbortedNet(k);
    assert forall u :: Link(s0.links, u) == [];
    IdleInv(s0, k.f, k.b);
    RefusalRun(k);
    ReachesInv(s0, s);
    LateRequestLocks(s, k.f, k.b);
    var s' :| Reaches(s, s') && HeldForEver(s', k.f, k.b);
    ReachesOn(s0, s, s');
  }
}
