/** Lock release.  Here the links from the server are FIFO and deliver at most
    once, and nothing crashes; votes and acks may still be lost, repeated and
    reordered. */
module LockRelease {
  import opened CommitTypes
  import opened Coordinator
  import opened CommitProtocol
  import SL = ServerLog
  import CS = CommitServer
  import P = Participant
  import SS = CommitServerSafety

  /** `links[u]` is what is in flight to `u`, oldest first; `replies` is every
      vote and ack ever sent. */
  datatype Net = Net(
    memory: CS.Memory,
    slog: seq<ServerRecord>,
    nodes: map<string, P.Memory>,
    links: map<string, seq<Message>>,
    replies: set<Message>,
    started: map<string, seq<Source>>)

  datatype Turn =
    | Begin(fileName: string, sources: seq<Source>)
    | Ask(fileName: string, user: string)
    | Hear(message: Message, order: seq<string>)
    | GiveUp(fileName: string, order: seq<string>)
    | Resend(fileName: string, order: seq<string>)
    | Receive(user: string, answer: bool)
    | Lose(user: string, index: nat)

  function Link(links: map<string, seq<Message>>, u: string): seq<Message> {
    if u in links then links[u] else []
  }

  /** Appends every message in the effects to its receiver's link. */
  function Post(links: map<string, seq<Message>>, effects: seq<Effect>): map<string, seq<Message>> {
    if effects == [] then links
    else
      var prefix, e := effects[..|effects| - 1], effects[|effects| - 1];
      var posted := Post(links, prefix);
      if e.Send? && (e.message.Decision? || e.message.VoteRequest?)
      then posted[e.message.to := Link(posted, e.message.to) + [e.message]]
      else posted
  }

  /** The vote thread (`Ask`) does not look at the decision. */
  ghost predicate Possible(s: Net, t: Turn) {
    match t
    case Begin(f, _) => f !in s.started
    case Ask(f, u) => f in s.memory.table && u in s.memory.table[f].requests
    case Hear(m, order) =>
      && m in s.replies && s.memory.active <= s.memory.table.Keys
      && (m.Vote? || m.Ack?)
      && (m.fileName in s.memory.active ==> Enumerates(order, s.memory.table[m.fileName].userSet))
    case GiveUp(f, order) =>
      && f in s.memory.table && s.memory.table[f].requests == map[]
      && Enumerates(order, s.memory.table[f].userSet)
    case Resend(f, order) =>
      && f in s.memory.active && f in s.memory.table && s.memory.table[f].decisionMade
      && Enumerates(order, s.memory.table[f].userSet)
    case Receive(u, _) => u in s.nodes && Link(s.links, u) != []
    case Lose(u, i) => i < |Link(s.links, u)|
  }

  function Serve(s: Net, memory: CS.Memory, effects: seq<Effect>): Net {
    s.(memory := memory, slog := s.slog + Logged(effects), links := Post(s.links, effects))
  }

  ghost function Received(s: Net, u: string, answer: bool): Net
    requires u in s.nodes && Link(s.links, u) != []
  {
    var m := Link(s.links, u)[0];
    var rest := s.links[u := Link(s.links, u)[1..]];
    if m.VoteRequest? then
      var yes := P.Willing(s.nodes[u], m.fileName, m.images, answer);
      s.(nodes := s.nodes[u := P.AfterVote(s.nodes[u], m.fileName, m.images, yes)],
         links := rest, replies := s.replies + {Vote(u, m.fileName, yes)})
    else if m.Decision? then
      s.(nodes := s.nodes[u := P.AfterDecision(s.nodes[u], m.fileName, m.commit)],
         links := rest, replies := s.replies + {Ack(u, m.fileName, m.commit)})
    else s.(links := rest)
  }

  ghost function After(s: Net, t: Turn): Net
    requires Possible(s, t)
  {
    match t
    case Begin(f, sources) =>
      Serve(s, CS.AfterStart(s.memory, f, sources), [Log(StartCommit(f, sources))])
      .(started := s.started[f := sources])
    case Ask(f, u) =>
      var c := s.memory.table[f];
      Serve(s, s.memory.(table := s.memory.table[f := c.(requests := c.requests - {u})]),
            [Send(VoteRequest(u, f, c.requests[u]))])
    case Hear(m, order) =>
      var result := CS.Dispatched(s.memory, m, order);
      Serve(s, result.0, result.1)
    case GiveUp(f, order) =>
      var result := OnVoteTimeout(s.memory.table[f], order);
      Serve(s, s.memory.(table := s.memory.table[f := result.0]), result.1)
    case Resend(f, order) =>
      var result := OnAckTimeout(s.memory.table[f], order);
      Serve(s, s.memory.(table := s.memory.table[f := result.0]), result.1)
    case Receive(u, answer) => Received(s, u, answer)
    case Lose(u, i) =>
      s.(links := s.links[u := Link(s.links, u)[..i] + Link(s.links, u)[i + 1..]])
  }

  ghost predicate Idle(s: Net) {
    && s.memory == CS.Memory(map[], {}) && s.slog == [] && s.replies == {} && s.started == map[]
    && (forall u :: Link(s.links, u) == [])
    && (forall u :: u in s.nodes ==> s.nodes[u] == P.Blank)
  }

  ghost predicate Plays(s: Net, turns: seq<Turn>)
    decreases |turns|
  {
    turns == [] || (Possible(s, turns[0]) && Plays(After(s, turns[0]), turns[1..]))
  }

  ghost function Outcome(s: Net, turns: seq<Turn>): Net
    requires Plays(s, turns)
    decreases |turns|
  {
    if turns == [] then s else Outcome(After(s, turns[0]), turns[1..])
  }

  /** A request to `u` about a collage that is already decided. */
  ghost predicate Late(s: Net, t: Turn, f: string, u: string) {
    t == Ask(f, u) && f in s.memory.table && s.memory.table[f].decisionMade
  }

  /** In this run `u` is never asked about `f` after the decision. */
  ghost predicate Timely(s: Net, turns: seq<Turn>, f: string, u: string)
    requires Plays(s, turns)
    decreases |turns|
  {
    turns == [] || (!Late(s, turns[0], f, u) && Timely(After(s, turns[0]), turns[1..], f, u))
  }

  ghost predicate Finished(s: Net, f: string) {
    SL.Latest(s.slog, f) == SL.Some(Committed(f))
  }

  // ----- the invariant of every run -----

  ghost predicate RoutedOk(u: string, m: Message, s: Net) {
    && m.fileName in s.memory.table && m.fileName in s.started
    && (m.VoteRequest? ==> u in Users(s.started[m.fileName]))
    && (m.Decision? ==> s.memory.table[m.fileName].decisionMade)
  }

  ghost predicate EntryOk(f: string, c: Coord, s: Net) {
    && f in s.started && c.fileName == f && c.userSet == Users(s.started[f])
    && (forall u :: u in c.ackSet ==> u in c.userSet && Acked(s.replies, u, f))
    && (forall u :: u in c.requests ==> u in c.userSet)
  }

  ghost predicate RecordOk(f: string, s: Net) {
    Finished(s, f) ==> f in s.started && forall u :: u in Users(s.started[f]) ==> Acked(s.replies, u, f)
  }

  /** An active collage still misses an ack, and any other one is finished. */
  ghost predicate CountOk(f: string, s: Net) {
    f in s.memory.table ==>
      var c := s.memory.table[f];
      if f in s.memory.active then c.userSet == {} || Counting(c) else c.decisionMade && Finished(s, f)
  }

  ghost predicate DecidedAck(f: string, s: Net) {
    f in s.memory.table && s.memory.table[f].decisionMade
  }

  ghost predicate LinksInv(s: Net) {
    && s.memory.active <= s.memory.table.Keys
    && (forall f :: f in s.started <==> f in s.memory.table)
    && (forall f :: f in s.memory.table ==> EntryOk(f, s.memory.table[f], s))
    && (forall f :: RecordOk(f, s))
    && (forall f :: CountOk(f, s))
    && (forall u, m :: m in Link(s.links, u) ==> RoutedOk(u, m, s))
    && (forall u, f, d :: Ack(u, f, d) in s.replies ==> DecidedAck(f, s))
    && (forall u, f :: u in s.nodes && f in s.nodes[u].locks ==>
          f in s.started && u in Users(s.started[f]))
  }

  // ----- the invariant about one collage and one user, while nothing is late -----

  /** No decision about `f` overtakes a request about it. */
  ghost predicate Ordered(f: string, link: seq<Message>) {
    forall i, j :: 0 <= i < j < |link| && link[i].Decision? && link[i].fileName == f ==>
      !(link[j].VoteRequest? && link[j].fileName == f)
  }

  ghost predicate NoRequest(f: string, link: seq<Message>) {
    forall m :: m in link ==> !(m.VoteRequest? && m.fileName == f)
  }

  /** Once `u` has acknowledged `f`, it is done with it for good. */
  ghost predicate Done(f: string, u: string, s: Net) {
    NoRequest(f, Link(s.links, u)) && (u in s.nodes ==> f !in s.nodes[u].locks)
  }

  ghost predicate TrackInv(f: string, u: string, s: Net) {
    Ordered(f, Link(s.links, u)) && (Acked(s.replies, u, f) ==> Done(f, u, s))
  }

  // ----- posting -----

  /** Links only grow at the end, by messages of the effects to their receiver. */
  lemma {:induction false} PostAppends(links: map<string, seq<Message>>, effects: seq<Effect>, u: string)
    ensures Link(links, u) <= Link(Post(links, effects), u)
    ensures forall m :: m in Link(Post(links, effects), u)[|Link(links, u)|..] ==>
              Send(m) in effects && (m.Decision? || m.VoteRequest?) && m.to == u
  {
    if effects != [] {
      var prefix, e := effects[..|effects| - 1], effects[|effects| - 1];
      PostAppends(links, prefix, u);
      assert effects == prefix + [e];
    }
  }

  // ----- turns of the server -----

  /** One turn of the server about collage `f`, with these effects. */
  ghost predicate Served(s: Net, s': Net, f: string, effects: seq<Effect>) {
    && Grows(s, s', f)
    && s'.links == Post(s.links, effects)
    && (forall m :: Send(m) in effects ==> m.fileName == f && (m.VoteRequest? || m.Decision?) && RoutedOk(m.to, m, s'))
    && (forall m :: Send(m) in effects && m.VoteRequest? ==> effects == [Send(m)])
    && EntryOk(f, s'.memory.table[f], s') && RecordOk(f, s') && CountOk(f, s')
    && (forall g :: g != f ==> SL.Latest(s'.slog, g) == SL.Latest(s.slog, g))
  }

  /** The turn changes collage `f` only, and never undecides it. */
  ghost predicate Grows(s: Net, s': Net, f: string) {
    && s'.nodes == s.nodes && s'.replies == s.replies
    && s'.memory.table.Keys == s.memory.table.Keys + {f} && s'.memory.active <= s'.memory.table.Keys
    && (forall g :: g in s.memory.table && g != f ==> s'.memory.table[g] == s.memory.table[g])
    && (forall g :: g != f ==> (g in s'.memory.active <==> g in s.memory.active))
    && (f in s.memory.table && s.memory.table[f].decisionMade ==> s'.memory.table[f].decisionMade)
    && (forall g :: g in s.started ==> g in s'.started && s'.started[g] == s.started[g])
    && s'.started.Keys == s.started.Keys + {f}
  }

  lemma ServedKeepsTable(s: Net, s': Net, f: string, effects: seq<Effect>)
    requires LinksInv(s) && Served(s, s', f, effects)
    ensures forall g :: g in s'.memory.table ==> EntryOk(g, s'.memory.table[g], s')
    ensures forall g :: RecordOk(g, s') && CountOk(g, s')
  {
    hide SL.Latest, Acked;
    forall g ensures RecordOk(g, s') && CountOk(g, s') {
      assert RecordOk(g, s) && CountOk(g, s);
    }
    forall g | g in s'.memory.table ensures EntryOk(g, s'.memory.table[g], s') {
      if g != f {
        assert EntryOk(g, s.memory.table[g], s);
      }
    }
  }

  lemma ServedKeepsInv(s: Net, s': Net, f: string, effects: seq<Effect>)
    requires LinksInv(s) && Served(s, s', f, effects)
    ensures LinksInv(s')
  {
    hide EntryOk, RecordOk, CountOk;
    ServedKeepsTable(s, s', f, effects);
    forall u, m | m in Link(s'.links, u) ensures RoutedOk(u, m, s') {
      PostAppends(s.links, effects, u);
      if m in Link(s.links, u) {
        assert RoutedOk(u, m, s);
      }
    }
    forall u, g, d | Ack(u, g, d) in s'.replies ensures DecidedAck(g, s') {
      assert DecidedAck(g, s);
    }
  }

  lemma OrderedAppend(f: string, link: seq<Message>, suffix: seq<Message>)
    requires Ordered(f, link)
    requires NoRequest(f, suffix) || forall m :: m in link + suffix ==> !(m.Decision? && m.fileName == f)
    ensures Ordered(f, link + suffix)
  {
    forall i, j | 0 <= i < j < |link + suffix| && (link + suffix)[i].Decision? && (link + suffix)[i].fileName == f
      ensures !((link + suffix)[j].VoteRequest? && (link + suffix)[j].fileName == f)
    {
      if j >= |link| {
        assert (link + suffix)[j] == suffix[j - |link|];
        assert (link + suffix)[i] in link + suffix;
      }
    }
  }

  lemma TrackGrows(s: Net, s': Net, f: string, u: string, suffix: seq<Message>)
    requires TrackInv(f, u, s) && s'.nodes == s.nodes && s'.replies == s.replies
    requires Link(s'.links, u) == Link(s.links, u) + suffix
    requires || NoRequest(f, suffix)
             || (!Acked(s.replies, u, f) && forall m :: m in Link(s.links, u) + suffix ==>
                 !(m.Decision? && m.fileName == f))
    ensures TrackInv(f, u, s')
  {
    OrderedAppend(f, Link(s.links, u), suffix);
  }

  lemma ServedKeepsTrack(s: Net, s': Net, g: string, effects: seq<Effect>, f: string, u: string)
    requires LinksInv(s) && Served(s, s', g, effects) && TrackInv(f, u, s)
    requires forall m :: Send(m) in effects && m.VoteRequest? && m.to == u && m.fileName == f ==>
                           f in s.memory.table && !s.memory.table[f].decisionMade
    ensures TrackInv(f, u, s')
  {
    hide LinksInv, TrackInv, EntryOk, CountOk, RecordOk, Acked, SL.Latest;
    PostAppends(s.links, effects, u);
    var suffix := Link(s'.links, u)[|Link(s.links, u)|..];
    assert Link(s'.links, u) == Link(s.links, u) + suffix;
    if !NoRequest(f, suffix) {
      var m :| m in suffix && m.VoteRequest? && m.fileName == f;
      UndecidedUntouched(s, f, u);
      assert effects == [Send(m)];
      assert forall x :: x in suffix ==> Send(x) in effects;
      assert forall x :: x in suffix ==> x == m;
    }
    TrackGrows(s, s', f, u, suffix);
  }

  /** Nobody has acknowledged an undecided collage, and no decision is on its way. */
  lemma UndecidedUntouched(s: Net, f: string, u: string)
    requires LinksInv(s) && f in s.memory.table && !s.memory.table[f].decisionMade
    ensures !Acked(s.replies, u, f)
    ensures forall m :: m in Link(s.links, u) ==> !(m.Decision? && m.fileName == f)
  {
    assert Ack(u, f, true) in s.replies ==> DecidedAck(f, s);
    assert Ack(u, f, false) in s.replies ==> DecidedAck(f, s);
    forall m | m in Link(s.links, u) ensures !(m.Decision? && m.fileName == f) {
      assert RoutedOk(u, m, s);
    }
  }

  // ----- the server turns one by one -----

  lemma LoggedOnce(log: seq<ServerRecord>, r: ServerRecord)
    ensures forall g :: SL.Latest(log + [r], g) == if g == r.fileName then SL.Some(r) else SL.Latest(log, g)
  {
    forall g {
      SL.ReadSnoc(log, r, g);
    }
  }

  lemma BeginTurn(s: Net, f: string, sources: seq<Source>)
    requires LinksInv(s) && Possible(s, Begin(f, sources))
    ensures Served(s, After(s, Begin(f, sources)), f, [Log(StartCommit(f, sources))])
  {
    hide Grows, LinksInv;
    BeginGrows(s, f, sources);
    SourcePartition(sources);
    assert Logged([Log(StartCommit(f, sources))]) == [StartCommit(f, sources)];
    LoggedOnce(s.slog, StartCommit(f, sources));
  }

  lemma BeginGrows(s: Net, f: string, sources: seq<Source>)
    requires LinksInv(s) && Possible(s, Begin(f, sources))
    ensures Grows(s, After(s, Begin(f, sources)), f)
  {
  }

  /** A turn that replaces the entry of a known collage. */
  lemma CollageGrows(s: Net, f: string, c: Coord, active: set<string>, effects: seq<Effect>)
    requires LinksInv(s) && f in s.memory.table
    requires active == s.memory.active || active == s.memory.active - {f}
    requires s.memory.table[f].decisionMade ==> c.decisionMade
    ensures Grows(s, Serve(s, CS.Memory(s.memory.table[f := c], active), effects), f)
  {
  }

  lemma AskTurn(s: Net, f: string, u: string)
    requires LinksInv(s) && Possible(s, Ask(f, u))
    ensures var request := VoteRequest(u, f, s.memory.table[f].requests[u]);
            Served(s, After(s, Ask(f, u)), f, [Send(request)])
  {
    hide SL.Latest, Post, Users, Grows, LinksInv;
    var c := s.memory.table[f];
    var effects := [Send(VoteRequest(u, f, c.requests[u]))];
    EntryKnown(s, f);
    CollageGrows(s, f, c.(requests := c.requests - {u}), s.memory.active, effects);
    assert Logged(effects) == [];
    assert s.slog + [] == s.slog;
  }

  lemma EntryKnown(s: Net, f: string)
    requires LinksInv(s) && f in s.memory.table
    ensures EntryOk(f, s.memory.table[f], s) && RecordOk(f, s) && CountOk(f, s)
    ensures s.memory.active <= s.memory.table.Keys
  {
  }

  /** A turn on a known collage that logs at most one record, about that collage. */
  lemma CollageTurn(s: Net, s': Net, f: string, c: Coord, active: set<string>, effects: seq<Effect>)
    requires LinksInv(s) && f in s.memory.table
    requires active == s.memory.active || active == s.memory.active - {f}
    requires s' == Serve(s, CS.Memory(s.memory.table[f := c], active), effects)
    requires EntryOk(f, c, s) && (s.memory.table[f].decisionMade ==> c.decisionMade)
    requires forall m :: Send(m) in effects ==> m.Decision? && m.fileName == f && c.decisionMade
    requires Logged(effects) == [] || (|Logged(effects)| == 1 && Logged(effects)[0].fileName == f)
    requires Logged(effects) == [Committed(f)] ==> forall u :: u in c.userSet ==> Acked(s.replies, u, f)
    requires if f in active then c.userSet == {} || Counting(c)
             else c.decisionMade && Logged(effects) == if f in s.memory.active then [Committed(f)] else []
    ensures Served(s, s', f, effects)
  {
    hide SL.Latest, Post, Users, Logged, Grows, LinksInv, Acked;
    EntryKnown(s, f);
    CollageGrows(s, f, c, active, effects);
    if Logged(effects) == [] {
      assert s'.slog == s.slog;
    } else {
      LoggedOnce(s.slog, Logged(effects)[0]);
      assert Logged(effects) == [Logged(effects)[0]];
    }
  }

  lemma DecisionTurnEffects(pre: seq<Effect>, r: ServerRecord, f: string, d: bool, order: seq<string>,
                            acked: set<string>)
    requires forall e :: e in pre ==> e.Compose?
    ensures var effects := pre + [Log(r)] + Broadcast(f, d, order, acked);
            && Logged(effects) == [r]
            && forall m :: Send(m) in effects ==> m.Decision? && m.fileName == f
  {
    SS.BroadcastAnnounces(f, d, order, acked);
    SS.KeptLogsFirst(pre, r, Broadcast(f, d, order, acked), Whole);
  }

  lemma AbortEffects(c: Coord, order: seq<string>)
    ensures Logged(Abort(c, order).1) == [Decided(c.fileName, false, [])]
    ensures forall m :: Send(m) in Abort(c, order).1 ==> m.Decision? && m.fileName == c.fileName
  {
    DecisionTurnEffects([], Decided(c.fileName, false, []), c.fileName, false, order, c.ackSet);
    assert [] + [Log(Decided(c.fileName, false, []))] == [Log(Decided(c.fileName, false, []))];
  }

  lemma HearUnknown(s: Net, m: Message, order: seq<string>)
    requires Possible(s, Hear(m, order)) && m.fileName !in s.memory.active
    ensures After(s, Hear(m, order)) == s
  {
    assert s.slog + [] == s.slog;
  }

  lemma HearVote(s: Net, m: Message, order: seq<string>)
    requires LinksInv(s) && Possible(s, Hear(m, order)) && m.Vote? && m.fileName in s.memory.active
    ensures Served(s, After(s, Hear(m, order)), m.fileName, OnMessage(s.memory.table[m.fileName], m, order).1)
  {
    hide SL.Latest, Post, Users, LinksInv, Acked, Served, Broadcast;
    var f := m.fileName;
    var c := s.memory.table[f];
    EntryKnown(s, f);
    var result := OnMessage(c, m, order);
    if !c.decisionMade && m.yes && AfterVote(c, m.from).1 {
      DecisionTurnEffects([Compose(f)], Decided(f, true, c.sources), f, true, order, c.ackSet);
      assert [Compose(f)] + [Log(Decided(f, true, c.sources))] == [Compose(f), Log(Decided(f, true, c.sources))];
    } else if !c.decisionMade && !m.yes {
      AbortEffects(c, order);
    }
    CollageTurn(s, After(s, Hear(m, order)), f, result.0, s.memory.active, result.1);
  }

  lemma HearAck(s: Net, m: Message, order: seq<string>)
    requires LinksInv(s) && Possible(s, Hear(m, order)) && m.Ack? && m.fileName in s.memory.active
    ensures Served(s, After(s, Hear(m, order)), m.fileName, OnMessage(s.memory.table[m.fileName], m, order).1)
  {
    hide SL.Latest, Post, Users, LinksInv, Served, AfterAck;
    var f := m.fileName;
    var c := s.memory.table[f];
    EntryKnown(s, f);
    AckEntry(s, m.from, f, m.commit);
    var result := OnMessage(c, m, order);
    if result.2 {
      assert Logged([Log(Committed(f))]) == [Committed(f)];
      CollageTurn(s, After(s, Hear(m, order)), f, result.0, s.memory.active - {f}, result.1);
    } else {
      CollageTurn(s, After(s, Hear(m, order)), f, result.0, s.memory.active, result.1);
    }
  }

  lemma AckEntry(s: Net, u: string, f: string, d: bool)
    requires LinksInv(s) && Ack(u, f, d) in s.replies && f in s.memory.active
    ensures f in s.memory.table
    ensures var (c, all) := AfterAck(s.memory.table[f], u);
            && EntryOk(f, c, s) && c.decisionMade && s.memory.table[f].decisionMade
            && (all ==> forall v :: v in c.userSet ==> Acked(s.replies, v, f))
            && (!all ==> c.userSet == {} || Counting(c))
  {
    assert DecidedAck(f, s);
    EntryKnown(s, f);
    var c := s.memory.table[f];
    if c.userSet != {} {
      AckProgress(c, u);
    }
    if AfterAck(c, u).1 {
      SubsetOfSameSize(c.ackSet + {u}, c.userSet);
      assert c.ackSet + {u} == c.userSet;
    }
  }

  lemma GiveUpTurn(s: Net, f: string, order: seq<string>)
    requires LinksInv(s) && Possible(s, GiveUp(f, order))
    ensures Served(s, After(s, GiveUp(f, order)), f, OnVoteTimeout(s.memory.table[f], order).1)
  {
    var c := s.memory.table[f];
    var result := OnVoteTimeout(c, order);
    assert EntryOk(f, c, s) && CountOk(f, s);
    if !c.decisionMade {
      AbortEffects(c, order);
    }
    CollageTurn(s, After(s, GiveUp(f, order)), f, result.0, s.memory.active, result.1);
  }

  lemma ResendTurn(s: Net, f: string, order: seq<string>)
    requires LinksInv(s) && Possible(s, Resend(f, order))
    ensures Served(s, After(s, Resend(f, order)), f, OnAckTimeout(s.memory.table[f], order).1)
  {
    var c := s.memory.table[f];
    var result := OnAckTimeout(c, order);
    assert EntryOk(f, c, s) && CountOk(f, s);
    SS.BroadcastAnnounces(f, c.finalDecision, order, c.ackSet);
    SS.NothingLogged(result.1);
    CollageTurn(s, After(s, Resend(f, order)), f, result.0, s.memory.active, result.1);
  }

  /** Every turn of the server is one of these; only `Ask` sends a request. */
  lemma ServerTurn(s: Net, t: Turn) returns (f: string, effects: seq<Effect>)
    requires LinksInv(s) && Possible(s, t) && !t.Receive? && !t.Lose?
    ensures After(s, t) == s || Served(s, After(s, t), f, effects)
    ensures forall m :: Send(m) in effects && m.VoteRequest? ==> t == Ask(m.fileName, m.to)
    ensures f == if t.Hear? then t.message.fileName else t.fileName
  {
    match t
    case Begin(g, sources) =>
      f, effects := g, [Log(StartCommit(g, sources))];
      BeginTurn(s, g, sources);
    case Ask(g, u) =>
      f, effects := g, [Send(VoteRequest(u, g, s.memory.table[g].requests[u]))];
      AskTurn(s, g, u);
    case Hear(m, order) =>
      f, effects := m.fileName, [];
      if f !in s.memory.active {
        HearUnknown(s, m, order);
      } else {
        if m.Ack? {
          HearAck(s, m, order);
        } else {
          HearVote(s, m, order);
        }
        effects := OnMessage(s.memory.table[f], m, order).1;
        SS.BroadcastAnnounces(s.memory.table[f].fileName, true, order, s.memory.table[f].ackSet);
        SS.BroadcastAnnounces(s.memory.table[f].fileName, false, order, s.memory.table[f].ackSet);
      }
    case GiveUp(g, order) =>
      f, effects := g, OnVoteTimeout(s.memory.table[g], order).1;
      SS.BroadcastAnnounces(s.memory.table[g].fileName, false, order, s.memory.table[g].ackSet);
      GiveUpTurn(s, g, order);
    case Resend(g, order) =>
      f, effects := g, OnAckTimeout(s.memory.table[g], order).1;
      SS.BroadcastAnnounces(s.memory.table[g].fileName, s.memory.table[g].finalDecision, order,
                            s.memory.table[g].ackSet);
      ResendTurn(s, g, order);
  }

  // ----- turns of the links -----

  /** Replies may grow and links lose messages; the server does not move. */
  ghost predicate Delivers(s: Net, s': Net) {
    && s'.memory == s.memory && s'.slog == s.slog && s'.started == s.started && s.replies <= s'.replies
    && (forall u, m :: m in Link(s'.links, u) ==> m in Link(s.links, u))
    && (forall u, f, d :: Ack(u, f, d) in s'.replies && Ack(u, f, d) !in s.replies ==> DecidedAck(f, s))
    && (forall u, f :: u in s'.nodes && f in s'.nodes[u].locks ==>
          f in s.started && u in Users(s.started[f]))
  }

  lemma DeliversKeepsInv(s: Net, s': Net)
    requires LinksInv(s) && Delivers(s, s')
    ensures LinksInv(s')
  {
    forall f | f in s'.memory.table ensures EntryOk(f, s'.memory.table[f], s') {
      assert EntryOk(f, s.memory.table[f], s);
    }
    forall f ensures RecordOk(f, s') && CountOk(f, s') {
      assert RecordOk(f, s) && CountOk(f, s);
    }
    forall u, m | m in Link(s'.links, u) ensures RoutedOk(u, m, s') {
      assert RoutedOk(u, m, s);
    }
    forall u, f, d | Ack(u, f, d) in s'.replies ensures DecidedAck(f, s') {
      if Ack(u, f, d) in s.replies {
        assert DecidedAck(f, s);
      }
    }
  }

  lemma ShorterOrdered(f: string, a: seq<Message>, m: Message, b: seq<Message>)
    requires Ordered(f, a + [m] + b)
    ensures Ordered(f, a + b)
  {
    var link := a + [m] + b;
    forall i, j | 0 <= i < j < |a + b| && (a + b)[i].Decision? && (a + b)[i].fileName == f
      ensures !((a + b)[j].VoteRequest? && (a + b)[j].fileName == f)
    {
      var i', j' := if i < |a| then i else i + 1, if j < |a| then j else j + 1;
      assert link[i'] == (a + b)[i] && link[j'] == (a + b)[j];
    }
  }

  lemma LoseTurn(s: Net, u: string, i: nat)
    requires LinksInv(s) && Possible(s, Lose(u, i))
    ensures Delivers(s, After(s, Lose(u, i)))
  {
    var link := Link(s.links, u);
    assert forall m :: m in link[..i] + link[i + 1..] ==> m in link;
  }

  lemma LoseKeepsTrack(s: Net, v: string, i: nat, f: string, u: string)
    requires LinksInv(s) && Possible(s, Lose(v, i)) && TrackInv(f, u, s)
    ensures TrackInv(f, u, After(s, Lose(v, i)))
  {
    var link := Link(s.links, v);
    assert link == link[..i] + [link[i]] + link[i + 1..];
    assert forall m :: m in link[..i] + link[i + 1..] ==> m in link;
    if v == u {
      ShorterOrdered(f, link[..i], link[i], link[i + 1..]);
    }
  }

  lemma ReceiveTurn(s: Net, u: string, answer: bool)
    requires LinksInv(s) && Possible(s, Receive(u, answer))
    ensures Delivers(s, After(s, Receive(u, answer)))
  {
    hide Post, P.Willing, EntryOk, RecordOk, CountOk;
    assert RoutedOk(u, Link(s.links, u)[0], s);
    assert forall m :: m in Link(s.links, u)[1..] ==> m in Link(s.links, u);
  }

  lemma ReceiveKeepsTrack(s: Net, v: string, answer: bool, f: string, u: string)
    requires Possible(s, Receive(v, answer)) && TrackInv(f, u, s)
    ensures TrackInv(f, u, After(s, Receive(v, answer)))
  {
    hide P.Willing;
    if v == u {
      var link := Link(s.links, u);
      RestOrdered(f, link);
      var s' := Received(s, u, answer);
      assert Link(s'.links, u) == link[1..];
      assert Acked(s'.replies, u, f) ==> Acked(s.replies, u, f) || (link[0].Decision? && link[0].fileName == f);
    }
  }

  /** What stays behind a received message; behind a decision about `f` there is
      no request about it. */
  lemma RestOrdered(f: string, link: seq<Message>)
    requires link != [] && Ordered(f, link)
    ensures Ordered(f, link[1..])
    ensures NoRequest(f, link) ==> NoRequest(f, link[1..]) && !(link[0].VoteRequest? && link[0].fileName == f)
    ensures link[0].Decision? && link[0].fileName == f ==> NoRequest(f, link[1..])
  {
    var rest := link[1..];
    assert forall k :: 0 <= k < |rest| ==> rest[k] == link[k + 1];
    forall i, j | 0 <= i < j < |rest| && rest[i].Decision? && rest[i].fileName == f
      ensures !(rest[j].VoteRequest? && rest[j].fileName == f)
    {
      assert link[i + 1].Decision? && link[i + 1].fileName == f;
    }
    if NoRequest(f, link) {
      assert link[0] in link;
      assert forall m :: m in rest ==> m in link;
    }
    if link[0].Decision? && link[0].fileName == f {
      forall m | m in rest ensures !(m.VoteRequest? && m.fileName == f) {
        var j :| 0 <= j < |rest| && rest[j] == m;
        assert link[j + 1] == m;
      }
    }
  }

  // ----- every turn -----

  lemma TurnKeepsInv(s: Net, t: Turn)
    requires LinksInv(s) && Possible(s, t)
    ensures LinksInv(After(s, t))
  {
    hide LinksInv, Possible, After, Served, Delivers;
    if t.Receive? {
      ReceiveTurn(s, t.user, t.answer);
      DeliversKeepsInv(s, After(s, t));
    } else if t.Lose? {
      LoseTurn(s, t.user, t.index);
      DeliversKeepsInv(s, After(s, t));
    } else {
      var f, effects := ServerTurn(s, t);
      if After(s, t) != s {
        ServedKeepsInv(s, After(s, t), f, effects);
      }
    }
  }

  lemma TurnKeepsTrack(s: Net, t: Turn, f: string, u: string)
    requires LinksInv(s) && Possible(s, t) && TrackInv(f, u, s) && !Late(s, t, f, u)
    ensures TrackInv(f, u, After(s, t))
  {
    hide LinksInv, After, Served, TrackInv, EntryOk;
    if t.Receive? {
      ReceiveKeepsTrack(s, t.user, t.answer, f, u);
    } else if t.Lose? {
      LoseKeepsTrack(s, t.user, t.index, f, u);
    } else {
      var g, effects := ServerTurn(s, t);
      if After(s, t) != s {
        ServedKeepsTrack(s, After(s, t), g, effects, f, u);
      }
    }
  }

  lemma {:induction false} TurnsKeepInv(s: Net, turns: seq<Turn>)
    requires LinksInv(s) && Plays(s, turns)
    ensures LinksInv(Outcome(s, turns))
    decreases |turns|
  {
    hide LinksInv, Possible, After;
    if turns != [] {
      TurnKeepsInv(s, turns[0]);
      TurnsKeepInv(After(s, turns[0]), turns[1..]);
    }
  }

  lemma {:induction false} TurnsKeepTrack(s: Net, turns: seq<Turn>, f: string, u: string)
    requires LinksInv(s) && TrackInv(f, u, s) && Plays(s, turns) && Timely(s, turns, f, u)
    ensures TrackInv(f, u, Outcome(s, turns))
    decreases |turns|
  {
    hide LinksInv, TrackInv, Possible, After, Late;
    if turns != [] {
      TurnKeepsInv(s, turns[0]);
      TurnKeepsTrack(s, turns[0], f, u);
      TurnsKeepTrack(After(s, turns[0]), turns[1..], f, u);
    }
  }

  lemma IdleInv(s: Net, f: string, u: string)
    requires Idle(s)
    ensures LinksInv(s) && TrackInv(f, u, s)
  {
  }

  /** In every run of the code as it is: a user that is not asked about a collage
      after its decision holds no lock for it once the log says finished. */
  lemma LocksReleased(s0: Net, turns: seq<Turn>, f: string, u: string)
    requires Idle(s0) && Plays(s0, turns) && Timely(s0, turns, f, u)
    requires Finished(Outcome(s0, turns), f)
    requires u in Outcome(s0, turns).nodes
    ensures f !in Outcome(s0, turns).nodes[u].locks
  {
    hide Plays, Outcome, Timely;
    IdleInv(s0, f, u);
    TurnsKeepInv(s0, turns);
    TurnsKeepTrack(s0, turns, f, u);
    var s := Outcome(s0, turns);
    assert RecordOk(f, s);
  }
}
