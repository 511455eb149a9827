/** The whole two-phase commit system as a state machine: the server, its log,
    every participant, and a network that may lose, delay, duplicate and
    reorder.  A handler may crash after any prefix of its effects. */
module CommitProtocol {
  import opened CommitTypes
  import opened Coordinator
  import SL = ServerLog
  import CS = CommitServer
  import P = Participant

  datatype Server = Up(memory: CS.Memory) | Down

  datatype Life = Running(memory: P.Memory) | Crashed

  datatype Node = Node(life: Life, log: seq<UserRecord>, disk: set<string>)

  /** What no crash undoes: the server's log and composite files, every message
      ever sent, and the sources of every collage ever started (history only). */
  datatype Past = Past(
    slog: seq<ServerRecord>,
    composites: set<string>,
    net: set<Message>,
    started: map<string, seq<Source>>)

  /** `origin` is each participant's first disk (history only). */
  datatype State = State(
    server: Server,
    past: Past,
    nodes: map<string, Node>,
    origin: map<string, set<string>>)

  datatype Cut = Whole | CrashAfter(k: nat)

  /** `order`, `files`, `orders`: hash iteration orders; `answer`: the human. */
  datatype Event =
    | Start(fileName: string, sources: seq<Source>, cut: Cut)
    | SendRequest(fileName: string, user: string)
    | ToServer(message: Message, order: seq<string>, cut: Cut)
    | VoteTimer(fileName: string, order: seq<string>, cut: Cut)
    | AckTimer(fileName: string, order: seq<string>, cut: Cut)
    | CrashServer
    | RecoverServer(files: seq<string>, orders: map<string, seq<string>>, cut: Cut)
    | ToNode(user: string, message: Message, answer: bool, order: seq<string>, cut: Cut)
    | CrashNode(user: string)
    | RecoverNode(user: string, order: seq<string>, cut: Cut)

  // ----- effects -----

  function Kept(effects: seq<Effect>, cut: Cut): seq<Effect> {
    match cut
    case Whole => effects
    case CrashAfter(k) => if k <= |effects| then effects[..k] else effects
  }

  function Sent(effects: seq<Effect>): set<Message> {
    set e | e in effects && e.Send? :: e.message
  }

  function Composed(effects: seq<Effect>): set<string> {
    set e | e in effects && e.Compose? :: e.fileName
  }

  function Removed(effects: seq<Effect>): set<string> {
    set e | e in effects && e.Remove? :: e.image
  }

  function Logged(effects: seq<Effect>): seq<ServerRecord> {
    if effects == [] then []
    else (if effects[0].Log? then [effects[0].record] else []) + Logged(effects[1..])
  }

  function UserLogged(effects: seq<Effect>): seq<UserRecord> {
    if effects == [] then []
    else (if effects[0].UserLog? then [effects[0].entry] else []) + UserLogged(effects[1..])
  }

  // ----- steps -----

  function ServerStep(s: State, memory: CS.Memory, effects: seq<Effect>, cut: Cut): State {
    var kept := Kept(effects, cut);
    s.(server := if cut.Whole? then Up(memory) else Down,
       past := s.past.(slog := s.past.slog + Logged(kept),
                       composites := s.past.composites + Composed(kept),
                       net := s.past.net + Sent(kept)))
  }

  function NodeStep(s: State, u: string, memory: P.Memory, effects: seq<Effect>, cut: Cut): State
    requires u in s.nodes
  {
    var kept := Kept(effects, cut);
    var n := s.nodes[u];
    s.(nodes := s.nodes[u := Node(if cut.Whole? then Running(memory) else Crashed,
                                  n.log + UserLogged(kept),
                                  n.disk - Removed(kept))],
       past := s.past.(net := s.past.net + Sent(kept)))
  }

  ghost predicate Enabled(s: State, e: Event) {
    match e
    case Start(f, _, _) => s.server.Up? && f !in s.past.started
    case SendRequest(f, u) =>
      // the vote thread of a collage created in this life
      && s.server.Up? && f in s.server.memory.table
      && s.server.memory.table[f].status == "" && u in s.server.memory.table[f].requests
    case ToServer(m, order, _) =>
      && s.server.Up? && m in s.past.net && (m.Vote? || m.Ack?)
      && (m.fileName in s.server.memory.active ==>
            && m.fileName in s.server.memory.table
            && Enumerates(order, s.server.memory.table[m.fileName].userSet))
      && s.server.memory.active <= s.server.memory.table.Keys
    case VoteTimer(f, order, _) =>
      // armed once the vote thread is through
      && s.server.Up? && f in s.server.memory.table
      && s.server.memory.table[f].status == "" && s.server.memory.table[f].requests == map[]
      && Enumerates(order, s.server.memory.table[f].userSet)
    case AckTimer(f, order, _) =>
      && s.server.Up? && f in s.server.memory.active && f in s.server.memory.table
      && s.server.memory.table[f].decisionMade
      && Enumerates(order, s.server.memory.table[f].userSet)
    case CrashServer => s.server.Up?
    case RecoverServer(files, orders, _) =>
      s.server.Down? && CS.RecommitOrders(SL.Replay(s.past.slog), SL.Replay(s.past.slog).Keys, files, orders)
    case ToNode(u, m, _, order, _) =>
      && u in s.nodes && s.nodes[u].life.Running? && m in s.past.net
      && (m.VoteRequest? || m.Decision?) && m.to == u
      && (m.Decision? && m.fileName in s.nodes[u].life.memory.locks ==>
            Enumerates(order, s.nodes[u].life.memory.locks[m.fileName]))
    case CrashNode(u) => u in s.nodes
    case RecoverNode(u, order, _) =>
      u in s.nodes && s.nodes[u].life.Crashed? && Enumerates(order, P.Replay(s.nodes[u].log).used)
  }

  ghost function Next(mode: P.Tokens, s: State, e: Event): State
    requires Enabled(s, e)
  {
    match e
    case Start(f, sources, cut) =>
      ServerStep(s, CS.AfterStart(s.server.memory, f, sources), [Log(StartCommit(f, sources))], cut)
      .(past := s.past.(slog := s.past.slog + Logged(Kept([Log(StartCommit(f, sources))], cut)),
                        started := s.past.started[f := sources]))
    case SendRequest(f, u) =>
      var m := s.server.memory;
      var c := m.table[f];
      ServerStep(s, m.(table := m.table[f := c.(requests := c.requests - {u})]),
                 [Send(VoteRequest(u, f, c.requests[u]))], Whole)
    case ToServer(msg, order, cut) =>
      var result := CS.Dispatched(s.server.memory, msg, order);
      ServerStep(s, result.0, result.1, cut)
    case VoteTimer(f, order, cut) =>
      var m := s.server.memory;
      var result := OnVoteTimeout(m.table[f], order);
      ServerStep(s, m.(table := m.table[f := result.0]), result.1, cut)
    case AckTimer(f, order, cut) =>
      var m := s.server.memory;
      var result := OnAckTimeout(m.table[f], order);
      ServerStep(s, m.(table := m.table[f := result.0]), result.1, cut)
    case CrashServer => s.(server := Down)
    case RecoverServer(files, orders, cut) =>
      var table := SL.Replay(s.past.slog);
      ServerStep(s, CS.Memory(table, table.Keys), CS.Recommit(table, files, orders), cut)
    case ToNode(u, m, answer, order, cut) =>
      var memory := s.nodes[u].life.memory;
      if m.VoteRequest? then
        var yes := P.Willing(memory, m.fileName, m.images, answer);
        NodeStep(s, u, P.AfterVote(memory, m.fileName, m.images, yes),
                 P.VoteEffects(u, m.fileName, m.images, yes), cut)
      else
        NodeStep(s, u, P.AfterDecision(memory, m.fileName, m.commit),
                 P.DecideEffects(mode, u, memory, m.fileName, m.commit, order), cut)
    case CrashNode(u) => s.(nodes := s.nodes[u := s.nodes[u].(life := Crashed)])
    case RecoverNode(u, order, cut) =>
      NodeStep(s, u, P.Replay(s.nodes[u].log), P.Removals(order), cut)
  }

  ghost predicate Init(s: State) {
    && s.server == Up(CS.Memory(map[], {}))
    && s.past == Past([], {}, {}, map[])
    && s.origin.Keys == s.nodes.Keys
    && (forall u :: u in s.nodes ==> s.nodes[u] == Node(Running(P.Blank), [], s.origin[u]))
  }

  ghost predicate Runs(mode: P.Tokens, s: State, events: seq<Event>)
    decreases |events|
  {
    events == [] || (Enabled(s, events[0]) && Runs(mode, Next(mode, s, events[0]), events[1..]))
  }

  ghost function Final(mode: P.Tokens, s: State, events: seq<Event>): State
    requires Runs(mode, s, events)
    decreases |events|
  {
    if events == [] then s else Final(mode, Next(mode, s, events[0]), events[1..])
  }

  /** `s` is the end of some run. */
  ghost predicate Reachable(mode: P.Tokens, s: State) {
    exists s0, events :: Init(s0) && Runs(mode, s0, events) && Final(mode, s0, events) == s
  }

  lemma InitReachable(mode: P.Tokens, s: State)
    requires Init(s)
    ensures Reachable(mode, s)
  {
    assert Runs(mode, s, []) && Final(mode, s, []) == s;
  }

  lemma ReachableNext(mode: P.Tokens, s: State, e: Event)
    requires Reachable(mode, s) && Enabled(s, e)
    ensures Reachable(mode, Next(mode, s, e))
  {
    var s0, events :| Init(s0) && Runs(mode, s0, events) && Final(mode, s0, events) == s;
    RunSnoc(mode, s0, events, e);
  }

  lemma {:induction false} RunSnoc(mode: P.Tokens, s: State, events: seq<Event>, e: Event)
    requires Runs(mode, s, events) && Enabled(Final(mode, s, events), e)
    ensures Runs(mode, s, events + [e])
    ensures Final(mode, s, events + [e]) == Next(mode, Final(mode, s, events), e)
    decreases |events|
  {
    if events == [] {
      assert [e][1..] == [];
      assert events + [e] == [e];
    } else {
      RunSnoc(mode, Next(mode, s, events[0]), events[1..], e);
      assert (events + [e])[1..] == events[1..] + [e];
    }
  }

  // ----- the invariant -----

  ghost predicate Acked(net: set<Message>, u: string, f: string) {
    Ack(u, f, true) in net || Ack(u, f, false) in net
  }

  /** Every decision ever sent is the one the log stands for. */
  ghost predicate MessageOk(m: Message, p: Past) {
    && m.fileName in p.started
    && match m
       case VoteRequest(u, f, images) =>
         u in Users(p.started[f]) && P.ToSet(images) == ImagesOf(p.started[f], u)
       case Vote(_, _, _) => true
       case Decision(_, f, d) => d == SL.Verdict(p.slog, f)
       case Ack(u, f, d) => Decision(u, f, d) in p.net
  }

  ghost predicate NetInv(p: Past) {
    forall m :: m in p.net ==> MessageOk(m, p)
  }

  ghost predicate RecordsOk(f: string, p: Past) {
    && (SL.Latest(p.slog, f).Some? ==> f in p.started && SL.Participants(p.slog, f) == p.started[f])
    && (SL.Verdict(p.slog, f) ==> f in p.composites)
    && (f in p.started && SL.Verdict(p.slog, f) ==>
          forall u :: u in Users(p.started[f]) ==> Vote(u, f, true) in p.net)
    && (f in p.started && SL.Latest(p.slog, f) == SL.Some(Committed(f)) ==>
          forall u :: u in Users(p.started[f]) ==> Acked(p.net, u, f))
  }

  ghost predicate LogInv(p: Past) {
    SL.LogOk(p.slog) && forall f :: RecordsOk(f, p)
  }

  ghost predicate CoordOk(f: string, c: Coord, p: Past) {
    && f in p.started && c.fileName == f && c.userSet == Users(p.started[f])
    && (forall u :: u in c.voteSet ==> u in c.userSet && Vote(u, f, true) in p.net)
    && (forall u :: u in c.ackSet ==> u in c.userSet && Acked(p.net, u, f))
    && (c.status == "" ==>
          && c.sources == p.started[f]
          && forall u :: u in c.requests ==>
               u in c.userSet && P.ToSet(c.requests[u]) == ImagesOf(p.started[f], u))
    && (c.decisionMade ==> c.finalDecision == SL.Verdict(p.slog, f))
    && (!c.decisionMade ==>
          && c.status == ""
          && SL.Latest(p.slog, f) == SL.Some(StartCommit(f, p.started[f]))
          && forall u, d :: Decision(u, f, d) !in p.net)
  }

  ghost predicate Unfinished(f: string, p: Past) {
    SL.Latest(p.slog, f).Some? && !SL.Latest(p.slog, f).value.Committed?
  }

  ghost predicate MemoryOk(m: CS.Memory, p: Past) {
    && (forall f :: f in m.table ==> CoordOk(f, m.table[f], p))
    && (forall f :: f in m.active ==> f in m.table && Unfinished(f, p))
  }

  ghost predicate ServerInv(s: State) {
    NetInv(s.past) && LogInv(s.past) && (s.server.Up? ==> MemoryOk(s.server.memory, s.past))
  }

  /** The collages this participant has logged a yes vote for. */
  function Promises(log: seq<UserRecord>): set<string> {
    set r | r in log && r.Voted? && r.yes :: r.fileName
  }

  /** `image` was promised to a collage that this participant was told to commit. */
  ghost predicate Spent(u: string, image: string, log: seq<UserRecord>, p: Past) {
    exists f :: f in Promises(log) && f in p.started && image in ImagesOf(p.started[f], u)
                && Decision(u, f, true) in p.net
  }

  ghost predicate UserRecordOk(mode: P.Tokens, u: string, r: UserRecord, p: Past) {
    match r
    case Voted(yes, f, images) =>
      yes ==> f in p.started && u in Users(p.started[f]) && P.ToSet(images) == ImagesOf(p.started[f], u)
    case Resolved(token, f) =>
      || (token == P.DecisionToken(mode, true) && Decision(u, f, true) in p.net)
      || (token == P.DecisionToken(mode, false) && Decision(u, f, false) in p.net)
  }

  /** Two promises over one image: at least one of them was called off. */
  ghost predicate Exclusive(u: string, f: string, g: string, p: Past) {
    f in p.started && g in p.started && f != g && ImagesOf(p.started[f], u) * ImagesOf(p.started[g], u) != {} ==>
      Decision(u, f, false) in p.net || Decision(u, g, false) in p.net
  }

  /** A promise stands: locked, called off, or its images used up and deleted. */
  ghost predicate Standing(u: string, f: string, m: P.Memory, disk: set<string>, p: Past) {
    f in p.started &&
    (|| f in m.locks
     || Decision(u, f, false) in p.net
     || (ImagesOf(p.started[f], u) <= m.used && ImagesOf(p.started[f], u) !! disk))
  }

  ghost predicate LifeInv(mode: P.Tokens, u: string, m: P.Memory, n: Node, p: Past) {
    && (forall f :: f in m.locks ==>
          f in Promises(n.log) && f in p.started && m.locks[f] == ImagesOf(p.started[f], u))
    && (forall f :: f in Promises(n.log) ==> Standing(u, f, m, n.disk, p))
    && (forall image :: image in m.used ==> Spent(u, image, n.log, p))
    && (mode.Matched? ==> m == P.Replay(n.log))
  }

  ghost predicate NodeInv(mode: P.Tokens, u: string, n: Node, origin: set<string>, p: Past) {
    && (forall r :: r in n.log ==> UserRecordOk(mode, u, r, p))
    && (forall f, g :: f in Promises(n.log) && g in Promises(n.log) ==> Exclusive(u, f, g, p))
    && (forall image :: image in origin && image !in n.disk ==> Spent(u, image, n.log, p))
    && (forall f :: Vote(u, f, true) in p.net ==> f in Promises(n.log))
    && (forall f :: Ack(u, f, true) in p.net && f in p.started ==> ImagesOf(p.started[f], u) !! n.disk)
    && (n.life.Running? ==> LifeInv(mode, u, n.life.memory, n, p))
  }

  ghost predicate NodesInv(mode: P.Tokens, s: State) {
    && s.origin.Keys == s.nodes.Keys
    && (forall u :: u in s.nodes ==> NodeInv(mode, u, s.nodes[u], s.origin[u], s.past))
    && (forall f, u :: Vote(u, f, true) in s.past.net ==> u in s.nodes)
    && (forall f, u, d :: Ack(u, f, d) in s.past.net ==> u in s.nodes)
  }

  ghost predicate Inv(mode: P.Tokens, s: State) {
    ServerInv(s) && NodesInv(mode, s)
  }
}
