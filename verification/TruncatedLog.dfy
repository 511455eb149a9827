/** The log as the code writes it: Helper.write opens the file afresh, so only
    the last record survives.  When that loses something, and runs in which it
    does. */
module TruncatedLog {
  import opened CommitTypes
  import opened Coordinator
  import opened CommitProtocol
  import SL = ServerLog
  import P = Participant
  import CT = CommitTheorems
  import CD = CommitDepartures
  import SS = CommitServerSafety
  import NS = CommitNodeSafety

  /** What is left of a log. */
  function Truncated<T>(log: seq<T>): seq<T> {
    if log == [] then [] else [log[|log| - 1]]
  }

  // ----- the server -----

  ghost predicate SameDuties(a: map<string, Coord>, b: map<string, Coord>) {
    && a.Keys == b.Keys
    && (forall f :: f in a ==> a[f].userSet == b[f].userSet && a[f].finalDecision == b[f].finalDecision)
  }

  lemma {:induction false} DecidedSources(log: seq<ServerRecord>, f: string)
    requires SL.LogOk(log) && SL.Latest(log, f).Some?
    ensures var r := SL.Latest(log, f).value;
            && (r.StartCommit? || (r.Decided? && r.commit) ==> r.sources == SL.Participants(log, f))
            && (r.Decided? && !r.commit ==> r.sources == [])
  {
    var prefix, last := log[..|log| - 1], log[|log| - 1];
    if last.fileName != f || last.Decided? {
      DecidedSources(prefix, f);
    }
  }

  lemma ReplayOne(r: ServerRecord)
    ensures SL.Replay([r]) == SL.ReplayRecord(map[], r)
    ensures SL.Replay([r]).Keys == if r.Committed? then {} else {r.fileName}
  {
    SL.ReplaySnoc(map[], [], r);
    assert [] + [r] == [r];
  }

  ghost predicate OthersFinished(log: seq<ServerRecord>, f: string) {
    forall g :: g != f && SL.Latest(log, g).Some? ==> SL.Latest(log, g).value.Committed?
  }

  /** The last record is an abort, which does not name those still to be told. */
  ghost predicate NamelessAbort(log: seq<ServerRecord>)
    requires log != []
  {
    var last := log[|log| - 1];
    last.Decided? && !last.commit && Users(SL.Participants(log, last.fileName)) != {}
  }

  lemma TruncatedKeys(log: seq<ServerRecord>)
    requires SL.LogOk(log) && log != []
    ensures SL.Replay(log).Keys == SL.Replay(Truncated(log)).Keys <==> OthersFinished(log, log[|log| - 1].fileName)
    ensures SL.Replay(Truncated(log)).Keys == if log[|log| - 1].Committed? then {} else {log[|log| - 1].fileName}
  {
    var last := log[|log| - 1];
    ReplayOne(last);
    SL.ReplayInvertsLogging(log);
    KeysAgree(log, SL.Replay(log).Keys, last);
  }

  lemma KeysAgree(log: seq<ServerRecord>, keys: set<string>, last: ServerRecord)
    requires SL.Latest(log, last.fileName) == SL.Some(last)
    requires forall f :: f in keys <==> SL.Latest(log, f).Some? && !SL.Latest(log, f).value.Committed?
    ensures keys == (if last.Committed? then {} else {last.fileName}) <==> OthersFinished(log, last.fileName)
  {
    if !OthersFinished(log, last.fileName) {
      var g :| g != last.fileName && SL.Latest(log, g).Some? && !SL.Latest(log, g).value.Committed?;
      assert g in keys;
    }
  }

  lemma TruncatedEntry(log: seq<ServerRecord>)
    requires SL.LogOk(log) && log != [] && !log[|log| - 1].Committed?
    ensures var f := log[|log| - 1].fileName;
            var full, short := SL.Replay(log), SL.Replay(Truncated(log));
            && f in full && f in short
            && full[f].finalDecision == short[f].finalDecision
            && (full[f].userSet == short[f].userSet <==> !NamelessAbort(log))
  {
    var last := log[|log| - 1];
    SL.ReplayInvertsLogging(log);
    ReplayOne(last);
    DecidedSources(log, last.fileName);
    assert SL.Restored(log, last.fileName, SL.Replay(log)[last.fileName]);
    assert Users([]) == {};
  }

  /** The truncated log still recovers correctly exactly when every other
      collage is finished and the last record is not an abort with anybody left
      to tell. */
  lemma TruncatedLogExact(log: seq<ServerRecord>)
    requires SL.LogOk(log) && log != []
    ensures SameDuties(SL.Replay(log), SL.Replay(Truncated(log)))
            <==> OthersFinished(log, log[|log| - 1].fileName) && !NamelessAbort(log)
  {
    TruncatedKeys(log);
    if !log[|log| - 1].Committed? {
      TruncatedEntry(log);
      SameDutiesAt(SL.Replay(log), SL.Replay(Truncated(log)), log[|log| - 1].fileName);
    }
  }

  lemma SameDutiesAt(a: map<string, Coord>, b: map<string, Coord>, f: string)
    requires b.Keys == {f} && f in a
    requires a[f].finalDecision == b[f].finalDecision
    ensures SameDuties(a, b) <==> a.Keys == b.Keys && a[f].userSet == b[f].userSet
  {
  }

  /** Starting a collage while another is unfinished makes the server forget
      the other. */
  lemma StartForgets(mode: P.Tokens, s: State, f: string, g: string, sources: seq<Source>)
    requires Reachable(mode, s) && s.server.Up? && g !in s.past.started && Unfinished(f, s.past)
    ensures var log := s.past.slog + [StartCommit(g, sources)];
            && (exists s' :: Reachable(mode, s') && s'.past.slog == log)
            && !SameDuties(SL.Replay(log), SL.Replay(Truncated(log)))
  {
    hide SL.Replay, SL.LogOk, SL.Latest, SL.Verdict, SL.Participants;
    var e, r := Start(g, sources, Whole), StartCommit(g, sources);
    ReachableNext(mode, s, e);
    var s' := Next(mode, s, e);
    assert Logged([Log(r)]) == [r];
    assert s'.past.slog == s.past.slog + [r];
    CT.ReachableInv(mode, s);
    CT.ReachableInv(mode, s');
    assert RecordsOk(f, s.past);
    SL.ReadSnoc(s.past.slog, r, f);
    TruncatedLogExact(s'.past.slog);
  }

  /** Aborting a collage at its vote timeout makes the server forget whom to tell. */
  lemma AbortForgets(mode: P.Tokens, s: State, f: string, order: seq<string>)
    requires Reachable(mode, s) && Enabled(s, VoteTimer(f, order, Whole))
    requires !s.server.memory.table[f].decisionMade && s.server.memory.table[f].userSet != {}
    ensures var log := s.past.slog + [Decided(f, false, [])];
            && (exists s' :: Reachable(mode, s') && s'.past.slog == log)
            && !SameDuties(SL.Replay(log), SL.Replay(Truncated(log)))
  {
    hide SL.Replay, SL.LogOk, SL.Latest, SL.Verdict, SL.Participants, CoordOk, NetInv, Reachable, Logged;
    var e, r := VoteTimer(f, order, Whole), Decided(f, false, []);
    var s' := Next(mode, s, e);
    ReachableNext(mode, s, e);
    AbortLogs(s.server.memory.table[f], order);
    CT.ReachableInv(mode, s);
    CT.ReachableInv(mode, s');
    AbortNameless(s, f);
    assert s'.past.slog == s.past.slog + [r];
    TruncatedLogExact(s'.past.slog);
  }

  lemma AbortLogs(c: Coord, order: seq<string>)
    requires !c.decisionMade
    ensures Logged(Kept(OnVoteTimeout(c, order).1, Whole)) == [Decided(c.fileName, false, [])]
  {
    var r, sends := Decided(c.fileName, false, []), Broadcast(c.fileName, false, order, c.ackSet);
    SS.BroadcastAnnounces(c.fileName, false, order, c.ackSet);
    SS.KeptLogsFirst([], r, sends, Whole);
    assert [] + [Log(r)] + sends == [Log(r)] + sends;
  }

  lemma AbortNameless(s: State, f: string)
    requires ServerInv(s) && s.server.Up? && f in s.server.memory.table
    requires !s.server.memory.table[f].decisionMade && s.server.memory.table[f].userSet != {}
    ensures NamelessAbort(s.past.slog + [Decided(f, false, [])])
    ensures s.server.memory.table[f].fileName == f
  {
    assert CoordOk(f, s.server.memory.table[f], s.past) && RecordsOk(f, s.past);
    SL.ReadSnoc(s.past.slog, Decided(f, false, []), f);
  }

  // ----- a participant -----

  /** A promise to `f` ends with this record: it is made anew, or replay finds a
      decision it understands. */
  predicate Ends(r: UserRecord, f: string) {
    && r.fileName == f
    && match r
       case Voted(yes, _, _) => yes
       case Resolved(token, _) => token == "yes" || token == "no"
  }

  ghost predicate Promise(log: seq<UserRecord>, i: int) {
    0 <= i < |log| && log[i].Voted? && log[i].yes
  }

  ghost predicate Undisturbed(log: seq<UserRecord>, i: int, j: int)
    requires 0 <= i < j <= |log|
  {
    forall k :: i < k < j ==> !Ends(log[k], log[i].fileName)
  }

  /** Nothing after record `i` ends its promise. */
  ghost predicate Open(log: seq<UserRecord>, i: int) {
    Promise(log, i) && Undisturbed(log, i, |log|)
  }

  /** What ends the promise in record `i` is the commit in record `j`. */
  ghost predicate Redeemed(log: seq<UserRecord>, i: int, j: int) {
    Promise(log, i) && i < j < |log| && log[j] == Resolved("yes", log[i].fileName) && Undisturbed(log, i, j)
  }

  /** The promise in record `i` covers `image` and was never called off. */
  ghost predicate Binds(log: seq<UserRecord>, i: int, image: string) {
    Promise(log, i) && image in log[i].images && (Open(log, i) || exists j :: Redeemed(log, i, j))
  }

  lemma {:induction false} LocksExact(log: seq<UserRecord>, f: string)
    ensures f in P.Replay(log).locks ==>
              exists i :: Open(log, i) && log[i].fileName == f && P.Replay(log).locks[f] == P.ToSet(log[i].images)
    ensures forall i :: Open(log, i) && log[i].fileName == f ==>
              f in P.Replay(log).locks && P.Replay(log).locks[f] == P.ToSet(log[i].images)
  {
    if log != [] {
      var prefix, r := log[..|log| - 1], log[|log| - 1];
      LocksExact(prefix, f);
      if Ends(r, f) {
        if r.Voted? {
          assert Open(log, |log| - 1);
        }
        assert forall i :: Open(log, i) && log[i].fileName == f ==> i == |log| - 1;
      } else {
        OpenSnoc(prefix, r, f);
        assert log == prefix + [r];
      }
    }
  }

  lemma OpenSnoc(log: seq<UserRecord>, r: UserRecord, f: string)
    requires !Ends(r, f)
    ensures forall i {:trigger Open(log, i)} {:trigger Open(log + [r], i)} ::
              0 <= i < |log| && log[i].fileName == f ==> (Open(log + [r], i) <==> Open(log, i))
  {
    var log' := log + [r];
    assert forall i :: 0 <= i < |log| ==> log'[i] == log[i];
    forall i | 0 <= i < |log| && log[i].fileName == f ensures Open(log', i) <==> Open(log, i) {
      if Open(log', i) {
        forall k | i < k < |log| ensures !Ends(log[k], f) {
          assert !Ends(log'[k], f);
        }
      }
    }
  }

  lemma RedeemedSnoc(log: seq<UserRecord>, r: UserRecord)
    ensures forall i, j :: j < |log| ==> (Redeemed(log + [r], i, j) <==> Redeemed(log, i, j))
    ensures forall i :: Redeemed(log + [r], i, |log|) <==> Open(log, i) && r == Resolved("yes", log[i].fileName)
  {
    var log' := log + [r];
    assert forall i :: 0 <= i < |log| ==> log'[i] == log[i];
    forall i, j | 0 <= i < j <= |log| ensures Undisturbed(log', i, j) <==> Undisturbed(log, i, j) {
    }
  }

  lemma {:induction false} UsedExact(log: seq<UserRecord>, image: string)
    ensures image in P.Replay(log).used <==> exists i, j :: Redeemed(log, i, j) && image in log[i].images
  {
    if log != [] {
      var prefix, r := log[..|log| - 1], log[|log| - 1];
      assert log == prefix + [r];
      UsedExact(prefix, image);
      P.ReplaySnoc(prefix, r);
      RedeemedSnoc(prefix, r);
      LocksExact(prefix, r.fileName);
      UsedSnoc(prefix, r, image);
    }
  }

  lemma UsedSnoc(log: seq<UserRecord>, r: UserRecord, image: string)
    requires image in P.Replay(log).used <==> exists i, j :: Redeemed(log, i, j) && image in log[i].images
    ensures image in P.ReplayRecord(P.Replay(log), r).used <==>
              exists i, j :: Redeemed(log + [r], i, j) && image in (log + [r])[i].images
  {
    hide P.Replay, Undisturbed;
    var m, f, log' := P.Replay(log), r.fileName, log + [r];
    RedeemedSnoc(log, r);
    LocksExact(log, f);
    if image in P.ReplayRecord(m, r).used {
      if image in m.used {
        var i, j :| Redeemed(log, i, j) && image in log[i].images;
        RedeemedRange(log, i, j);
        assert Redeemed(log', i, j);
      } else {
        var i :| Open(log, i) && log[i].fileName == f && m.locks[f] == P.ToSet(log[i].images);
        OpenRange(log, i);
        assert Redeemed(log', i, |log|);
      }
    }
    if i, j :| Redeemed(log', i, j) && image in log'[i].images {
      RedeemedRange(log', i, j);
      if j == |log| {
        OpenRange(log, i);
        assert image in m.locks[f];
      } else {
        assert Redeemed(log, i, j);
      }
    }
  }

  lemma RedeemedRange(log: seq<UserRecord>, i: int, j: int)
    requires Redeemed(log, i, j)
    ensures 0 <= i < j < |log| && log[i].Voted?
  {
  }

  lemma OpenRange(log: seq<UserRecord>, i: int)
    requires Open(log, i)
    ensures 0 <= i < |log| && log[i].Voted?
  {
  }

  /** Replay holds exactly the images of the promises that still bind. */
  lemma HeldExact(log: seq<UserRecord>, image: string)
    ensures image in CT.Held(P.Replay(log)) <==> exists i :: Binds(log, i, image)
  {
    hide P.Replay;
    var m := P.Replay(log);
    UsedExact(log, image);
    if image in CT.Held(m) && image !in m.used {
      var f :| f in m.locks && image in m.locks[f];
      LocksExact(log, f);
      var i :| Open(log, i) && log[i].fileName == f && m.locks[f] == P.ToSet(log[i].images);
      assert Binds(log, i, image);
    } else if image in m.used {
      var i, j :| Redeemed(log, i, j) && image in log[i].images;
      assert Binds(log, i, image);
    }
    if i :| Binds(log, i, image) {
      if Open(log, i) {
        LocksExact(log, log[i].fileName);
        assert image in m.locks[log[i].fileName];
      } else {
        var j :| Redeemed(log, i, j);
      }
    }
  }

  /** The last record is a yes vote for every image that is still promised. */
  ghost predicate LastCovers(log: seq<UserRecord>)
    requires log != []
  {
    var last := log[|log| - 1];
    last.Voted? && last.yes && forall i, image :: Binds(log, i, image) ==> image in last.images
  }

  /** A truncated log frees no promised image exactly when the last record is a
      yes vote for all of them, or none is promised. */
  lemma TruncatedPromisesExact(log: seq<UserRecord>)
    requires log != []
    ensures CT.Held(P.Replay(log)) <= CT.Held(P.Replay(Truncated(log))) <==>
              LastCovers(log) || forall i, image :: !Binds(log, i, image)
  {
    hide P.Replay, Binds;
    var last := log[|log| - 1];
    ReplayLast(last);
    forall image ensures image in CT.Held(P.Replay(log)) <==> exists i :: Binds(log, i, image) {
      HeldExact(log, image);
    }
    if CT.Held(P.Replay(log)) <= CT.Held(P.Replay([last])) {
      forall i, image | Binds(log, i, image) ensures last.Voted? && last.yes && image in last.images {
        assert image in CT.Held(P.Replay(log));
      }
    }
  }

  lemma ReplayLast(r: UserRecord)
    ensures CT.Held(P.Replay([r])) == if r.Voted? && r.yes then P.ToSet(r.images) else {}
  {
    P.ReplaySnoc([], r);
    assert [] + [r] == [r];
    var m := P.Replay([r]);
    if r.Voted? && r.yes {
      assert m.locks == map[r.fileName := P.ToSet(r.images)];
      assert r.fileName in m.locks;
    }
  }

  /** An image forgotten in this way can be promised again. */
  lemma TruncatedPromisesForgotten(f: string, images: seq<string>, g: string, others: seq<string>, image: string,
                                   h: string)
    requires f != g && h != g && image in images && image !in others
    ensures var log := [Voted(true, f, images), Voted(true, g, others)];
            && !P.Free(P.Replay(log), image)
            && P.Willing(P.Replay(Truncated(log)), h, [image], true)
  {
    hide P.Replay;
    var v, w := Voted(true, f, images), Voted(true, g, others);
    ReplayTwo(v, w);
    assert f in P.Replay([v, w]).locks && image in P.Replay([v, w]).locks[f];
  }

  lemma ReplayTwo(v: UserRecord, w: UserRecord)
    ensures P.Replay([v, w]) == P.ReplayRecord(P.ReplayRecord(P.Blank, v), w)
    ensures P.Replay([w]) == P.ReplayRecord(P.Blank, w)
  {
    assert [v, w] == [v] + [w] && [v] == [] + [v] && [w] == [] + [w];
    P.ReplaySnoc([v], w);
    P.ReplaySnoc([], v);
    P.ReplaySnoc([], w);
  }

  /** One more promise: the images held so far are not in the truncated log. */
  lemma PromiseForgets(mode: P.Tokens, s: State, u: string, image: string, g: string, other: string)
    requires Reachable(mode, s) && s.server.Up? && g !in s.past.started
    requires u in s.nodes && s.nodes[u].life.Running? && P.Free(s.nodes[u].life.memory, other)
    requires image != other && image in CT.Held(P.Replay(s.nodes[u].log))
    ensures var log := s.nodes[u].log + [Voted(true, g, [other])];
            && (exists s' :: Reachable(mode, s') && u in s'.nodes && s'.nodes[u].log == log)
            && image in CT.Held(P.Replay(log)) && image !in CT.Held(P.Replay(Truncated(log)))
  {
    hide P.Replay, Reachable;
    var r, log := Voted(true, g, [other]), s.nodes[u].log;
    PromiseAgain(mode, s, u, g, other);
    ReplayLast(r);
    assert Truncated(log + [r]) == [r];
    var i :| Binds(log, i, image) by {
      HeldExact(log, image);
    }
    UnpromisedYet(mode, s, u, g);
    BindsSnoc(log, r, i, image);
    HeldExact(log + [r], image);
  }

  lemma UnpromisedYet(mode: P.Tokens, s: State, u: string, g: string)
    requires Reachable(mode, s) && u in s.nodes && g !in s.past.started
    ensures forall r :: r in s.nodes[u].log && r.Voted? && r.yes ==> r.fileName != g
    ensures s.nodes[u].life.Running? ==> g !in s.nodes[u].life.memory.locks
  {
    CT.ReachableInv(mode, s);
    assert NodeInv(mode, u, s.nodes[u], s.origin[u], s.past);
    forall r | r in s.nodes[u].log && r.Voted? && r.yes ensures r.fileName != g {
      assert UserRecordOk(mode, u, r, s.past);
    }
  }

  lemma BindsSnoc(log: seq<UserRecord>, r: UserRecord, i: int, image: string)
    requires Binds(log, i, image) && !Ends(r, log[i].fileName)
    ensures Binds(log + [r], i, image)
  {
    OpenSnoc(log, r, log[i].fileName);
    RedeemedSnoc(log, r);
    if !Open(log, i) {
      var j :| Redeemed(log, i, j);
      assert Redeemed(log + [r], i, j);
    }
  }

  lemma PromiseAgain(mode: P.Tokens, s: State, u: string, g: string, other: string)
    requires Reachable(mode, s) && s.server.Up? && g !in s.past.started
    requires u in s.nodes && s.nodes[u].life.Running? && P.Free(s.nodes[u].life.memory, other)
    ensures exists s' ::
              && Reachable(mode, s') && u in s'.nodes
              && s'.nodes[u].log == s.nodes[u].log + [Voted(true, g, [other])]
  {
    var sources := [Source(u, other)];
    UnpromisedYet(mode, s, u, g);
    AskedNext(mode, s, u, g, other);
    var s1 := Next(mode, s, Start(g, sources, Whole));
    var s2 := Next(mode, s1, SendRequest(g, u));
    ReachableNext(mode, s, Start(g, sources, Whole));
    ReachableNext(mode, s1, SendRequest(g, u));
    VotedNext(mode, s2, u, g, other);
    ReachableNext(mode, s2, ToNode(u, VoteRequest(u, g, [other]), true, [], Whole));
  }

  /** The server starts a collage of one image and asks its owner. */
  lemma AskedNext(mode: P.Tokens, s: State, u: string, g: string, other: string)
    requires s.server.Up? && g !in s.past.started
    ensures var e := Start(g, [Source(u, other)], Whole);
            && Enabled(s, e) && Enabled(Next(mode, s, e), SendRequest(g, u))
            && var s2 := Next(mode, Next(mode, s, e), SendRequest(g, u));
            s2.nodes == s.nodes && VoteRequest(u, g, [other]) in s2.past.net
  {
    var sources := [Source(u, other)];
    assert sources[..0] == [];
    assert Requests(sources) == map[u := [other]];
    CD.OneSend(VoteRequest(u, g, [other]));
  }

  lemma VotedNext(mode: P.Tokens, s: State, u: string, g: string, other: string)
    requires u in s.nodes && s.nodes[u].life.Running? && VoteRequest(u, g, [other]) in s.past.net
    requires g !in s.nodes[u].life.memory.locks && P.Free(s.nodes[u].life.memory, other)
    ensures var e := ToNode(u, VoteRequest(u, g, [other]), true, [], Whole);
            Enabled(s, e) && Next(mode, s, e).nodes[u].log == s.nodes[u].log + [Voted(true, g, [other])]
  {
    assert P.Willing(s.nodes[u].life.memory, g, [other], true);
    var r, m := Voted(true, g, [other]), Vote(u, g, true);
    assert [UserLog(r)] + [] + [Send(m)] == P.VoteEffects(u, g, [other], true);
    NS.KeptUserEffects(r, [], m, Whole);
  }

  /** All three losses are reached: an unfinished collage forgotten, an abort
      that tells nobody, and an image that a participant would promise again. */
  lemma TruncationLoses(mode: P.Tokens, f: string, g: string, u: string, image: string, other: string)
    requires f != g && image != other
    ensures var log := [StartCommit(f, [Source(u, image)]), StartCommit(g, [Source(u, other)])];
            && (exists s :: Reachable(mode, s) && s.past.slog == log)
            && !SameDuties(SL.Replay(log), SL.Replay(Truncated(log)))
    ensures var log := [StartCommit(f, [Source(u, image)]), Decided(f, false, [])];
            && (exists s :: Reachable(mode, s) && s.past.slog == log)
            && !SameDuties(SL.Replay(log), SL.Replay(Truncated(log)))
    ensures var log := [Voted(true, f, [image]), Voted(true, g, [other])];
            && (exists s :: Reachable(mode, s) && u in s.nodes && s.nodes[u].log == log)
            && image in CT.Held(P.Replay(log)) && image !in CT.Held(P.Replay(Truncated(log)))
  {
    hide SL.Replay, SL.LogOk, P.Replay, Reachable, SameDuties, CT.Held, Truncated;
    var s, first, vote := CD.Promised(f, u, image), StartCommit(f, [Source(u, image)]), Voted(true, f, [image]);
    CD.PromisedReachable(mode, f, u, image);
    PromisedLogs(f, u, image);
    assert [first] + [StartCommit(g, [Source(u, other)])] == [first, StartCommit(g, [Source(u, other)])];
    StartForgets(mode, s, f, g, [Source(u, other)]);
    assert Users([Source(u, image)]) == {u};
    assert [first] + [Decided(f, false, [])] == [first, Decided(f, false, [])];
    AbortForgets(mode, s, f, [u]);
    assert [vote] + [Voted(true, g, [other])] == [vote, Voted(true, g, [other])];
    PromiseForgets(mode, s, u, image, g, other);
  }

  lemma PromisedLogs(f: string, u: string, image: string)
    ensures var s := CD.Promised(f, u, image);
            Unfinished(f, s.past) && image in CT.Held(P.Replay(s.nodes[u].log))
  {
    SL.ReadSnoc([], StartCommit(f, [Source(u, image)]), f);
    assert [] + [StartCommit(f, [Source(u, image)])] == [StartCommit(f, [Source(u, image)])];
    ReplayLast(Voted(true, f, [image]));
  }
}
