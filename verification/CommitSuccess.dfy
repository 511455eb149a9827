/** Possibility of a commit: nothing in the protocol keeps willing participants
    from committing a collage. */
module CommitSuccess {
  import opened CommitTypes
  import opened Coordinator
  import opened CommitProtocol
  import opened CommitApproval
  import SL = ServerLog
  import CS = CommitServer
  import P = Participant
  import CP = CommitProgress
  import PO = CommitPossibility
  import SS = CommitServerSafety
  import NS = CommitNodeSafety
  import CT = CommitTheorems

  // ----- votes that are on their way -----

  lemma TakeVote(mode: P.Tokens, s: State, f: string, u: string) returns (s': State)
    requires Inv(mode, s) && Open(s, f) && u in Awaited(s, f) && Vote(u, f, true) in s.past.net
    ensures PO.Leads(mode, s, s') && Inv(mode, s') && s.past.net <= s'.past.net
    ensures s'.nodes == s.nodes
    ensures Awaited(s, f) == {u} ==> Announced(s'.past, f, true)
    ensures Awaited(s, f) != {u} ==>
              && Open(s', f) && Awaited(s', f) == Awaited(s, f) - {u}
              && s'.server.memory.table[f].requests == s.server.memory.table[f].requests
              && s'.server.memory.table[f].status == s.server.memory.table[f].status
  {
    hide PO.Leads, Inv, Announced, Unheard;
    var order := EnumerationExists(s.server.memory.table[f].userSet);
    var e := ToServer(Vote(u, f, true), order, Whole);
    VoteEnabled(mode, s, f, u, order);
    PO.LeadsSelf(mode, s);
    PO.LeadsOn(mode, s, s, e);
    CT.StepKeepsInv(mode, s, e);
    s' := Next(mode, s, e);
    PollEvent(mode, s, e, f);
  }

  lemma VoteEnabled(mode: P.Tokens, s: State, f: string, u: string, order: seq<string>)
    requires Inv(mode, s) && Open(s, f) && Vote(u, f, true) in s.past.net
    requires Enumerates(order, s.server.memory.table[f].userSet)
    ensures var e := ToServer(Vote(u, f, true), order, Whole);
            && Enabled(s, e) && Next(mode, s, e).server.Up? && YesOf(e, f) == {u} && !Against(e, f)
            && ServerInv(s) && s.past.net <= Next(mode, s, e).past.net && Next(mode, s, e).nodes == s.nodes
            && f in Next(mode, s, e).server.memory.table
            && var c, c' := s.server.memory.table[f], Next(mode, s, e).server.memory.table[f];
               c'.requests == c.requests && c'.status == c.status
  {
    hide NetInv, LogInv, NodesInv, SL.Latest, SL.Verdict, SL.Participants, SL.LogOk, Logged, Sent, Composed, Broadcast;
  }

  lemma {:induction false} TakeAllVotes(mode: P.Tokens, s: State, f: string) returns (s': State)
    requires Inv(mode, s) && Open(s, f)
    requires forall u :: u in Awaited(s, f) ==> Vote(u, f, true) in s.past.net
    ensures PO.Leads(mode, s, s') && Announced(s'.past, f, true)
    decreases |Awaited(s, f)|
  {
    hide PO.Leads, Inv, Announced, Unheard;
    SomeoneAwaited(s, f);
    var u :| u in Awaited(s, f);
    var s1 := TakeVote(mode, s, f, u);
    if Awaited(s, f) == {u} {
      s' := s1;
    } else {
      SubsetOfSameSize(Awaited(s1, f), Awaited(s, f));
      s' := TakeAllVotes(mode, s1, f);
      PO.LeadsTrans(mode, s, s1, s');
    }
  }

  /** From every reachable state in which the missing yes votes of an undecided
      collage have been sent, some run approves it. */
  lemma CanApprove(mode: P.Tokens, s: State, f: string)
    requires Reachable(mode, s)
    requires s.server.Up? && f in s.server.memory.active && f in s.server.memory.table
    requires var c := s.server.memory.table[f];
             && !c.decisionMade && c.userSet != {}
             && forall u :: u in Unheard(c) ==> Vote(u, f, true) in s.past.net
    ensures exists s' :: PO.Leads(mode, s, s') && Announced(s'.past, f, true)
  {
    hide PO.Leads, Inv, Announced;
    UndecidedOpen(mode, s, f);
    var s' := TakeAllVotes(mode, s, f);
  }

  // ----- participants that are willing -----

  /** A participant promises exactly when its user agrees, it has no lock for the
      collage, and it holds none of the images; what it promises it then holds. */
  lemma PromiseExactly(mode: P.Tokens, s: State, u: string, f: string, images: seq<string>, answer: bool,
                       order: seq<string>)
    requires Enabled(s, ToNode(u, VoteRequest(u, f, images), answer, order, Whole))
    ensures var s' := Next(mode, s, ToNode(u, VoteRequest(u, f, images), answer, order, Whole));
            var m, yes := s.nodes[u].life.memory, s'.nodes[u].log == s.nodes[u].log + [Voted(true, f, images)];
            && (yes <==> answer && f !in m.locks && P.ToSet(images) !! CT.Held(m))
            && (!yes ==> s'.nodes[u].log == s.nodes[u].log + [Voted(false, f, images)])
            && s'.past.net == s.past.net + {Vote(u, f, yes)}
            && s'.nodes[u].life.Running? && s'.nodes[u].disk == s.nodes[u].disk
            && CT.Held(s'.nodes[u].life.memory) == CT.Held(m) + (if yes then P.ToSet(images) else {})
  {
    var m := s.nodes[u].life.memory;
    var yes := P.Willing(m, f, images, answer);
    FreeIsUnheld(m, images);
    var effects := P.VoteEffects(u, f, images, yes);
    assert effects[1..] == [Send(Vote(u, f, yes))] && effects[1..][1..] == [];
    assert UserLogged(effects[1..]) == [];
    assert UserLogged(effects) == [Voted(yes, f, images)];
    assert Sent(effects) == {Vote(u, f, yes)} by {
      assert effects[1] == Send(Vote(u, f, yes));
    }
    assert Removed(effects) == {};
    var log := s.nodes[u].log;
    assert (log + [Voted(yes, f, images)])[|log|] == Voted(yes, f, images);
    assert (log + [Voted(true, f, images)])[|log|] == Voted(true, f, images);
    if yes {
      LockHolds(m, f, images);
    }
  }

  lemma FreeIsUnheld(m: P.Memory, images: seq<string>)
    ensures (forall image :: image in images ==> P.Free(m, image)) <==> P.ToSet(images) !! CT.Held(m)
  {
    forall image ensures image in P.ToSet(images) <==> image in images {
    }
    forall image ensures P.Free(m, image) <==> image !in CT.Held(m) {
    }
    if P.ToSet(images) !! CT.Held(m) {
      forall image | image in images ensures P.Free(m, image) {
        assert image in P.ToSet(images);
      }
    }
  }

  lemma LockHolds(m: P.Memory, f: string, images: seq<string>)
    requires f !in m.locks
    ensures CT.Held(m.(locks := m.locks[f := P.ToSet(images)])) == CT.Held(m) + P.ToSet(images)
  {
    var m' := m.(locks := m.locks[f := P.ToSet(images)]);
    assert f in m'.locks && m'.locks[f] == P.ToSet(images);
    forall g, image | g in m.locks && image in m.locks[g] ensures image in CT.Held(m') {
      assert g in m'.locks && m'.locks[g] == m.locks[g];
    }
  }

  /** A running participant that has not promised or used any of its images. */
  ghost predicate Available(s: State, u: string, images: set<string>) {
    && u in s.nodes && s.nodes[u].life.Running?
    && forall image :: image in images ==> P.Free(s.nodes[u].life.memory, image)
  }

  /** Everybody still awaited has not been asked yet, and is available. */
  ghost predicate Promising(s: State, f: string) {
    && Open(s, f) && f in s.past.started && s.server.memory.table[f].status == ""
    && forall u :: u in Awaited(s, f) ==>
         && u in s.server.memory.table[f].requests && Available(s, u, ImagesOf(s.past.started[f], u))
         && f !in s.nodes[u].life.memory.locks
  }

  lemma AskOne(mode: P.Tokens, s: State, f: string, u: string) returns (s': State, images: seq<string>)
    requires Inv(mode, s) && Promising(s, f) && u in Awaited(s, f)
    ensures PO.Leads(mode, s, s') && Inv(mode, s') && s'.nodes == s.nodes && s'.past.started == s.past.started
    ensures VoteRequest(u, f, images) in s'.past.net && P.ToSet(images) == ImagesOf(s.past.started[f], u)
    ensures Open(s', f) && Awaited(s', f) == Awaited(s, f)
    ensures var c, c' := s.server.memory.table[f], s'.server.memory.table[f];
            c'.status == "" && c'.requests == c.requests - {u}
  {
    hide PO.Leads, Inv;
    images := s.server.memory.table[f].requests[u];
    var e := SendRequest(f, u);
    PO.LeadsSelf(mode, s);
    PO.LeadsOn(mode, s, s, e);
    CT.StepKeepsInv(mode, s, e);
    s' := Next(mode, s, e);
    RequestFits(mode, s, f, u);
    assert Send(VoteRequest(u, f, images)) in [Send(VoteRequest(u, f, images))];
  }

  lemma RequestFits(mode: P.Tokens, s: State, f: string, u: string)
    requires Inv(mode, s) && Promising(s, f) && u in Awaited(s, f)
    ensures P.ToSet(s.server.memory.table[f].requests[u]) == ImagesOf(s.past.started[f], u)
  {
    SS.KnownCoord(s, f);
  }

  lemma GetPromise(mode: P.Tokens, s: State, f: string, u: string, images: seq<string>) returns (s': State)
    requires Inv(mode, s) && VoteRequest(u, f, images) in s.past.net
    requires Available(s, u, P.ToSet(images)) && f !in s.nodes[u].life.memory.locks
    ensures PO.Leads(mode, s, s') && Inv(mode, s') && Vote(u, f, true) in s'.past.net
    ensures s'.server == s.server && s'.past.started == s.past.started
    ensures s'.nodes.Keys == s.nodes.Keys && forall v :: v in s.nodes && v != u ==> s'.nodes[v] == s.nodes[v]
  {
    hide PO.Leads, Inv;
    var e := ToNode(u, VoteRequest(u, f, images), true, [], Whole);
    PO.LeadsSelf(mode, s);
    PO.LeadsOn(mode, s, s, e);
    CT.StepKeepsInv(mode, s, e);
    s' := Next(mode, s, e);
    var m := s.nodes[u].life.memory;
    assert P.Willing(m, f, images, true) by {
      forall image | image in images ensures P.Free(m, image) {
        assert image in P.ToSet(images);
      }
    }
    assert Send(Vote(u, f, true)) in P.VoteEffects(u, f, images, true);
  }

  lemma OnePromise(mode: P.Tokens, s: State, f: string, u: string) returns (s': State)
    requires Inv(mode, s) && Promising(s, f) && u in Awaited(s, f)
    ensures PO.Leads(mode, s, s') && Inv(mode, s') && s'.nodes.Keys == s.nodes.Keys
    ensures if Awaited(s, f) == {u} then Announced(s'.past, f, true)
            else Promising(s', f) && Awaited(s', f) == Awaited(s, f) - {u}
  {
    hide PO.Leads, Inv, Announced, Unheard, Polling;
    var s1, images := AskOne(mode, s, f, u);
    var s2 := GetPromise(mode, s1, f, u, images);
    PO.LeadsTrans(mode, s, s1, s2);
    s' := TakeVote(mode, s2, f, u);
    PO.LeadsTrans(mode, s, s2, s');
    if Awaited(s, f) != {u} {
      StartedStays(mode, s2, s', f);
    }
  }

  /** What was started keeps its sources. */
  lemma StartedStays(mode: P.Tokens, s: State, s': State, f: string)
    requires Inv(mode, s) && Inv(mode, s') && PO.Leads(mode, s, s') && f in s.past.started
    ensures f in s'.past.started && s'.past.started[f] == s.past.started[f]
  {
    hide Inv, Enabled, Next;
    var events :| Runs(mode, s, events) && Final(mode, s, events) == s';
    StartedThrough(mode, s, events, f);
  }

  lemma {:induction false} StartedThrough(mode: P.Tokens, s: State, events: seq<Event>, f: string)
    requires Inv(mode, s) && Runs(mode, s, events) && f in s.past.started
    ensures f in Final(mode, s, events).past.started
    ensures Final(mode, s, events).past.started[f] == s.past.started[f]
    decreases |events|
  {
    hide Inv, Enabled, Next;
    if events != [] {
      CT.StepKeepsInv(mode, s, events[0]);
      StartedStep(mode, s, events[0], f);
      StartedThrough(mode, Next(mode, s, events[0]), events[1..], f);
    }
  }

  lemma StartedStep(mode: P.Tokens, s: State, e: Event, f: string)
    requires Enabled(s, e) && f in s.past.started
    ensures f in Next(mode, s, e).past.started && Next(mode, s, e).past.started[f] == s.past.started[f]
  {
    hide Logged, Kept, Sent, Composed, Removed, UserLogged, CS.Dispatched, CS.Recommit, OnVoteTimeout, OnAckTimeout,
      P.Replay, P.Willing, P.DecideEffects, P.AfterDecision;
  }

  lemma {:induction false} AllPromise(mode: P.Tokens, s: State, f: string) returns (s': State)
    requires Inv(mode, s) && Promising(s, f)
    ensures PO.Leads(mode, s, s') && Inv(mode, s') && s'.nodes.Keys == s.nodes.Keys && Announced(s'.past, f, true)
    decreases |Awaited(s, f)|
  {
    hide PO.Leads, Inv, Announced, Unheard;
    SomeoneAwaited(s, f);
    var u :| u in Awaited(s, f);
    var s1 := OnePromise(mode, s, f, u);
    if Awaited(s, f) == {u} {
      s' := s1;
    } else {
      SubsetOfSameSize(Awaited(s1, f), Awaited(s, f));
      s' := AllPromise(mode, s1, f);
      PO.LeadsTrans(mode, s, s1, s');
    }
  }

  lemma StartPromises(mode: P.Tokens, s: State, f: string, sources: seq<Source>) returns (s': State)
    requires Inv(mode, s) && s.server.Up? && f !in s.past.started && sources != []
    requires forall u :: u in Users(sources) ==> Available(s, u, ImagesOf(sources, u))
    ensures PO.Leads(mode, s, s') && Inv(mode, s') && Promising(s', f)
    ensures s'.past.started == s.past.started[f := sources] && s'.nodes == s.nodes
  {
    hide PO.Leads, Inv;
    var e := Start(f, sources, Whole);
    PO.LeadsSelf(mode, s);
    PO.LeadsOn(mode, s, s, e);
    CT.StepKeepsInv(mode, s, e);
    StartOpens(mode, s, f, sources);
    s' := Next(mode, s, e);
    forall u | u in Users(sources) ensures f !in s.nodes[u].life.memory.locks {
      LocksStarted(mode, s, u, f);
    }
  }

  lemma LocksStarted(mode: P.Tokens, s: State, u: string, f: string)
    requires Inv(mode, s) && u in s.nodes && s.nodes[u].life.Running? && f !in s.past.started
    ensures f !in s.nodes[u].life.memory.locks
  {
    assert NodeInv(mode, u, s.nodes[u], s.origin[u], s.past);
  }

  /** From every reachable state in which all the images of a new collage are
      free at running participants, some run commits it: everyone has voted, the
      composite is there, and every image is deleted at its owner. */
  lemma CanCommit(mode: P.Tokens, s: State, f: string, sources: seq<Source>)
    requires Reachable(mode, s) && s.server.Up? && f !in s.past.started && sources != []
    requires forall u :: u in Users(sources) ==> Available(s, u, ImagesOf(sources, u))
    ensures exists s' ::
              && PO.Leads(mode, s, s') && CP.Finished(s', f) && SL.Verdict(s'.past.slog, f)
              && f in s'.past.composites
              && forall x :: x in sources ==> x.user in s'.nodes && x.image !in s'.nodes[x.user].disk
  {
    hide PO.Leads, Inv, Announced, CP.Finished, Settled;
    CT.ReachableInv(mode, s);
    var s1 := StartPromises(mode, s, f, sources);
    var s2 := AllPromise(mode, s1, f);
    PO.LeadsTrans(mode, s, s1, s2);
    StartedStays(mode, s1, s2, f);
    assert sources[0].user in Users(sources);
    ReachableLeads(mode, s, s2);
    AnnouncedSettles(s2.past, f);
    PO.CanFinish(mode, s2, f);
    var s' :| PO.Leads(mode, s2, s') && CP.Finished(s', f);
    PO.LeadsTrans(mode, s, s2, s');
    ReachableLeads(mode, s, s');
    StaysSettled(mode, s2, s', f);
    CT.ReachableInv(mode, s');
    StartedStays(mode, s2, s', f);
    CommittedEffects(mode, s', f, sources);
  }

  lemma CommittedEffects(mode: P.Tokens, s: State, f: string, sources: seq<Source>)
    requires Reachable(mode, s) && CP.Finished(s, f) && Settled(s.past, f, true)
    requires f in s.past.started && s.past.started[f] == sources
    ensures SL.Verdict(s.past.slog, f) && f in s.past.composites
    ensures forall x :: x in sources ==> x.user in s.nodes && x.image !in s.nodes[x.user].disk
  {
    CT.CommittedHasComposite(mode, s, f);
    CT.CompletionSoundness(mode, s, f);
  }

  lemma AnnouncedSettles(p: Past, f: string)
    requires Announced(p, f, true)
    ensures Settled(p, f, true) && Unfinished(f, p)
  {
  }

  lemma StaysSettled(mode: P.Tokens, s: State, s': State, f: string)
    requires Inv(mode, s) && PO.Leads(mode, s, s') && Settled(s.past, f, true)
    ensures Settled(s'.past, f, true)
  {
    hide Inv, Settled, Runs, Final;
    var events :| Runs(mode, s, events) && Final(mode, s, events) == s';
    SettledRemains(mode, s, events, f, true);
  }

  lemma ReachableLeads(mode: P.Tokens, s: State, s': State)
    requires Reachable(mode, s) && PO.Leads(mode, s, s')
    ensures Reachable(mode, s')
  {
    hide Runs, Final, Init;
    var s0, first :| Init(s0) && Runs(mode, s0, first) && Final(mode, s0, first) == s;
    var second :| Runs(mode, s, second) && Final(mode, s, second) == s';
    PO.RunConcat(mode, s0, first, second);
  }
}
