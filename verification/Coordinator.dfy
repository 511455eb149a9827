/** One collage as the coordinator sees it (15440-p4/final/Collage.java). */
module Coordinator {
  import opened CommitTypes

  /** The fields of a Collage.  `requests` is messageDict. */
  datatype Coord = Coord(
    fileName: string,
    sources: seq<Source>,
    userSet: set<string>,
    voteSet: set<string>,
    ackSet: set<string>,
    requests: map<string, seq<string>>,
    decisionMade: bool,
    finalDecision: bool,
    status: string)

  // ----- sources and vote requests -----

  function Users(sources: seq<Source>): set<string> {
    set s | s in sources :: s.user
  }

  function ImagesOf(sources: seq<Source>, user: string): set<string> {
    set s | s in sources && s.user == user :: s.image
  }

  function AddImg(images: seq<string>, image: string): seq<string> {
    if image in images then images else images + [image]
  }

  function AddSource(requests: map<string, seq<string>>, s: Source): map<string, seq<string>> {
    if s.user !in requests then requests[s.user := [s.image]]
    else requests[s.user := AddImg(requests[s.user], s.image)]
  }

  function Requests(sources: seq<Source>): map<string, seq<string>> {
    if sources == [] then map[]
    else AddSource(Requests(sources[..|sources| - 1]), sources[|sources| - 1])
  }

  ghost predicate NoDuplicates<T>(s: seq<T>) {
    forall i, j :: 0 <= i < j < |s| ==> s[i] != s[j]
  }

  /** The requests partition the sources: one per user, each pair exactly once. */
  lemma {:induction false} SourcePartition(sources: seq<Source>)
    ensures Requests(sources).Keys == Users(sources)
    ensures forall u, image ::
              (u in Requests(sources) && image in Requests(sources)[u]) <==> Source(u, image) in sources
    ensures forall u :: u in Requests(sources) ==> NoDuplicates(Requests(sources)[u])
  {
    if sources != [] {
      var prefix, last := sources[..|sources| - 1], sources[|sources| - 1];
      SourcePartition(prefix);
      UsersSnoc(prefix, last);
      assert sources == prefix + [last];
      AddSourcePartition(Requests(prefix), last);
    }
  }

  lemma UsersSnoc(prefix: seq<Source>, last: Source)
    ensures Users(prefix + [last]) == Users(prefix) + {last.user}
  {
    forall s | s in prefix ensures s in prefix + [last] {
    }
  }

  lemma AddSourcePartition(requests: map<string, seq<string>>, s: Source)
    requires forall u :: u in requests ==> NoDuplicates(requests[u])
    ensures AddSource(requests, s).Keys == requests.Keys + {s.user}
    ensures forall u, image ::
              (u in AddSource(requests, s) && image in AddSource(requests, s)[u])
              <==> (u in requests && image in requests[u]) || (u == s.user && image == s.image)
    ensures forall u :: u in AddSource(requests, s) ==> NoDuplicates(AddSource(requests, s)[u])
  {
  }

  lemma RequestImages(sources: seq<Source>, user: string)
    requires user in Users(sources)
    ensures user in Requests(sources)
    ensures (set image | image in Requests(sources)[user]) == ImagesOf(sources, user)
  {
    SourcePartition(sources);
    forall image ensures image in Requests(sources)[user] <==> image in ImagesOf(sources, user) {
      if image in ImagesOf(sources, user) {
        assert Source(user, image) in sources;
      }
    }
  }

  /** Voting on fresh requests asks every user, in set order and once, for exactly
      the user's own images. */
  lemma RequestTargets(fileName: string, order: seq<string>, sources: seq<Source>)
    requires Enumerates(order, Users(sources)) && Requests(sources).Keys == Users(sources)
    ensures var sends := RequestEffects(fileName, order, Requests(sources));
            && |sends| == |order|
            && forall i :: 0 <= i < |order| ==> Asks(sends[i], fileName, order[i], ImagesOf(sources, order[i]))
  {
    hide Requests, ImagesOf;
    var sends := RequestEffects(fileName, order, Requests(sources));
    forall i | 0 <= i < |order| ensures Asks(sends[i], fileName, order[i], ImagesOf(sources, order[i])) {
      RequestImages(sources, order[i]);
    }
  }

  predicate Asks(e: Effect, fileName: string, user: string, images: set<string>) {
    && e.Send? && e.message.VoteRequest? && e.message.to == user && e.message.fileName == fileName
    && (set image | image in e.message.images) == images
  }

  // ----- handlers, as functions from state to state and effects -----

  function NewCoord(fileName: string, sources: seq<Source>): Coord {
    Coord(fileName, sources, Users(sources), {}, {}, Requests(sources), false, false, "")
  }

  function AfterAck(c: Coord, user: string): (Coord, bool) {
    if user !in c.userSet then (c, false)
    else if |c.userSet| == |c.ackSet + {user}| then (c.(ackSet := {}), true)
    else (c.(ackSet := c.ackSet + {user}), false)
  }

  function AfterVote(c: Coord, user: string): (Coord, bool) {
    if user !in c.userSet then (c, false)
    else if |c.userSet| == |c.voteSet + {user}| then (c.(voteSet := {}), true)
    else (c.(voteSet := c.voteSet + {user}), false)
  }

  function RequestEffects(fileName: string, order: seq<string>, requests: map<string, seq<string>>): seq<Effect>
    requires forall u :: u in order ==> u in requests
  {
    seq(|order|, i requires 0 <= i < |order| => Send(VoteRequest(order[i], fileName, requests[order[i]])))
  }

  function Broadcast(fileName: string, commit: bool, order: seq<string>, acked: set<string>): seq<Effect> {
    if order == [] then []
    else if order[0] in acked then Broadcast(fileName, commit, order[1..], acked)
    else [Send(Decision(order[0], fileName, commit))] + Broadcast(fileName, commit, order[1..], acked)
  }

  function Abort(c: Coord, order: seq<string>): (Coord, seq<Effect>) {
    (c.(finalDecision := false, decisionMade := true),
     [Log(Decided(c.fileName, false, []))] + Broadcast(c.fileName, false, order, c.ackSet))
  }

  function Approve(c: Coord, order: seq<string>): (Coord, seq<Effect>) {
    (c.(finalDecision := true, decisionMade := true),
     [Compose(c.fileName), Log(Decided(c.fileName, true, c.sources))]
     + Broadcast(c.fileName, true, order, c.ackSet))
  }

  /** getMessage: the new collage, its effects, and whether it is finished. */
  function OnMessage(c: Coord, m: Message, order: seq<string>): (Coord, seq<Effect>, bool)
    requires m.Vote? || m.Ack?
  {
    if m.Ack? then
      var (c', all) := AfterAck(c, m.from);
      (c', if all then [Log(Committed(c.fileName))] else [], all)
    else if c.decisionMade then (c, [], false)
    else if m.yes then
      var (c', all) := AfterVote(c, m.from);
      if all then
        var (c'', effects) := Approve(c', order);
        (c'', effects, false)
      else (c', [], false)
    else
      var (c', effects) := Abort(c, order);
      (c', effects, false)
  }

  function OnVoteTimeout(c: Coord, order: seq<string>): (Coord, seq<Effect>) {
    if c.decisionMade then (c, []) else Abort(c, order)
  }

  function OnAckTimeout(c: Coord, order: seq<string>): (Coord, seq<Effect>) {
    (c.(decisionMade := true), Broadcast(c.fileName, c.finalDecision, order, c.ackSet))
  }

  // ----- broadcasts reach exactly the users that have not acknowledged -----

  /** Every effect of a broadcast is a decision for one outstanding user, and
      every outstanding user gets one. */
  lemma {:induction false} BroadcastTargets(fileName: string, commit: bool, order: seq<string>, acked: set<string>)
    ensures forall e :: e in Broadcast(fileName, commit, order, acked) <==>
              exists u :: u in order && u !in acked && e == Send(Decision(u, fileName, commit))
  {
    if order != [] {
      BroadcastTargets(fileName, commit, order[1..], acked);
      assert order == [order[0]] + order[1..];
      assert forall u :: u in order <==> u == order[0] || u in order[1..];
      var rest := Broadcast(fileName, commit, order[1..], acked);
      forall e
        ensures e in Broadcast(fileName, commit, order, acked) <==>
                  exists u :: u in order && u !in acked && e == Send(Decision(u, fileName, commit))
      {
        if order[0] in acked {
          assert e in Broadcast(fileName, commit, order, acked) <==> e in rest;
        } else {
          assert e in Broadcast(fileName, commit, order, acked) <==>
            e == Send(Decision(order[0], fileName, commit)) || e in rest;
        }
      }
    }
  }

  // ----- progress -----

  function Outstanding(c: Coord): set<string> {
    c.userSet - c.ackSet
  }

  ghost predicate Counting(c: Coord) {
    c.ackSet < c.userSet
  }

  lemma SomeoneOutstanding(c: Coord)
    requires Counting(c)
    ensures exists u :: u in Outstanding(c)
  {
    var u :| u in c.userSet && u !in c.ackSet;
    assert u in Outstanding(c);
  }

  /** The size test of countAck means "everyone has acknowledged"; short of
      that, the outstanding set loses exactly the acknowledging user. */
  lemma AckProgress(c: Coord, user: string)
    requires Counting(c)
    ensures AfterAck(c, user).1 <==> Outstanding(c) == {user}
    ensures !AfterAck(c, user).1 ==>
              && Counting(AfterAck(c, user).0) && AfterAck(c, user).0.userSet == c.userSet
              && Outstanding(AfterAck(c, user).0) == Outstanding(c) - {user}
  {
    if user in c.userSet {
      SubsetOfSameSize(c.ackSet + {user}, c.userSet);
      if AfterAck(c, user).1 {
        assert c.ackSet + {user} == c.userSet;
        assert user in Outstanding(c);
        assert Outstanding(c) == {user};
      }
    }
  }

  /** The acknowledgements of one round, then of many rounds; stops when done. */
  function AckRound(c: Coord, acks: seq<string>): (Coord, bool)
    decreases |acks|
  {
    if acks == [] then (c, false)
    else
      var (c', all) := AfterAck(c, acks[0]);
      if all then (c', true) else AckRound(c', acks[1..])
  }

  function AckRounds(c: Coord, rounds: seq<seq<string>>): (Coord, bool)
    decreases |rounds|
  {
    if rounds == [] then (c, false)
    else
      var (c', all) := AckRound(c, rounds[0]);
      if all then (c', true) else AckRounds(c', rounds[1..])
  }

  /** Acks may come duplicated, in any order, or from strangers: a collage is
      complete exactly when everybody still outstanding has been heard. */
  lemma {:induction false} CompletesWhenAllHeard(c: Coord, acks: seq<string>)
    requires Counting(c)
    ensures AckRound(c, acks).1 <==> Outstanding(c) <= (set u | u in acks)
    ensures !AckRound(c, acks).1 ==>
              && Counting(AckRound(c, acks).0)
              && AckRound(c, acks).0.userSet == c.userSet
              && Outstanding(AckRound(c, acks).0) == Outstanding(c) - (set u | u in acks)
    decreases |acks|
  {
    hide AfterAck;
    if acks == [] {
      SomeoneOutstanding(c);
    } else {
      AckProgress(c, acks[0]);
      var (c', all) := AfterAck(c, acks[0]);
      assert (set u | u in acks) == {acks[0]} + (set u | u in acks[1..]) by {
        assert acks == [acks[0]] + acks[1..];
      }
      if !all {
        CompletesWhenAllHeard(c', acks[1..]);
      }
    }
  }

  /** Every round brings at least one acknowledgement that was still missing. */
  ghost predicate EveryRoundProgresses(c: Coord, rounds: seq<seq<string>>)
    decreases |rounds|
  {
    rounds == [] ||
    (&& (exists u :: u in rounds[0] && u in Outstanding(c))
     && (!AckRound(c, rounds[0]).1 ==> EveryRoundProgresses(AckRound(c, rounds[0]).0, rounds[1..])))
  }

  lemma {:induction false} CompletesWithinRounds(c: Coord, rounds: seq<seq<string>>)
    requires Counting(c)
    requires EveryRoundProgresses(c, rounds)
    requires |rounds| >= |Outstanding(c)|
    ensures AckRounds(c, rounds).1
    decreases |rounds|
  {
    SomeoneOutstanding(c);
    if rounds != [] {
      CompletesWhenAllHeard(c, rounds[0]);
      var (c', all) := AckRound(c, rounds[0]);
      if !all {
        var u :| u in rounds[0] && u in Outstanding(c);
        assert Outstanding(c') < Outstanding(c);
        SubsetOfSameSize(Outstanding(c'), Outstanding(c));
        CompletesWithinRounds(c', rounds[1..]);
      }
    }
  }

  // ----- votes -----

  function Unheard(c: Coord): set<string> {
    c.userSet - c.voteSet
  }

  /** Undecided, and somebody's yes is still missing. */
  ghost predicate Polling(c: Coord) {
    !c.decisionMade && c.voteSet < c.userSet
  }

  lemma SomeoneUnheard(c: Coord)
    requires Polling(c)
    ensures exists u :: u in Unheard(c)
  {
    var u :| u in c.userSet && u !in c.voteSet;
    assert u in Unheard(c);
  }

  /** The size test of countVote means "everyone has voted yes"; short of that,
      the yes votes pile up: just this user's is no longer missing. */
  lemma VoteProgress(c: Coord, user: string)
    requires Polling(c)
    ensures AfterVote(c, user).1 <==> Unheard(c) == {user}
    ensures !AfterVote(c, user).1 ==>
              && Polling(AfterVote(c, user).0) && AfterVote(c, user).0.userSet == c.userSet
              && Unheard(AfterVote(c, user).0) == Unheard(c) - {user}
  {
    if user in c.userSet {
      SubsetOfSameSize(c.voteSet + {user}, c.userSet);
      if AfterVote(c, user).1 {
        assert c.voteSet + {user} == c.userSet;
        assert user in Unheard(c);
        assert Unheard(c) == {user};
      }
    }
  }

  /** Yes votes one after the other, with all their effects. */
  function YesVotes(c: Coord, votes: seq<string>, order: seq<string>): (Coord, seq<Effect>)
    decreases |votes|
  {
    if votes == [] then (c, [])
    else
      var first := OnMessage(c, Vote(votes[0], c.fileName, true), order);
      var rest := YesVotes(first.0, votes[1..], order);
      (rest.0, first.1 + rest.1)
  }

  lemma {:induction false} DecidedIgnoresVotes(c: Coord, votes: seq<string>, order: seq<string>)
    requires c.decisionMade
    ensures YesVotes(c, votes, order) == (c, [])
    decreases |votes|
  {
    if votes != [] {
      DecidedIgnoresVotes(c, votes[1..], order);
      var nothing: seq<Effect> := [];
      assert nothing + nothing == nothing;
    }
  }

  /** Yes votes may come duplicated, in any order, from strangers, or late: the
      composite, the record and the decision follow, once, exactly when everybody
      not heard before is among them; otherwise these are heard and nothing is
      done. */
  lemma {:induction false} ApprovedWhenAllHeard(c: Coord, votes: seq<string>, order: seq<string>)
    requires Polling(c)
    ensures var (c', effects) := YesVotes(c, votes, order);
            if Unheard(c) <= (set u | u in votes) then
              && c'.decisionMade && c'.finalDecision
              && effects == [Compose(c.fileName), Log(Decided(c.fileName, true, c.sources))]
                            + Broadcast(c.fileName, true, order, c.ackSet)
            else
              && Polling(c') && c'.userSet == c.userSet && effects == []
              && Unheard(c') == Unheard(c) - (set u | u in votes)
    decreases |votes|
  {
    hide AfterVote, Broadcast;
    if votes == [] {
      SomeoneUnheard(c);
    } else {
      VoteProgress(c, votes[0]);
      VoteKeeps(c, votes[0]);
      var first := OnMessage(c, Vote(votes[0], c.fileName, true), order);
      assert (set u | u in votes) == {votes[0]} + (set u | u in votes[1..]) by {
        assert votes == [votes[0]] + votes[1..];
      }
      if first.0.decisionMade {
        DecidedIgnoresVotes(first.0, votes[1..], order);
        assert first.1 + [] == first.1;
      } else {
        ApprovedWhenAllHeard(first.0, votes[1..], order);
      }
    }
  }

  lemma VoteKeeps(c: Coord, user: string)
    ensures var c' := AfterVote(c, user).0;
            c'.fileName == c.fileName && c'.sources == c.sources && c'.ackSet == c.ackSet
  {
  }

  /** Replayed collages have decided, and the undecided ones will abort. */
  predicate Replayed(c: Coord) {
    && c.decisionMade
    && (c.status == "Decision" || (c.status == "startCommit" && !c.finalDecision))
  }

  // ----- the class -----

  class Collage {
    const env: Environment
    const fileName: string
    var sources: seq<Source>
    var userSet: set<string>
    var voteSet: set<string>
    var ackSet: set<string>
    var messageDict: map<string, seq<string>>
    var decisionMade: bool
    var finalDecision: bool
    var status: string

    /** The value of the fields, kept up to date by every method. */
    ghost var model: Coord

    ghost predicate Valid()
      reads this
    {
      model == Coord(fileName, sources, userSet, voteSet, ackSet, messageDict, decisionMade, finalDecision, status)
    }

    constructor (env: Environment, fileName: string, sources: seq<Source>)
      ensures this.env == env && this.fileName == fileName
      ensures Valid() && model == NewCoord(fileName, sources)
    {
      this.env, this.fileName, this.sources := env, fileName, sources;
      this.voteSet, this.ackSet := {}, {};
      this.decisionMade, this.finalDecision, this.status := false, false, "";
      var users: set<string>, requests: map<string, seq<string>> := {}, map[];
      for i := 0 to |sources|
        invariant users == Users(sources[..i])
        invariant requests == Requests(sources[..i])
      {
        var s := sources[i];
        assert sources[..i + 1] == sources[..i] + [s];
        users := users + {s.user};
        if s.user !in requests {
          requests := requests[s.user := [s.image]];
        } else {
          requests := requests[s.user := AddImg(requests[s.user], s.image)];
        }
      }
      assert sources[..|sources|] == sources;
      this.userSet, this.messageDict := users, requests;
      this.model := NewCoord(fileName, sources);
    }

    /** The field updates doFailure makes on a collage it replays. */
    method Recover(sources: seq<Source>, status: string, decision: bool)
      requires Valid()
      modifies this
      ensures Valid()
      ensures model == old(model).(sources := sources, status := status, decisionMade := true,
                                   finalDecision := decision)
    {
      this.sources := sources;
      this.status := status;
      decisionMade := true;
      finalDecision := decision;
      model := model.(sources := sources, status := status, decisionMade := true, finalDecision := decision);
    }

    /** recommitCollage's branch for one replayed collage. */
    method Recommit() returns (ghost order: seq<string>)
      requires Valid() && Replayed(model)
      modifies this, env
      ensures Valid() && model == old(model)
      ensures Enumerates(order, userSet)
      ensures env.trace == old(env.trace) + Broadcast(fileName, model.finalDecision, order, ackSet)
    {
      order := [];
      if status == "startCommit" {
        finalDecision := false;
        order := DistributeDecision(false);
      } else if status == "Decision" {
        order := DistributeDecision(finalDecision);
      }
    }

    /** Sends each user its own request once; nothing stays behind to resend. */
    method Vote() returns (ghost order: seq<string>)
      requires Valid() && messageDict.Keys == userSet
      modifies this, env
      ensures Enumerates(order, userSet)
      ensures Valid() && model == old(model).(requests := map[])
      ensures env.trace == old(env.trace)
                           + RequestEffects(fileName, order, old(messageDict))
    {
      order := [];
      var rest := userSet;
      ghost var requests := messageDict;
      while rest != {}
        invariant rest <= userSet == requests.Keys
        invariant messageDict == requests - (userSet - rest)
        invariant Enumerates(order, userSet - rest)
        invariant Valid() && model == old(model).(requests := messageDict)
        invariant env.trace == old(env.trace) + RequestEffects(fileName, order, requests)
      {
        var user :| user in rest;
        env.Perform(Send(VoteRequest(user, fileName, messageDict[user])));
        messageDict := messageDict - {user};
        model := model.(requests := messageDict);
        rest := rest - {user};
        order := order + [user];
      }
    }

    method DistributeDecision(decision: bool) returns (ghost order: seq<string>)
      requires Valid()
      modifies this, env
      ensures Enumerates(order, userSet)
      ensures Valid() && model == old(model).(decisionMade := true)
      ensures env.trace == old(env.trace) + Broadcast(fileName, decision, order, ackSet)
    {
      order := [];
      var rest := userSet;
      while rest != {}
        invariant rest <= userSet
        invariant Enumerates(order, userSet - rest)
        invariant Valid() && model == old(model)
        invariant env.trace == old(env.trace) + Broadcast(fileName, decision, order, ackSet)
      {
        var user :| user in rest;
        rest := rest - {user};
        if user !in ackSet {
          env.Perform(Send(Decision(user, fileName, decision)));
        }
        BroadcastSnoc(fileName, decision, order, user, ackSet);
        order := order + [user];
      }
      decisionMade := true;
      model := model.(decisionMade := true);
    }

    method CountAck(user: string) returns (all: bool)
      requires Valid()
      modifies this
      ensures Valid() && (model, all) == AfterAck(old(model), user)
    {
      model := AfterAck(model, user).0;
      if user !in userSet {
        return false;
      }
      ackSet := ackSet + {user};
      if |userSet| == |ackSet| {
        ackSet := {};
        return true;
      }
      return false;
    }

    method CountVote(user: string) returns (all: bool)
      requires Valid()
      modifies this
      ensures Valid() && (model, all) == AfterVote(old(model), user)
    {
      model := AfterVote(model, user).0;
      if user !in userSet {
        return false;
      }
      voteSet := voteSet + {user};
      if |userSet| == |voteSet| {
        voteSet := {};
        return true;
      }
      return false;
    }

    method GetMessage(m: Message) returns (done: bool, ghost order: seq<string>)
      requires Valid() && (m.Vote? || m.Ack?)
      modifies this, env
      ensures Enumerates(order, old(userSet))
      ensures Valid()
      ensures var (c, effects, all) := OnMessage(old(model), m, order);
              model == c && env.trace == old(env.trace) + effects && done == all
    {
      order := EnumerationExists(userSet);
      if m.Ack? {
        done := CountAck(m.from);
        if done {
          env.Perform(Log(Committed(fileName)));
        }
        return;
      }
      done := false;
      if decisionMade {
        return;
      }
      if m.yes {
        var all := CountVote(m.from);
        if all {
          env.Perform(Compose(fileName));
          finalDecision := true;
          model := model.(finalDecision := true);
          env.Perform(Log(Decided(fileName, true, sources)));
          order := DistributeDecision(true);
        }
      } else {
        finalDecision := false;
        model := model.(finalDecision := false);
        env.Perform(Log(Decided(fileName, false, [])));
        order := DistributeDecision(false);
      }
    }

    method VoteTimeout() returns (ghost order: seq<string>)
      requires Valid()
      modifies this, env
      ensures Valid() && Enumerates(order, old(userSet))
      ensures var (c, effects) := OnVoteTimeout(old(model), order);
              model == c && env.trace == old(env.trace) + effects
    {
      order := EnumerationExists(userSet);
      if !decisionMade {
        env.Perform(Log(Decided(fileName, false, [])));
        finalDecision := false;
        model := model.(finalDecision := false);
        order := DistributeDecision(finalDecision);
      }
    }

    method AckTimeout() returns (ghost order: seq<string>)
      requires Valid()
      modifies this, env
      ensures Valid() && Enumerates(order, old(userSet))
      ensures var (c, effects) := OnAckTimeout(old(model), order);
              model == c && env.trace == old(env.trace) + effects
    {
      order := DistributeDecision(finalDecision);
    }
  }

  lemma {:induction false} BroadcastSnoc(fileName: string, commit: bool, order: seq<string>, user: string,
                                         acked: set<string>)
    ensures Broadcast(fileName, commit, order + [user], acked)
         == Broadcast(fileName, commit, order, acked)
            + (if user in acked then [] else [Send(Decision(user, fileName, commit))])
  {
    if order != [] {
      BroadcastSnoc(fileName, commit, order[1..], user, acked);
      assert (order + [user])[1..] == order[1..] + [user];
    }
  }
}
