/** One participant (15440-p4/final/UserNode.java): it locks images on a yes
    vote, deletes them on commit and releases them on abort. */
module Participant {
  import opened CommitTypes

  /** `locks` is duplicateDict, `used` is noSet. */
  datatype Memory = Memory(locks: map<string, set<string>>, used: set<string>)

  /** The decision token written to the log.  The code writes `true`/`false`
      but its replay looks for `yes`/`no`; `Matched` is the corrected writer. */
  datatype Tokens = AsWritten | Matched

  function DecisionToken(mode: Tokens, commit: bool): string {
    match mode
    case AsWritten => if commit then "true" else "false"
    case Matched => if commit then "yes" else "no"
  }

  function ToSet(images: seq<string>): set<string> {
    set image | image in images
  }

  ghost predicate Free(m: Memory, image: string) {
    image !in m.used && forall f :: f in m.locks ==> image !in m.locks[f]
  }

  /** voteResult, with the human's answer as a parameter. */
  ghost predicate Willing(m: Memory, fileName: string, images: seq<string>, answer: bool) {
    && fileName !in m.locks
    && answer
    && (forall image :: image in images ==> Free(m, image))
  }

  function VoteEffects(user: string, fileName: string, images: seq<string>, yes: bool): seq<Effect> {
    [UserLog(Voted(yes, fileName, images)), Send(Vote(user, fileName, yes))]
  }

  function AfterVote(m: Memory, fileName: string, images: seq<string>, yes: bool): Memory {
    if yes then m.(locks := m.locks[fileName := ToSet(images)]) else m
  }

  function Removals(order: seq<string>): seq<Effect> {
    if order == [] then [] else Removals(order[..|order| - 1]) + [Remove(order[|order| - 1])]
  }

  /** decide: `order` enumerates the images locked for the collage. */
  function DecideEffects(mode: Tokens, user: string, m: Memory, fileName: string, commit: bool, order: seq<string>)
    : seq<Effect>
  {
    (if fileName in m.locks
     then [UserLog(Resolved(DecisionToken(mode, commit), fileName))] + (if commit then Removals(order) else [])
     else [])
    + [Send(Ack(user, fileName, commit))]
  }

  function AfterDecision(m: Memory, fileName: string, commit: bool): Memory {
    if fileName !in m.locks then m
    else Memory(m.locks - {fileName}, if commit then m.used + m.locks[fileName] else m.used)
  }

  // ----- replay of the log after a crash -----

  function ReplayRecord(m: Memory, r: UserRecord): Memory {
    match r
    case Voted(yes, f, images) => if yes then m.(locks := m.locks[f := ToSet(images)]) else m
    case Resolved(token, f) =>
      if f !in m.locks then m
      else if token == "no" then m.(locks := m.locks - {f})
      else if token == "yes" then Memory(m.locks - {f}, m.used + m.locks[f])
      else m
  }

  const Blank := Memory(map[], {})

  function Replay(log: seq<UserRecord>): Memory {
    if log == [] then Blank else ReplayRecord(Replay(log[..|log| - 1]), log[|log| - 1])
  }

  lemma ReplaySnoc(log: seq<UserRecord>, r: UserRecord)
    ensures Replay(log + [r]) == ReplayRecord(Replay(log), r)
  {
    assert (log + [r])[..|log|] == log;
  }

  /** One handler run extends the log and changes the memory in step, when the
      logged token is the one replay looks for. */
  lemma MatchedStepsReplayExactly(m: Memory, f: string, images: seq<string>, yes: bool, commit: bool)
    ensures ReplayRecord(m, Voted(yes, f, images)) == AfterVote(m, f, images, yes)
    ensures f in m.locks ==>
              ReplayRecord(m, Resolved(DecisionToken(Matched, commit), f)) == AfterDecision(m, f, commit)
  {
  }

  function Votes(log: seq<UserRecord>): seq<UserRecord> {
    if log == [] then []
    else Votes(log[..|log| - 1]) + (if log[|log| - 1].Voted? then [log[|log| - 1]] else [])
  }

  ghost predicate TokensAsWritten(log: seq<UserRecord>) {
    forall r :: r in log && r.Resolved? ==> exists commit :: r.token == DecisionToken(AsWritten, commit)
  }

  /** With the tokens the code writes, no decision is ever replayed: the whole
      log is worth no more than its votes. */
  lemma {:induction false} AsWrittenIgnoresDecisions(log: seq<UserRecord>)
    requires TokensAsWritten(log)
    ensures Replay(log) == Replay(Votes(log))
  {
    if log != [] {
      var prefix, r := log[..|log| - 1], log[|log| - 1];
      AsWrittenIgnoresDecisions(prefix);
      if r.Voted? {
        ReplaySnoc(Votes(prefix), r);
      } else {
        assert Votes(prefix) + [] == Votes(prefix);
        assert r in log;
      }
    }
  }

  // ----- the class -----

  class UserNode {
    const env: Environment
    const myId: string
    const mode: Tokens
    var duplicateDict: map<string, set<string>>
    var noSet: set<string>

    function Abs(): Memory
      reads this
    {
      Memory(duplicateDict, noSet)
    }

    constructor (env: Environment, id: string, mode: Tokens)
      ensures this.env == env && myId == id && this.mode == mode
      ensures Abs() == Blank
    {
      this.env, myId, this.mode := env, id, mode;
      duplicateDict, noSet := map[], {};
    }

    /** Scans the requested images against the used set and every lock. */
    method VoteResult(fileName: string, images: seq<string>, answer: bool) returns (yes: bool)
      ensures yes <==> Willing(Abs(), fileName, images, answer)
    {
      if fileName in duplicateDict {
        return false;
      }
      if !answer {
        return false;
      }
      for i := 0 to |images|
        invariant forall k :: 0 <= k < i ==> Free(Abs(), images[k])
      {
        if images[i] in noSet {
          assert !Free(Abs(), images[i]);
          return false;
        }
        var names := duplicateDict.Keys;
        while names != {}
          invariant names <= duplicateDict.Keys
          invariant forall f :: f in duplicateDict.Keys - names ==> images[i] !in duplicateDict[f]
        {
          var name :| name in names;
          if images[i] in duplicateDict[name] {
            assert !Free(Abs(), images[i]);
            return false;
          }
          names := names - {name};
        }
      }
      return true;
    }

    method AskVote(fileName: string, images: seq<string>, answer: bool)
      modifies this, env
      ensures var yes := Willing(old(Abs()), fileName, images, answer);
              && Abs() == AfterVote(old(Abs()), fileName, images, yes)
              && env.trace == old(env.trace) + VoteEffects(myId, fileName, images, yes)
    {
      var yes := VoteResult(fileName, images, answer);
      if !yes {
        env.Perform(UserLog(Voted(false, fileName, images)));
        env.Perform(Send(Vote(myId, fileName, false)));
      } else {
        env.Perform(UserLog(Voted(true, fileName, images)));
        var duplicate := {};
        for i := 0 to |images|
          invariant duplicate == ToSet(images[..i])
        {
          assert images[..i + 1] == images[..i] + [images[i]];
          duplicate := duplicate + {images[i]};
        }
        assert images[..|images|] == images;
        duplicateDict := duplicateDict[fileName := duplicate];
        env.Perform(Send(Vote(myId, fileName, true)));
      }
    }

    method Decide(fileName: string, commit: bool) returns (ghost order: seq<string>)
      modifies this, env
      ensures fileName in old(duplicateDict) ==> Enumerates(order, old(duplicateDict)[fileName])
      ensures Abs() == AfterDecision(old(Abs()), fileName, commit)
      ensures env.trace == old(env.trace)
                           + DecideEffects(mode, myId, old(Abs()), fileName, commit, order)
    {
      order := [];
      if fileName in duplicateDict {
        order := EnumerationExists(duplicateDict[fileName]);
        env.Perform(UserLog(Resolved(DecisionToken(mode, commit), fileName)));
        if commit {
          order := RemoveImages(fileName);
        }
        duplicateDict := duplicateDict - {fileName};
      }
      env.Perform(Send(Ack(myId, fileName, commit)));
    }

    method RemoveImages(fileName: string) returns (ghost order: seq<string>)
      requires fileName in duplicateDict
      modifies this`noSet, env
      ensures Enumerates(order, duplicateDict[fileName])
      ensures noSet == old(noSet) + duplicateDict[fileName]
      ensures env.trace == old(env.trace) + Removals(order)
    {
      order := [];
      var rest := duplicateDict[fileName];
      while rest != {}
        invariant rest <= duplicateDict[fileName]
        invariant Enumerates(order, duplicateDict[fileName] - rest)
        invariant noSet == old(noSet) + (duplicateDict[fileName] - rest)
        invariant env.trace == old(env.trace) + Removals(order)
      {
        var image :| image in rest;
        noSet := noSet + {image};
        env.Perform(Remove(image));
        assert (order + [image])[..|order|] == order;
        order := order + [image];
        rest := rest - {image};
      }
    }

    /** deliverMessage: only vote requests and decisions are acted on. */
    method DeliverMessage(m: Message, answer: bool) returns (ghost order: seq<string>)
      modifies this, env
      ensures m.VoteRequest? ==>
                var yes := Willing(old(Abs()), m.fileName, m.images, answer);
                && Abs() == AfterVote(old(Abs()), m.fileName, m.images, yes)
                && env.trace == old(env.trace) + VoteEffects(myId, m.fileName, m.images, yes)
      ensures m.Decision? ==>
                && (m.fileName in old(duplicateDict) ==> Enumerates(order, old(duplicateDict)[m.fileName]))
                && Abs() == AfterDecision(old(Abs()), m.fileName, m.commit)
                && env.trace == old(env.trace)
                                + DecideEffects(mode, myId, old(Abs()), m.fileName, m.commit, order)
      ensures !m.VoteRequest? && !m.Decision? ==> Abs() == old(Abs()) && env.trace == old(env.trace)
    {
      order := [];
      if m.VoteRequest? {
        AskVote(m.fileName, m.images, answer);
      } else if m.Decision? {
        order := Decide(m.fileName, m.commit);
      }
    }

    /** doFailure: replays the log into an empty memory; replaying a commit
        deletes the images again. */
    method DoFailure(logs: seq<UserRecord>)
      requires Abs() == Blank
      modifies this, env
      ensures Abs() == Replay(logs)
      ensures old(env.trace) <= env.trace
      ensures forall e :: e in env.trace[|old(env.trace)|..] <==>
                          exists image :: image in Replay(logs).used && e == Remove(image)
    {
      for i := 0 to |logs|
        invariant Abs() == Replay(logs[..i])
        invariant old(env.trace) <= env.trace
        invariant forall e :: e in env.trace[|old(env.trace)|..] <==>
                              exists image :: image in noSet && e == Remove(image)
      {
        var r := logs[i];
        assert logs[..i + 1] == logs[..i] + [r];
        ReplaySnoc(logs[..i], r);
        match r
        case Voted(yes, fileName, images) =>
          if yes {
            duplicateDict := duplicateDict[fileName := ToSet(images)];
          }
        case Resolved(token, fileName) =>
          if token == "no" && fileName in duplicateDict {
            duplicateDict := duplicateDict - {fileName};
          } else if token == "yes" && fileName in duplicateDict {
            ghost var before, was := env.trace, noSet;
            ghost var order := RemoveImages(fileName);
            RemovalEffects(order);
            assert env.trace[|old(env.trace)|..] == before[|old(env.trace)|..] + Removals(order);
            duplicateDict := duplicateDict - {fileName};
          }
      }
      assert logs[..|logs|] == logs;
    }
  }

  lemma {:induction false} RemovalEffects(order: seq<string>)
    ensures forall e :: e in Removals(order) <==> exists image :: image in order && e == Remove(image)
  {
    if order != [] {
      var prefix := order[..|order| - 1];
      RemovalEffects(prefix);
      assert order == prefix + [order[|order| - 1]];
    }
  }
}
