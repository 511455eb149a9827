/** Replay of the coordinator's log (15440-p4/final/Server.java doFailure). */
module ServerLog {
  import opened CommitTypes
  import opened Coordinator

  /** A collage rebuilt from one record; `requests` is what the constructor
      leaves in messageDict and is never sent. */
  function Rebuilt(fileName: string, sources: seq<Source>, status: string, decision: bool): Coord {
    NewCoord(fileName, sources).(status := status, decisionMade := true, finalDecision := decision)
  }

  function ReplayRecord(table: map<string, Coord>, r: ServerRecord): map<string, Coord> {
    match r
    case StartCommit(f, sources) => table[f := Rebuilt(f, sources, "startCommit", false)]
    case Decided(f, d, sources) =>
      if f in table
      then table[f := table[f].(sources := sources, status := "Decision", decisionMade := true, finalDecision := d)]
      else table[f := Rebuilt(f, sources, "Decision", d)]
    case Committed(f) => table - {f}
  }

  function ReplayFrom(table: map<string, Coord>, log: seq<ServerRecord>): map<string, Coord> {
    if log == [] then table else ReplayRecord(ReplayFrom(table, log[..|log| - 1]), log[|log| - 1])
  }

  function Replay(log: seq<ServerRecord>): map<string, Coord> {
    ReplayFrom(map[], log)
  }

  lemma ReplaySnoc(table: map<string, Coord>, log: seq<ServerRecord>, r: ServerRecord)
    ensures ReplayFrom(table, log + [r]) == ReplayRecord(ReplayFrom(table, log), r)
  {
    assert (log + [r])[..|log|] == log;
  }

  // ----- what the log says, read record by record -----

  datatype Option<T> = None | Some(value: T)

  /** The latest record about `f`. */
  function Latest(log: seq<ServerRecord>, f: string): Option<ServerRecord> {
    if log == [] then None
    else if log[|log| - 1].fileName == f then Some(log[|log| - 1])
    else Latest(log[..|log| - 1], f)
  }

  /** The sources in the latest startCommit record about `f`. */
  function Participants(log: seq<ServerRecord>, f: string): seq<Source> {
    if log == [] then []
    else if log[|log| - 1].StartCommit? && log[|log| - 1].fileName == f then log[|log| - 1].sources
    else Participants(log[..|log| - 1], f)
  }

  /** The latest logged decision about `f`; no record means abort. */
  function Verdict(log: seq<ServerRecord>, f: string): bool {
    if log == [] then false
    else if log[|log| - 1].Decided? && log[|log| - 1].fileName == f then log[|log| - 1].commit
    else Verdict(log[..|log| - 1], f)
  }

  lemma ReadSnoc(log: seq<ServerRecord>, r: ServerRecord, f: string)
    ensures Latest(log + [r], f) == if r.fileName == f then Some(r) else Latest(log, f)
    ensures Participants(log + [r], f) == if r.StartCommit? && r.fileName == f then r.sources else Participants(log, f)
    ensures Verdict(log + [r], f) == if r.Decided? && r.fileName == f then r.commit else Verdict(log, f)
  {
    assert (log + [r])[..|log|] == log;
  }

  /** The next record about a collage whose latest record is `latest`. */
  predicate Follows(latest: Option<ServerRecord>, r: ServerRecord) {
    match r
    case StartCommit(_, _) => latest.None?
    case Decided(_, d, sources) =>
      latest.Some? && latest.value.StartCommit? && sources == (if d then latest.value.sources else [])
    case Committed(_) => latest.Some? && !latest.value.Committed?
  }

  /** The logs the server can write: per collage start, at most one decision,
      at most one end, freely interleaved. */
  ghost predicate LogOk(log: seq<ServerRecord>) {
    log == [] ||
    (LogOk(log[..|log| - 1]) && Follows(Latest(log[..|log| - 1], log[|log| - 1].fileName), log[|log| - 1]))
  }

  lemma LogOkSnoc(log: seq<ServerRecord>, r: ServerRecord)
    ensures LogOk(log + [r]) <==> LogOk(log) && Follows(Latest(log, r.fileName), r)
  {
    assert (log + [r])[..|log|] == log;
  }

  /** What replay should rebuild for an unfinished collage. */
  ghost predicate Restored(log: seq<ServerRecord>, f: string, c: Coord)
    requires Latest(log, f).Some?
  {
    var last := Latest(log, f).value;
    && c.fileName == f
    && c.userSet == Users(Participants(log, f))
    && c.ackSet == {} && c.voteSet == {}
    && c.decisionMade
    && c.status == (if last.StartCommit? then "startCommit" else "Decision")
    && c.finalDecision == (last.Decided? && last.commit)
    && c.sources == (if last.Committed? then [] else last.sources)
  }

  /** Replay inverts logging: it rebuilds exactly the collages without a
      Committed record, each as its latest record says. */
  lemma {:induction false} ReplayInvertsLogging(log: seq<ServerRecord>)
    requires LogOk(log)
    ensures forall f :: f in Replay(log) <==> Latest(log, f).Some? && !Latest(log, f).value.Committed?
    ensures forall f :: f in Replay(log) ==> Restored(log, f, Replay(log)[f])
  {
    if log != [] {
      var prefix, r := log[..|log| - 1], log[|log| - 1];
      assert log == prefix + [r];
      ReplayInvertsLogging(prefix);
      ReplaySnoc(map[], prefix, r);
      LogOkSnoc(prefix, r);
      forall f
        ensures f in Replay(log) <==> Latest(log, f).Some? && !Latest(log, f).value.Committed?
        ensures f in Replay(log) ==> Restored(log, f, Replay(log)[f])
      {
        ReadSnoc(prefix, r, f);
        if f == r.fileName && r.Decided? {
          LatestStart(prefix, f);
        }
      }
    }
  }

  lemma {:induction false} LatestStart(log: seq<ServerRecord>, f: string)
    requires Latest(log, f).Some? && Latest(log, f).value.StartCommit?
    ensures Participants(log, f) == Latest(log, f).value.sources
  {
    if log[|log| - 1].fileName != f {
      LatestStart(log[..|log| - 1], f);
    }
  }

  /** The logged verdict is what a replayed collage carries. */
  lemma {:induction false} VerdictIsLatest(log: seq<ServerRecord>, f: string)
    requires LogOk(log)
    ensures Latest(log, f).None? ==> !Verdict(log, f)
    ensures Latest(log, f).Some? && !Latest(log, f).value.Committed? ==>
              Verdict(log, f) == (Latest(log, f).value.Decided? && Latest(log, f).value.commit)
  {
    if log != [] {
      VerdictIsLatest(log[..|log| - 1], f);
    }
  }

  lemma ReplayVerdict(log: seq<ServerRecord>, f: string)
    requires LogOk(log)
    ensures f in Replay(log) ==> Replay(log)[f].finalDecision == Verdict(log, f)
  {
    ReplayInvertsLogging(log);
    VerdictIsLatest(log, f);
  }
}
