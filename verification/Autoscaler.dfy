/** The autoscaling master's bookkeeping (15440-p3/final/mysolution7/Server.java):
    one thread decides how many middle-tier machines are needed, another starts
    them, and retiring machines report themselves removed. */
module Autoscaler {
  datatype Tier = MASTER | FRONT | MIDDLE | NONE

  /** Where the starting thread is in its loop body. */
  datatype Phase = Idle | Counted | Launched

  datatype Fleet = Fleet(vms: map<int, Tier>, midNum: int, midNeed: int, frontNum: int, phase: Phase)

  const CAP := 12
  const MIDDLE_CAP := 10

  /** Ids up to 3 never retire: `VMID > 3` guards the retirement. */
  const KEPT := 3

  datatype Step =
    | Scale(average: real)
    | Count
    | Launch(id: int)
    | Settle
    | Remove(id: int)

  // ----- the steps -----

  /** How many middle machines an average queue length asks for. */
  function Target(average: real): int {
    if average < 2.0 then 0
    else if average < 4.5 then 2
    else if average < 6.5 then 3
    else if average < 7.0 then 6
    else 10
  }

  function Scaled(s: Fleet, average: real): Fleet {
    if |s.vms| >= CAP then s
    else if average < 2.0 then s.(midNeed := 0)
    else
      var target := Target(average);
      if s.midNum < target && (target - s.midNum) + |s.vms| <= CAP then s.(midNeed := target - s.midNum) else s
  }

  function Removed(s: Fleet, id: int): Fleet {
    var tier := if id in s.vms then s.vms[id] else NONE;
    s.(frontNum := if tier == FRONT then s.frontNum - 1 else s.frontNum,
       midNum := if tier == MIDDLE then s.midNum - 1 else s.midNum,
       vms := s.vms[id := NONE])
  }

  /** Only a middle machine above the kept ids reports itself removed. */
  predicate Enabled(s: Fleet, t: Step) {
    match t
    case Scale(_) => true
    case Count => s.phase == Idle && s.midNeed > 0
    case Launch(id) => s.phase == Counted && id !in s.vms
    case Settle => s.phase == Launched
    case Remove(id) => id in s.vms && s.vms[id] == MIDDLE && id > KEPT
  }

  function After(s: Fleet, t: Step): Fleet {
    match t
    case Scale(average) => Scaled(s, average)
    case Count => s.(midNum := s.midNum + 1, phase := Counted)
    case Launch(id) => s.(vms := s.vms[id := MIDDLE], phase := Launched)
    case Settle => s.(midNeed := s.midNeed - 1, phase := Idle)
    case Remove(id) => Removed(s, id)
  }

  /** The state main sets up for three first machines. */
  function Start(master: int, mid: int, front: int): Fleet {
    Fleet(map[master := MASTER, mid := MIDDLE, front := FRONT], 1, 0, 2, Idle)
  }

  /** The state main leaves to the two threads. */
  ghost predicate Booted(s: Fleet) {
    exists master, mid, front ::
      master != mid && master != front && mid != front && s == Start(master, mid, front)
  }

  ghost predicate Runs(s: Fleet, steps: seq<Step>)
    decreases |steps|
  {
    steps == [] || (Enabled(s, steps[0]) && Runs(After(s, steps[0]), steps[1..]))
  }

  ghost function Final(s: Fleet, steps: seq<Step>): Fleet
    requires Runs(s, steps)
    decreases |steps|
  {
    if steps == [] then s else Final(After(s, steps[0]), steps[1..])
  }

  // ----- the invariant -----

  function Middles(vms: map<int, Tier>): set<int> {
    set id | id in vms && vms[id] == MIDDLE
  }

  /** Between the count and the launch one machine is counted but not recorded;
      between the launch and the settling it is recorded but still needed. */
  ghost predicate Safe(s: Fleet) {
    && s.midNum == |Middles(s.vms)| + (if s.phase == Counted then 1 else 0)
    && |s.vms| <= (if s.phase == Counted then CAP - 1 else CAP)
    && |s.vms| + s.midNeed <= (if s.phase == Launched then CAP + 1 else CAP)
    && s.midNum + s.midNeed <= (if s.phase == Idle then MIDDLE_CAP else MIDDLE_CAP + 1)
    && s.midNeed >= (if s.phase == Idle then -1 else 0) && s.midNum <= MIDDLE_CAP
  }

  /** Some middle machine never retires. */
  ghost predicate HasKept(s: Fleet) {
    exists id :: id in Middles(s.vms) && id <= KEPT
  }

  lemma KeysOfUpdate(vms: map<int, Tier>, id: int, tier: Tier)
    ensures |vms[id := tier]| == |vms| + (if id in vms then 0 else 1)
  {
    assert vms[id := tier].Keys == vms.Keys + {id};
    assert |vms[id := tier]| == |vms[id := tier].Keys| && |vms| == |vms.Keys|;
    if id in vms {
      assert vms.Keys + {id} == vms.Keys;
    }
  }

  lemma BootedSafe(s: Fleet)
    requires Booted(s)
    ensures Safe(s)
  {
    var master, mid, front :|
      master != mid && master != front && mid != front && s == Start(master, mid, front);
    assert Middles(s.vms) == {mid};
    assert s.vms.Keys == {master, mid, front};
    assert |s.vms| == |s.vms.Keys| == 3;
  }

  lemma StartFacts(master: int, mid: int, front: int)
    requires master != mid && master != front && mid != front
    ensures var s := Start(master, mid, front);
            Booted(s) && Safe(s) && (HasKept(s) <==> mid <= KEPT)
  {
    hide Safe;
    BootedSafe(Start(master, mid, front));
    assert mid in Middles(Start(master, mid, front).vms);
  }

  lemma StepKeepsSafe(s: Fleet, t: Step)
    requires Safe(s) && Enabled(s, t)
    ensures Safe(After(s, t))
  {
    if t.Launch? || t.Remove? {
      MachineStep(s, t);
    } else {
      assert After(s, t).vms == s.vms;
      hide Middles;
    }
  }

  lemma MachineStep(s: Fleet, t: Step)
    requires Safe(s) && Enabled(s, t) && (t.Launch? || t.Remove?)
    ensures Safe(After(s, t))
  {
    var s' := After(s, t);
    if t.Launch? {
      KeysOfUpdate(s.vms, t.id, MIDDLE);
      assert Middles(s'.vms) == Middles(s.vms) + {t.id};
    } else {
      KeysOfUpdate(s.vms, t.id, NONE);
      assert Middles(s'.vms) == Middles(s.vms) - {t.id};
      assert t.id in Middles(s.vms);
    }
  }

  function Fronts(vms: map<int, Tier>): set<int> {
    set id | id in vms && vms[id] == FRONT
  }

  /** Removing any machine, recorded or not, leaves both counters as far from
      the number of recorded machines as they were, and takes it off both. */
  lemma RemovalExact(s: Fleet, id: int)
    ensures var s' := Removed(s, id);
            && Middles(s'.vms) == Middles(s.vms) - {id} && Fronts(s'.vms) == Fronts(s.vms) - {id}
            && s'.midNum - |Middles(s'.vms)| == s.midNum - |Middles(s.vms)|
            && s'.frontNum - |Fronts(s'.vms)| == s.frontNum - |Fronts(s.vms)|
            && s'.midNeed == s.midNeed && s'.phase == s.phase
  {
    var s' := Removed(s, id);
    assert Middles(s'.vms) == Middles(s.vms) - {id};
    assert Fronts(s'.vms) == Fronts(s.vms) - {id};
  }

  lemma StepKeepsKept(s: Fleet, t: Step)
    requires HasKept(s) && Enabled(s, t)
    ensures HasKept(After(s, t))
  {
    var kept :| kept in Middles(s.vms) && kept <= KEPT;
    assert kept in Middles(After(s, t).vms);
  }

  lemma {:induction false} RunKeepsSafe(s: Fleet, steps: seq<Step>)
    requires Safe(s) && Runs(s, steps)
    ensures Safe(Final(s, steps))
    decreases |steps|
  {
    if steps != [] {
      StepKeepsSafe(s, steps[0]);
      RunKeepsSafe(After(s, steps[0]), steps[1..]);
    }
  }

  lemma {:induction false} RunKeepsKept(s: Fleet, steps: seq<Step>)
    requires HasKept(s) && Runs(s, steps)
    ensures HasKept(Final(s, steps))
    decreases |steps|
  {
    if steps != [] {
      StepKeepsKept(s, steps[0]);
      RunKeepsKept(After(s, steps[0]), steps[1..]);
    }
  }

  // ----- main result -----

  /** Over every interleaving of decisions, the statements of the starting loop
      and removals, whatever the first machines' ids: at most 12 machines are
      ever recorded; whenever no start is under way the counters are exact and
      what is still needed fits both caps; and the division by midNum is safe as
      long as one middle machine never retires. */
  lemma VmCap(s0: Fleet, steps: seq<Step>)
    requires Booted(s0) && Runs(s0, steps)
    ensures var s := Final(s0, steps);
            && |s.vms| <= CAP && (HasKept(s0) ==> s.midNum != 0)
            && (s.phase == Idle ==>
                  && s.midNum == |Middles(s.vms)|
                  && |s.vms| + s.midNeed <= CAP
                  && s.midNum + s.midNeed <= MIDDLE_CAP)
  {
    BootedSafe(s0);
    RunKeepsSafe(s0, steps);
    if HasKept(s0) {
      RunKeepsKept(s0, steps);
      KeptCounts(Final(s0, steps));
    }
  }

  lemma KeptCounts(s: Fleet)
    requires Safe(s) && HasKept(s)
    ensures s.midNum != 0
  {
    assert Middles(s.vms) != {};
  }

  /** The division by midNum is safe in every run exactly when the id of the
      first middle machine keeps it from retiring. */
  lemma FirstMiddleExact(master: int, mid: int, front: int)
    requires master != mid && master != front && mid != front
    ensures (forall steps :: Runs(Start(master, mid, front), steps) ==>
               Final(Start(master, mid, front), steps).midNum != 0)
            <==> mid <= KEPT
  {
    var s0 := Start(master, mid, front);
    if mid <= KEPT {
      assert Booted(s0) && mid in Middles(s0.vms);
      forall steps | Runs(s0, steps) ensures Final(s0, steps).midNum != 0 {
        VmCap(s0, steps);
      }
    } else {
      RunsOne(s0, Remove(mid));
    }
  }

  lemma RunsOne(s: Fleet, t: Step)
    requires Enabled(s, t)
    ensures Runs(s, [t]) && Final(s, [t]) == After(s, t)
  {
    assert [t][1..] == [];
    assert Runs(After(s, t), []);
  }

  // ----- a decision that is not atomic -----

  /** The decision reads midNum twice to test it and once more to assign. */
  function Assigned(s: Fleet, average: real): Fleet {
    s.(midNeed := Target(average) - s.midNum)
  }

  ghost predicate Passes(s: Fleet, average: real) {
    && |s.vms| < CAP && average >= 2.0
    && s.midNum < Target(average) && (Target(average) - s.midNum) + |s.vms| <= CAP
  }

  /** What the other threads do meanwhile; the decision is its own thread's. */
  predicate Others(steps: seq<Step>) {
    forall t :: t in steps ==> !t.Scale?
  }

  function Removals(steps: seq<Step>): nat {
    if steps == [] then 0 else (if steps[0].Remove? then 1 else 0) + Removals(steps[1..])
  }

  /** How many machines are counted and not yet recorded. */
  function Lag(s: Fleet): nat {
    if s.phase == Counted then 1 else 0
  }

  /** How many machines are recorded once all that are needed have been
      launched. */
  function Planned(s: Fleet): int {
    |s.vms| + s.midNeed - (if s.phase == Launched then 1 else 0)
  }

  /** Starting a machine moves both counts; a removal only midNum. */
  lemma {:induction false} GapGrows(s: Fleet, steps: seq<Step>)
    requires Runs(s, steps) && Others(steps)
    ensures var s' := Final(s, steps);
            |s'.vms| - s'.midNum + Lag(s') == |s.vms| - s.midNum + Lag(s) + Removals(steps)
    decreases |steps|
  {
    if steps != [] {
      var t := steps[0];
      assert t in steps && !t.Scale?;
      if t.Launch? || t.Remove? {
        KeysOfUpdate(s.vms, t.id, if t.Launch? then MIDDLE else NONE);
      }
      assert forall x :: x in steps[1..] ==> x in steps;
      GapGrows(After(s, t), steps[1..]);
    }
  }

  // ----- runs of starts and of removals -----

  function LaunchSteps(id: int, n: nat): seq<Step>
    decreases n
  {
    if n == 0 then [] else [Count, Launch(id), Settle] + LaunchSteps(id + 1, n - 1)
  }

  function RemoveSteps(id: int, n: nat): seq<Step>
    decreases n
  {
    if n == 0 then [] else [Remove(id)] + RemoveSteps(id + 1, n - 1)
  }

  lemma {:induction false} LaunchesAreOthers(id: int, n: nat)
    ensures Others(LaunchSteps(id, n))
    decreases n
  {
    if n > 0 {
      LaunchesAreOthers(id + 1, n - 1);
    }
  }

  lemma {:induction false} RunsConcat(s: Fleet, first: seq<Step>, second: seq<Step>)
    requires Runs(s, first) && Runs(Final(s, first), second)
    ensures Runs(s, first + second) && Final(s, first + second) == Final(Final(s, first), second)
    decreases |first|
  {
    if first == [] {
      assert first + second == second;
    } else {
      assert (first + second)[1..] == first[1..] + second;
      RunsConcat(After(s, first[0]), first[1..], second);
    }
  }

  lemma LaunchOne(s: Fleet, id: int)
    requires s.phase == Idle && s.midNeed > 0 && id !in s.vms
    ensures Runs(s, [Count, Launch(id), Settle])
    ensures Final(s, [Count, Launch(id), Settle])
         == s.(vms := s.vms[id := MIDDLE], midNum := s.midNum + 1, midNeed := s.midNeed - 1)
    ensures |s.vms[id := MIDDLE]| == |s.vms| + 1
  {
    var s1 := After(s, Count);
    var s2 := After(s1, Launch(id));
    RunsOne(s, Count);
    RunsOne(s1, Launch(id));
    RunsOne(s2, Settle);
    RunsConcat(s, [Count], [Launch(id)]);
    RunsConcat(s, [Count] + [Launch(id)], [Settle]);
    assert [Count] + [Launch(id)] + [Settle] == [Count, Launch(id), Settle];
    KeysOfUpdate(s.vms, id, MIDDLE);
  }

  lemma {:induction false} LaunchMany(s: Fleet, id: int, n: nat)
    requires s.phase == Idle && s.midNeed >= n && forall x :: x in s.vms ==> x < id
    ensures Runs(s, LaunchSteps(id, n))
    ensures var s' := Final(s, LaunchSteps(id, n));
            && s'.phase == Idle && s'.midNum == s.midNum + n && s'.midNeed == s.midNeed - n
            && |s'.vms| == |s.vms| + n
            && (forall x :: x in s'.vms <==> x in s.vms || id <= x < id + n)
            && (forall x :: x in s'.vms ==> s'.vms[x] == if x in s.vms then s.vms[x] else MIDDLE)
    decreases n
  {
    if n > 0 {
      LaunchOne(s, id);
      var s1 := Final(s, [Count, Launch(id), Settle]);
      LaunchMany(s1, id + 1, n - 1);
      RunsConcat(s, [Count, Launch(id), Settle], LaunchSteps(id + 1, n - 1));
    }
  }

  lemma {:induction false} RemoveMany(s: Fleet, id: int, n: nat)
    requires id > KEPT && forall x :: id <= x < id + n ==> x in s.vms && s.vms[x] == MIDDLE
    ensures Runs(s, RemoveSteps(id, n))
    ensures var s' := Final(s, RemoveSteps(id, n));
            && s'.phase == s.phase && s'.midNum == s.midNum - n && s'.midNeed == s.midNeed
            && |s'.vms| == |s.vms| && s'.vms.Keys == s.vms.Keys
            && (forall x :: x in s'.vms && !(id <= x < id + n) ==> s'.vms[x] == s.vms[x])
    decreases n
  {
    if n > 0 {
      RunsOne(s, Remove(id));
      KeysOfUpdate(s.vms, id, NONE);
      assert s.vms[id := NONE].Keys == s.vms.Keys + {id} == s.vms.Keys;
      RemoveMany(After(s, Remove(id)), id + 1, n - 1);
      RunsConcat(s, [Remove(id)], RemoveSteps(id + 1, n - 1));
    }
  }

  // ----- when a split decision keeps the cap -----

  /** Until the next decision nobody records more than 12 machines. */
  ghost predicate StaysCapped(t: Fleet) {
    forall more :: Runs(t, more) && Others(more) ==> |Final(t, more).vms| <= CAP
  }

  ghost predicate Room(s: Fleet) {
    |s.vms| + Lag(s) <= CAP && Planned(s) <= CAP
  }

  lemma {:induction false} RoomStays(s: Fleet, more: seq<Step>)
    requires Room(s) && Runs(s, more) && Others(more)
    ensures |Final(s, more).vms| <= CAP
    decreases |more|
  {
    if more != [] {
      var t := more[0];
      assert t in more && !t.Scale?;
      if t.Launch? || t.Remove? {
        KeysOfUpdate(s.vms, t.id, if t.Launch? then MIDDLE else NONE);
      }
      assert forall x :: x in more[1..] ==> x in more;
      RoomStays(After(s, t), more[1..]);
    }
  }

  lemma FreshId(vms: map<int, Tier>) returns (id: int)
    ensures forall x :: x in vms ==> x < id
  {
    id := Above(vms.Keys);
    assert forall x :: x in vms ==> x in vms.Keys;
  }

  lemma Above(ids: set<int>) returns (bound: int)
    ensures forall x :: x in ids ==> x < bound
    decreases |ids|
  {
    if y :| y in ids {
      var below := Above(ids - {y});
      bound := if y < below then below else y + 1;
      forall x | x in ids ensures x < bound {
        assert x != y ==> x in ids - {y};
      }
    } else {
      bound := 0;
    }
  }

  /** The machine just being started is recorded and settled. */
  lemma SettleStart(s: Fleet) returns (steps: seq<Step>)
    ensures Runs(s, steps) && Others(steps) && Removals(steps) == 0
    ensures Final(s, steps).phase == Idle && Planned(Final(s, steps)) == Planned(s)
  {
    if s.phase == Counted {
      var id := FreshId(s.vms);
      KeysOfUpdate(s.vms, id, MIDDLE);
      var s1 := After(s, Launch(id));
      RunsOne(s, Launch(id));
      RunsOne(s1, Settle);
      RunsConcat(s, [Launch(id)], [Settle]);
      steps := [Launch(id)] + [Settle];
      assert steps[1..] == [Settle] && [Settle][1..] == [];
    } else if s.phase == Launched {
      RunsOne(s, Settle);
      steps := [Settle];
      assert steps[1..] == [];
    } else {
      steps := [];
    }
  }

  /** Everything that is planned does get recorded. */
  lemma PlannedHappens(s: Fleet) returns (more: seq<Step>)
    ensures Runs(s, more) && Others(more) && |Final(s, more).vms| >= Planned(s)
  {
    more := SettleStart(s);
    var s1 := Final(s, more);
    if s1.midNeed > 0 {
      var id := FreshId(s1.vms);
      LaunchMany(s1, id, s1.midNeed);
      LaunchesAreOthers(id, s1.midNeed);
      RunsConcat(s, more, LaunchSteps(id, s1.midNeed));
      more := more + LaunchSteps(id, s1.midNeed);
    }
  }

  /** Whatever the other threads do between the test and the assignment: no run
      up to the next decision records more than 12 machines exactly when the need
      that was tested leaves room for every machine removed meanwhile. */
  lemma SplitDecisionExact(s: Fleet, average: real, steps: seq<Step>)
    requires Safe(s) && Runs(s, steps) && Others(steps)
    ensures var s' := Final(s, steps);
            StaysCapped(Assigned(s', average)) <==>
              (Target(average) - s.midNum) + |s.vms| + Lag(s) + Removals(steps)
              <= CAP + (if s'.phase == Idle then 0 else 1)
  {
    GapGrows(s, steps);
    RunKeepsSafe(s, steps);
    var t := Assigned(Final(s, steps), average);
    if Planned(t) <= CAP {
      forall more | Runs(t, more) && Others(more) ensures |Final(t, more).vms| <= CAP {
        RoomStays(t, more);
      }
    } else {
      var more := PlannedHappens(t);
      assert |Final(t, more).vms| > CAP;
    }
  }

  // ----- what a decision leads to -----

  function Launches(steps: seq<Step>): nat {
    if steps == [] then 0 else (if steps[0].Launch? then 1 else 0) + Launches(steps[1..])
  }

  /** What is needed on top of a start that is under way. */
  function Wanted(s: Fleet): int {
    s.midNeed - (if s.phase == Idle then 0 else 1)
  }

  /** Nothing more is launched than what is needed and what is under way. */
  lemma {:induction false} LaunchesBounded(s: Fleet, steps: seq<Step>)
    requires Runs(s, steps) && Others(steps)
    ensures Launches(steps) <= Lag(s) + (if Wanted(s) > 0 then Wanted(s) else 0)
    decreases |steps|
  {
    if steps != [] {
      var t := steps[0];
      assert t in steps && !t.Scale?;
      assert forall x :: x in steps[1..] ==> x in steps;
      LaunchesBounded(After(s, t), steps[1..]);
    }
  }

  /** Below an average of 2, with fewer than 12 machines, what was needed is called
      off: until the next decision no machine is launched but one whose start is
      already under way. */
  lemma ScaleDownStops(s: Fleet, average: real, more: seq<Step>)
    requires |s.vms| < 12 && average < 2.0
    requires Runs(After(s, Scale(average)), more) && Others(more)
    ensures Launches(more) <= (if s.phase == Counted then 1 else 0)
  {
    LaunchesBounded(After(s, Scale(average)), more);
  }

  /** Counting and settling move a need into the count; a removal lowers it. */
  lemma {:induction false} NeedsMove(s: Fleet, steps: seq<Step>)
    requires Runs(s, steps) && Others(steps) && Wanted(s) >= 0
    ensures var s' := Final(s, steps);
            Wanted(s') >= 0 && s'.midNum + Wanted(s') == s.midNum + Wanted(s) - Removals(steps)
    decreases |steps|
  {
    if steps != [] {
      var t := steps[0];
      assert t in steps && !t.Scale?;
      assert forall x :: x in steps[1..] ==> x in steps;
      NeedsMove(After(s, t), steps[1..]);
    }
  }

  /** The middle machines wanted for an average queue length, as the program's
      four bands say it. */
  ghost predicate Band(average: real, wanted: int) {
    || (2.0 <= average < 4.5 && wanted == 2)
    || (4.5 <= average < 6.5 && wanted == 3)
    || (6.5 <= average < 7.0 && wanted == 6)
    || (7.0 <= average && wanted == 10)
  }

  /** The starting thread has nothing left to do. */
  predicate Settled(s: Fleet) {
    s.phase == Idle && s.midNeed <= 0
  }

  /** With room for the machines that lack, the middle machines counted when all
      that was needed has started are as many as the band says, less those removed
      meanwhile; but one too few if the decision fell into the middle of a start,
      whose need it overwrote.  Such a run exists. */
  lemma ScaleUpReaches(s: Fleet, average: real, wanted: int)
    requires Band(average, wanted) && |s.vms| < 12
    requires s.midNum < wanted && (wanted - s.midNum) + |s.vms| <= 12
    ensures var t := After(s, Scale(average));
            && (forall more :: Runs(t, more) && Others(more) && Settled(Final(t, more)) ==>
                  Final(t, more).midNum == wanted - (if s.phase == Idle then 0 else 1) - Removals(more))
            && (exists more :: Runs(t, more) && Others(more) && Settled(Final(t, more)) && Removals(more) == 0)
  {
    var t := After(s, Scale(average));
    forall more | Runs(t, more) && Others(more) && Settled(Final(t, more))
      ensures Final(t, more).midNum == wanted - (if s.phase == Idle then 0 else 1) - Removals(more)
    {
      NeedsMove(t, more);
    }
    var more := SettleAll(t);
  }

  /** Otherwise the decision leaves what is needed as it was: enough middle
      machines are counted, or not all that lack have room. */
  lemma ScaleUpRests(s: Fleet, average: real, wanted: int)
    requires Band(average, wanted) && Safe(s)
    ensures After(s, Scale(average)) == s <==>
              || s.midNum >= wanted || (wanted - s.midNum) + |s.vms| > 12 || s.midNeed == wanted - s.midNum
  {
  }

  lemma SettleAll(s: Fleet) returns (more: seq<Step>)
    ensures Runs(s, more) && Others(more) && Settled(Final(s, more)) && Removals(more) == 0
  {
    more := SettleStart(s);
    var s1 := Final(s, more);
    if s1.midNeed > 0 {
      var id := FreshId(s1.vms);
      LaunchMany(s1, id, s1.midNeed);
      LaunchesAreOthers(id, s1.midNeed);
      RunsConcat(s, more, LaunchSteps(id, s1.midNeed));
      RemovalsConcat(more, LaunchSteps(id, s1.midNeed));
      NoRemovals(id, s1.midNeed);
      more := more + LaunchSteps(id, s1.midNeed);
    }
  }

  lemma {:induction false} RemovalsConcat(first: seq<Step>, second: seq<Step>)
    ensures Removals(first + second) == Removals(first) + Removals(second)
  {
    if first == [] {
      assert first + second == second;
    } else {
      assert (first + second)[1..] == first[1..] + second;
      RemovalsConcat(first[1..], second);
    }
  }

  lemma {:induction false} NoRemovals(id: int, n: nat)
    ensures Removals(LaunchSteps(id, n)) == 0
    decreases n
  {
    if n > 0 {
      NoRemovals(id + 1, n - 1);
      RemovalsConcat([Count, Launch(id), Settle], LaunchSteps(id + 1, n - 1));
      var start := [Count, Launch(id), Settle];
      assert start[1..] == [Launch(id), Settle] && start[1..][1..] == [Settle] && start[1..][1..][1..] == [];
      assert Removals(start[1..]) == Removals(start[1..][1..]) == Removals(start[1..][1..][1..]) == 0;
    }
  }

  // ----- such a decision in a run of the program -----

  /** A run of the program, a decision that passes its test after it, what the
      other threads do before it assigns, and the starts it then causes. */
  ghost predicate Overflow(s0: Fleet, before: seq<Step>, average: real, between: seq<Step>, starts: seq<Step>) {
    && Booted(s0) && Runs(s0, before)
    && Passes(Final(s0, before), average)
    && Runs(Final(s0, before), between) && Others(between)
    && var s := Assigned(Final(Final(s0, before), between), average);
       Runs(s, starts) && Others(starts) && |Final(s, starts).vms| == CAP + 1
  }

  /** Eight launches and seven removals leave eleven recorded machines, two of
      them middle; a removal between the two reads then lets two more start. */
  lemma SplitDecisionOverflows()
    ensures exists s0, before, average, between, starts :: Overflow(s0, before, average, between, starts)
  {
    hide LaunchSteps, RemoveSteps, Runs, Final;
    var s0 := Start(1, 2, 3);
    assert Booted(s0);
    var before, s := CrowdedRun(s0);
    RunsOne(s, Remove(11));
    KeysOfUpdate(s.vms, 11, NONE);
    var t := Assigned(Removed(s, 11), 5.0);
    assert t.vms.Keys == s.vms.Keys + {11};
    LaunchMany(t, 12, 2);
    LaunchesAreOthers(12, 2);
    assert Overflow(s0, before, 5.0, [Remove(11)], LaunchSteps(12, 2));
  }

  lemma CrowdedRun(s0: Fleet) returns (before: seq<Step>, s: Fleet)
    requires s0 == Start(1, 2, 3)
    ensures Runs(s0, before) && Final(s0, before) == s
    ensures s.phase == Idle && |s.vms| == 11 && s.midNum == 2
    ensures forall x :: x in s.vms <==> 1 <= x <= 11
    ensures s.vms[11] == MIDDLE
  {
    hide LaunchSteps, RemoveSteps, Runs, Final, After;
    var s1 := Scaled(s0, 7.0);
    ScaledUp(s0);
    LaunchMany(s1, 4, 8);
    var s2 := Final(s1, LaunchSteps(4, 8));
    RemoveMany(s2, 4, 7);
    s := Final(s2, RemoveSteps(4, 7));
    RunsConcat(s1, LaunchSteps(4, 8), RemoveSteps(4, 7));
    RunsConcat(s0, [Scale(7.0)], LaunchSteps(4, 8) + RemoveSteps(4, 7));
    before := [Scale(7.0)] + (LaunchSteps(4, 8) + RemoveSteps(4, 7));
  }

  lemma ScaledUp(s0: Fleet)
    requires s0 == Start(1, 2, 3)
    ensures Runs(s0, [Scale(7.0)]) && Final(s0, [Scale(7.0)]) == Scaled(s0, 7.0)
    ensures var s := Scaled(s0, 7.0);
            && s == s0.(midNeed := 9) && |s.vms| == 3
            && forall x :: x in s.vms <==> 1 <= x <= 3
  {
    assert s0.vms.Keys == {1, 2, 3};
    assert |s0.vms| == |s0.vms.Keys| == 3;
    RunsOne(s0, Scale(7.0));
  }

  function WithMiddles(vms: map<int, Tier>, ids: seq<int>): map<int, Tier> {
    if ids == [] then vms else WithMiddles(vms, ids[..|ids| - 1])[ids[|ids| - 1] := MIDDLE]
  }

  // ----- the class -----

  class Master {
    var vmDict: map<int, Tier>
    var midNum: int
    var midNeed: int
    var frontNum: int

    /** The starting thread's place, for the specification only. */
    ghost var phase: Phase

    ghost function Abs(): Fleet
      reads this
    {
      Fleet(vmDict, midNum, midNeed, frontNum, phase)
    }

    /** main and the head of doMaster: the master is a front end as well. */
    constructor (master: int, mid: int, front: int)
      requires master != mid && master != front && mid != front
      ensures Abs() == Start(master, mid, front)
      ensures Booted(Abs()) && Safe(Abs()) && (HasKept(Abs()) <==> mid <= KEPT)
    {
      vmDict, midNum, midNeed, frontNum := map[master := MASTER], 0, 0, 0;
      phase := Idle;
      new;
      midNum := midNum + 1;
      vmDict := vmDict[mid := MIDDLE];
      frontNum := frontNum + 1;
      vmDict := vmDict[front := FRONT];
      frontNum := frontNum + 1;
      assert vmDict == map[master := MASTER, mid := MIDDLE, front := FRONT];
      hide Booted, Safe, HasKept;
      assert Abs() == Start(master, mid, front);
      StartFacts(master, mid, front);
    }

    /** One decision of scaleOut. */
    method ScaleOut(average: real)
      modifies this`midNeed
      ensures Abs() == Scaled(old(Abs()), average)
      ensures old(Safe(Abs())) ==> Safe(Abs())
    {
      ghost var s := Abs();
      if |vmDict| >= 12 {
        return;
      }
      if average < 2.0 {
        midNeed := 0;
      } else if 2.0 <= average && average < 4.5 {
        if midNum < 2 && (2 - midNum) + |vmDict| <= 12 {
          midNeed := 2 - midNum;
        }
      } else if 4.5 <= average && average < 6.5 {
        if midNum < 3 && (3 - midNum) + |vmDict| <= 12 {
          midNeed := 3 - midNum;
        }
      } else if 6.5 <= average && average < 7.0 {
        if midNum < 6 && (6 - midNum) + |vmDict| <= 12 {
          midNeed := 6 - midNum;
        }
      } else if average >= 7.0 {
        if midNum < 10 && (10 - midNum) + |vmDict| <= 12 {
          midNeed := 10 - midNum;
        }
      }
      if Safe(s) {
        StepKeepsSafe(s, Scale(average));
      }
    }

    /** The loop of doMaster that starts middle machines; `ids` are what startVM
        returns.  It records as many as are needed, and none is needed after. */
    method StartMiddles(ids: seq<int>) returns (started: nat)
      requires Safe(Abs()) && phase == Idle
      requires |ids| >= midNeed
      requires forall i :: 0 <= i < |ids| ==> ids[i] !in vmDict
      requires forall i, j :: 0 <= i < j < |ids| ==> ids[i] != ids[j]
      modifies this
      ensures Safe(Abs()) && phase == Idle
      ensures started == if old(midNeed) > 0 then old(midNeed) else 0
      ensures midNeed == old(midNeed) - started && midNum == old(midNum) + started && frontNum == old(frontNum)
      ensures started <= |ids| && vmDict == WithMiddles(old(vmDict), ids[..started])
    {
      started := 0;
      while midNeed > 0
        invariant Safe(Abs()) && phase == Idle
        invariant started <= |ids| && midNeed == old(midNeed) - started && midNum == old(midNum) + started
        invariant frontNum == old(frontNum) && (started > 0 ==> midNeed >= 0)
        invariant vmDict == WithMiddles(old(vmDict), ids[..started])
        invariant forall i :: started <= i < |ids| ==> ids[i] !in vmDict
        decreases midNeed
      {
        StartMiddle(ids[started]);
        assert ids[..started + 1][..started] == ids[..started];
        started := started + 1;
      }
    }

    /** One turn of that loop: count, launch and record, settle. */
    method StartMiddle(id: int)
      requires Safe(Abs()) && phase == Idle && midNeed > 0 && id !in vmDict
      modifies this
      ensures Safe(Abs()) && phase == Idle
      ensures Abs() == After(After(After(old(Abs()), Count), Launch(id)), Settle)
    {
      ghost var s := Abs();
      midNum, phase := midNum + 1, Counted;
      StepKeepsSafe(s, Count);
      s := Abs();
      vmDict, phase := vmDict[id := MIDDLE], Launched;
      StepKeepsSafe(s, Launch(id));
      s := Abs();
      midNeed, phase := midNeed - 1, Idle;
      StepKeepsSafe(s, Settle);
    }

    method RemoveVM(id: int)
      modifies this
      ensures Abs() == Removed(old(Abs()), id)
      ensures old(Safe(Abs())) && old(Enabled(Abs(), Remove(id))) ==> Safe(Abs())
    {
      ghost var s := Abs();
      if id in vmDict {
        var tier := vmDict[id];
        if tier == FRONT {
          frontNum := frontNum - 1;
        }
        if tier == MIDDLE {
          midNum := midNum - 1;
        }
      }
      vmDict := vmDict[id := NONE];
      if Safe(s) && Enabled(s, Remove(id)) {
        StepKeepsSafe(s, Remove(id));
      }
    }
  }
}
