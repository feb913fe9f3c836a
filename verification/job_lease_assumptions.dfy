/**
 What the exclusion of the job lease rests on: for each of its four assumptions, a run that lacks
 it alone and has two nodes in the executor.
 */
module JobLeaseAssumptions {
  import opened Wrappers
  import opened JobLease

  datatype Assumption = TimelyHeartbeats | DistinctTimes | MovingNames | RestingNames

  /** All assumptions but one. */
  predicate OrderlyBut(c: Config, s: State, but: Assumption) {
    && (but != TimelyHeartbeats ==> Timely(c, s))
    && (but != DistinctTimes ==> DistinctCreation(s))
    && (but != MovingNames ==> NamesMoveOn(s))
    && (but != RestingNames ==> DoomedNamesRest(s))
  }

  ghost predicate IsRunBut(c: Config, states: seq<State>, steps: seq<Step>, but: Assumption) {
    && IsRun(c, states, steps)
    && forall i :: 0 <= i < |states| ==> OrderlyBut(c, states[i], but)
  }

  /** The run goes on to a state. */
  lemma Extend(c: Config, states: seq<State>, steps: seq<Step>, but: Assumption, step: Step, s': State)
    returns (states': seq<State>, steps': seq<Step>)
    requires IsRunBut(c, states, steps, but) && Enabled(c, states[|steps|], step)
    requires s' == Apply(c, states[|steps|], step) && OrderlyBut(c, s', but)
    ensures IsRunBut(c, states', steps', but) && states'[|steps'|] == s'
  {
    states', steps' := states + [s'], steps + [step];
  }

  /** Nothing stops a triggered node from going on from here, without a write to another record. */
  predicate IsOpen(s: State, pick: Option<JobId>) {
    && s.lock.None?
    && match pick
       case None => s.table == map[]
       case Some(id) => IsLast(s.table, id) && s.table[id].status == Done && s.table[id].expiresAt >= s.now
  }

  /** An idle node takes up a phase before its run is live. */
  lemma ApproachIsOrderly(c: Config, s: State, but: Assumption, n: nat, p: Phase)
    requires c.Valid() && OrderlyBut(c, s, but) && n < |s.nodes| && s.nodes[n].Idle? && !p.Live()
    requires p.Judging? ==> p.readAt == s.now
    requires p.Starting? ==> but == MovingNames || p.id !in s.table || IsLast(s.table, p.id)
    requires p.Starting? ==> but == RestingNames || p.id !in s.doomed
    ensures OrderlyBut(c, To(s, n, p).(lock := Some(n)), but)
  {
    MoveIsCalm(s, n, p, Some(n));
  }

  /** A triggered node takes the lock and reads the last record. */
  lemma ApproachJudging(c: Config, states: seq<State>, steps: seq<Step>, but: Assumption, n: nat,
                        pick: Option<JobId>, last: Option<Snapshot>)
    returns (states': seq<State>, steps': seq<Step>)
    requires c.Valid() && IsRunBut(c, states, steps, but)
    requires var s := states[|steps|];
             && IsOpen(s, pick) && n < |s.nodes| && s.nodes[n].Idle?
             && last == match pick case None => None case Some(id) => Some(Snapshot(id, s.table[id]))
    ensures IsRunBut(c, states', steps', but)
    ensures var s := states[|steps|];
            states'[|steps'|] == To(s, n, Judging(true, last, s.now)).(lock := Some(n))
  {
    var s := states[|steps|];
    ApproachIsOrderly(c, s, but, n, Locked(true));
    states', steps' := Extend(c, states, steps, but, TryLock(n, true), To(s, n, Locked(true)).(lock := Some(n)));
    ApproachIsOrderly(c, s, but, n, Judging(true, last, s.now));
    states', steps' := Extend(c, states', steps', but, ReadLast(n, pick),
                              To(s, n, Judging(true, last, s.now)).(lock := Some(n)));
  }

  /** A triggered node goes through the protocol up to its write. */
  lemma Approach(c: Config, states: seq<State>, steps: seq<Step>, but: Assumption, n: nat, pick: Option<JobId>,
                 id: JobId)
    returns (states': seq<State>, steps': seq<Step>)
    requires c.Valid() && IsRunBut(c, states, steps, but)
    requires var s := states[|steps|]; IsOpen(s, pick) && n < |s.nodes| && s.nodes[n].Idle?
    requires var s := states[|steps|]; but == MovingNames || id !in s.table || IsLast(s.table, id)
    requires but == RestingNames || id !in states[|steps|].doomed
    ensures IsRunBut(c, states', steps', but)
    ensures states'[|steps'|] == To(states[|steps|], n, Starting(id)).(lock := Some(n))
  {
    var s := states[|steps|];
    var last := match pick case None => None case Some(id) => Some(Snapshot(id, s.table[id]));
    states', steps' := ApproachJudging(c, states, steps, but, n, pick, last);
    ApproachIsOrderly(c, s, but, n, Naming);
    states', steps' := Extend(c, states', steps', but, Judge(n), To(s, n, Naming).(lock := Some(n)));
    ApproachIsOrderly(c, s, but, n, Starting(id));
    states', steps' := Extend(c, states', steps', but, Name(n, id), To(s, n, Starting(id)).(lock := Some(n)));
  }

  /** A node is inside the executor under a name. */
  function Began(c: Config, s: State, n: nat, id: JobId): State
    requires n < |s.nodes|
  {
    To(s, n, Running(id)).(table := Saved(s.table, id, Started, s.now, c), lock := None)
  }

  lemma BeganIsOrderly(c: Config, s: State, but: Assumption, n: nat, id: JobId, p: Phase, lock: Option<nat>)
    requires c.Valid() && OrderlyBut(c, s, but) && n < |s.nodes| && p.Live() && p.id == id
    requires but == DistinctTimes || DistinctCreation(Began(c, s, n, id))
    requires forall m :: 0 <= m < |s.nodes| ==> !s.nodes[m].Starting?
    ensures OrderlyBut(c, Began(c, s, n, id).(nodes := s.nodes[n := p], lock := lock), but)
  {
    var s' := Began(c, s, n, id).(nodes := s.nodes[n := p], lock := lock);
    forall other | IsLive(s', other) && other != id ensures IsLive(s, other) {
      var m :| 0 <= m < |s'.nodes| && s'.nodes[m].Live() && s'.nodes[m].id == other;
      assert m != n && s.nodes[m].Live() && s.nodes[m].id == other;
    }
  }

  lemma Begin(c: Config, states: seq<State>, steps: seq<Step>, but: Assumption, n: nat, pick: Option<JobId>, id: JobId)
    returns (states': seq<State>, steps': seq<Step>)
    requires c.Valid() && IsRunBut(c, states, steps, but)
    requires var s := states[|steps|]; IsOpen(s, pick) && n < |s.nodes| && s.nodes[n].Idle?
    requires var s := states[|steps|]; but == MovingNames || id !in s.table || IsLast(s.table, id)
    requires but == RestingNames || id !in states[|steps|].doomed
    requires but == DistinctTimes || DistinctCreation(Began(c, states[|steps|], n, id))
    requires forall m :: 0 <= m < |states[|steps|].nodes| ==> !states[|steps|].nodes[m].Starting?
    ensures IsRunBut(c, states', steps', but)
    ensures states'[|steps'|] == Began(c, states[|steps|], n, id)
  {
    var s := states[|steps|];
    var began := Began(c, s, n, id);
    states', steps' := Approach(c, states, steps, but, n, pick, id);
    BeganIsOrderly(c, s, but, n, id, Unlocking(id), Some(n));
    states', steps' := Extend(c, states', steps', but, Start(n, Answered),
                              began.(nodes := s.nodes[n := Unlocking(id)], lock := Some(n)));
    BeganIsOrderly(c, s, but, n, id, Running(id), None);
    states', steps' := Extend(c, states', steps', but, Unlock(n, Answered), began);
  }

  /** The node leaves the executor, and its record says "done". */
  function Ended(c: Config, s: State, n: nat): State
    requires n < |s.nodes| && s.nodes[n].Running?
  {
    To(s, n, Idle).(table := Saved(s.table, s.nodes[n].id, Done, s.now, c))
  }

  lemma End(c: Config, states: seq<State>, steps: seq<Step>, but: Assumption, n: nat)
    returns (states': seq<State>, steps': seq<Step>)
    requires c.Valid() && IsRunBut(c, states, steps, but)
    requires var s := states[|steps|];
             && n < |s.nodes| && s.nodes[n].Running? && s.nodes[n].id in s.table && s.beats == {}
             && forall m :: 0 <= m < |s.nodes| && m != n ==> s.nodes[m].Idle?
    ensures IsRunBut(c, states', steps', but)
    ensures states'[|steps'|] == Ended(c, states[|steps|], n)
  {
    var s := states[|steps|];
    var finishing := To(s, n, Finishing(s.nodes[n].id, Done));
    MoveIsCalm(s, n, Finishing(s.nodes[n].id, Done), s.lock);
    states', steps' := Extend(c, states, steps, but, Step.Exit(n, Ok), finishing);
    states', steps' := Extend(c, states', steps', but, Finish(n, true), Ended(c, s, n));
  }

  function AfterOneRun(c: Config): State {
    State(0, None, [Idle, Idle], map[0 := Record(Done, 0, 0, c.Lifetime())], {}, {})
  }

  function AfterTwoRuns(c: Config): State {
    var one, two := Record(Done, 0, 0, c.Lifetime()), Record(Done, 1, 1, 1 + c.Lifetime());
    State(2, None, [Idle, Idle], map[0 := one, 1 := two], {}, {})
  }

  /** The first node runs, and its last heartbeat is one timeout ago. */
  function AfterLapse(c: Config): State
    requires c.Valid()
  {
    State(c.Timeout(), None, [Running(0), Idle], map[0 := Record(Started, 0, 0, c.Lifetime())], {}, {})
  }

  /** The second node has found that out. */
  function FoundLapsed(c: Config): State
    requires c.Valid()
  {
    To(AfterLapse(c), 1, MarkingFailed(0)).(lock := Some(1))
  }

  /** A run that has been started and ended at the beginning of time. */
  lemma FirstRun(c: Config, but: Assumption) returns (states: seq<State>, steps: seq<Step>)
    requires c.Valid()
    ensures IsRunBut(c, states, steps, but)
    ensures states[|steps|] == AfterOneRun(c)
  {
    states, steps := [State(0, None, [Idle, Idle], map[], {}, {})], [];
    states, steps := Begin(c, states, steps, but, 0, None, 0);
    states, steps := End(c, states, steps, but, 0);
  }

  lemma Lapse(c: Config) returns (states: seq<State>, steps: seq<Step>)
    requires c.Valid()
    ensures IsRunBut(c, states, steps, TimelyHeartbeats) && states[|steps|] == AfterLapse(c)
  {
    states, steps := [State(0, None, [Idle, Idle], map[], {}, {})], [];
    states, steps := Begin(c, states, steps, TimelyHeartbeats, 0, None, 0);
    states, steps := Extend(c, states, steps, TimelyHeartbeats, Tick(c.Timeout()), AfterLapse(c));
  }

  lemma FindLapsed(c: Config, states: seq<State>, steps: seq<Step>)
    returns (states': seq<State>, steps': seq<Step>)
    requires c.Valid() && IsRunBut(c, states, steps, TimelyHeartbeats) && states[|steps|] == AfterLapse(c)
    ensures IsRunBut(c, states', steps', TimelyHeartbeats) && states'[|steps'|] == FoundLapsed(c)
  {
    var s, but := states[|steps|], TimelyHeartbeats;
    var judging := Judging(true, Some(Snapshot(0, s.table[0])), s.now);
    states', steps' := Extend(c, states, steps, but, TryLock(1, true), To(s, 1, Locked(true)).(lock := Some(1)));
    states', steps' := Extend(c, states', steps', but, ReadLast(1, Some(0)), To(s, 1, judging).(lock := Some(1)));
    states', steps' := Extend(c, states', steps', but, Judge(1), FoundLapsed(c));
  }

  /** The second node marks the first one as failed and goes on. */
  lemma JoinLapsed(c: Config, states: seq<State>, steps: seq<Step>)
    returns (states': seq<State>, steps': seq<Step>)
    requires c.Valid() && IsRunBut(c, states, steps, TimelyHeartbeats)
    requires states[|steps|] == FoundLapsed(c)
    ensures IsRunBut(c, states', steps', TimelyHeartbeats) && !Exclusive(states'[|steps'|])
  {
    var s, but := states[|steps|], TimelyHeartbeats;
    var marked := s.(table := map[0 := Record(Status.Failed, 0, s.now, s.now + c.Lifetime())]);
    var joined := Saved(marked.table, 1, Started, s.now, c);
    states', steps' := Extend(c, states, steps, but, MarkFailed(1, true), To(marked, 1, Naming));
    states', steps' := Extend(c, states', steps', but, Name(1, 1), To(marked, 1, Starting(1)));
    states', steps' := Extend(c, states', steps', but, Start(1, Answered),
                              To(marked, 1, Unlocking(1)).(table := joined));
    states', steps' := Extend(c, states', steps', but, Unlock(1, Answered),
                              To(marked, 1, Running(1)).(table := joined, lock := None));
    assert states'[|steps'|].nodes[0].Running? && states'[|steps'|].nodes[1].Running?;
  }

  /** Timeliness is needed: under every setting, a run whose heartbeats stay out for one timeout
      can be joined in the executor by another. */
  lemma ExclusionNeedsTimeliness(c: Config) returns (states: seq<State>, steps: seq<Step>)
    requires c.Valid()
    ensures IsRunBut(c, states, steps, TimelyHeartbeats) && !Exclusive(states[|steps|])
  {
    states, steps := Lapse(c);
    states, steps := FindLapsed(c, states, steps);
    states, steps := JoinLapsed(c, states, steps);
  }

  /** Distinct creation times are needed: of two records from the same instant the older run's may
      be taken for the last one. */
  lemma ExclusionNeedsDistinctTimes(c: Config) returns (states: seq<State>, steps: seq<Step>)
    requires c.Valid()
    ensures IsRunBut(c, states, steps, DistinctTimes) && !Exclusive(states[|steps|])
  {
    states, steps := FirstRun(c, DistinctTimes);
    states, steps := Begin(c, states, steps, DistinctTimes, 0, Some(0), 1);
    states, steps := Begin(c, states, steps, DistinctTimes, 1, Some(0), 2);
    assert states[|steps|].nodes[0].Running? && states[|steps|].nodes[1].Running?;
  }

  /** Two runs, one after the other. */
  lemma TwoRuns(c: Config) returns (states: seq<State>, steps: seq<Step>)
    requires c.Valid()
    ensures IsRunBut(c, states, steps, MovingNames)
    ensures states[|steps|] == AfterTwoRuns(c)
  {
    states, steps := FirstRun(c, MovingNames);
    states, steps := Extend(c, states, steps, MovingNames, Tick(1), AfterOneRun(c).(now := 1));
    states, steps := SecondRun(c, states, steps);
    states, steps := Extend(c, states, steps, MovingNames, Tick(1), AfterTwoRuns(c));
  }

  lemma SecondRun(c: Config, states: seq<State>, steps: seq<Step>) returns (states': seq<State>, steps': seq<Step>)
    requires c.Valid() && IsRunBut(c, states, steps, MovingNames) && states[|steps|] == AfterOneRun(c).(now := 1)
    ensures IsRunBut(c, states', steps', MovingNames) && states'[|steps'|] == AfterTwoRuns(c).(now := 1)
  {
    states', steps' := Begin(c, states, steps, MovingNames, 0, Some(0), 1);
    states', steps' := End(c, states', steps', MovingNames, 0);
  }

  /** Names that move on are needed: a run under the name of an older one keeps the older creation
      time, and so does not have the last record. */
  lemma ExclusionNeedsMovingNames(c: Config) returns (states: seq<State>, steps: seq<Step>)
    requires c.Valid()
    ensures IsRunBut(c, states, steps, MovingNames) && !Exclusive(states[|steps|])
  {
    states, steps := TwoRuns(c);
    states, steps := Begin(c, states, steps, MovingNames, 0, Some(1), 0);
    assert states[|steps|].nodes[0].Running? && states[|steps|].nodes[1].Idle?;
    states, steps := Begin(c, states, steps, MovingNames, 1, Some(1), 2);
    assert states[|steps|].nodes[0].Running? && states[|steps|].nodes[1].Running?;
  }

  /** Time has passed until the record of the first run is found expired by two who list the records,
      and one of them has deleted it. */
  function HalfPurged(c: Config): State {
    State(c.Lifetime() + 1, None, [Idle, Idle], map[], {}, {0})
  }

  lemma PurgeOnce(c: Config) returns (states: seq<State>, steps: seq<Step>)
    requires c.Valid()
    ensures IsRunBut(c, states, steps, RestingNames) && states[|steps|] == HalfPurged(c)
  {
    var late := AfterOneRun(c).(now := c.Lifetime() + 1);
    states, steps := FirstRun(c, RestingNames);
    states, steps := Extend(c, states, steps, RestingNames, Tick(c.Lifetime() + 1), late);
    states, steps := Extend(c, states, steps, RestingNames, Condemn({0}), late.(doomed := {0}));
    states, steps := Extend(c, states, steps, RestingNames, Purge({0}, true, true), HalfPurged(c));
  }

  /** Names of records about to be deleted must rest: a run that starts under one loses its own record
      to the deletion. */
  lemma ExclusionNeedsRestingNames(c: Config) returns (states: seq<State>, steps: seq<Step>)
    requires c.Valid()
    ensures IsRunBut(c, states, steps, RestingNames) && !Exclusive(states[|steps|])
  {
    var s;
    states, steps := PurgeOnce(c);
    states, steps := Begin(c, states, steps, RestingNames, 0, None, 0);
    s := Began(c, HalfPurged(c), 0, 0);
    states, steps := Extend(c, states, steps, RestingNames, Purge({0}, true, false), s.(table := map[], doomed := {}));
    states, steps := Begin(c, states, steps, RestingNames, 1, None, 1);
    assert states[|steps|].nodes[0].Running? && states[|steps|].nodes[1].Running?;
  }
}
