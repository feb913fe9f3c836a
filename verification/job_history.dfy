/**
 What the scheduler makes of the job log: whether an attempt goes on to a start depends on the last
 record and on the trigger alone, and the log says how every run has ended.
 */
module JobHistory {
  import opened Wrappers
  import opened JobLease

  // ---------------------------------------------------------------- whose step it is

  function Actor(step: Step): Option<nat> {
    match step
    case TryLock(n, _) => Some(n)
    case ReadLast(n, _) => Some(n)
    case ReadFails(n) => Some(n)
    case Judge(n) => Some(n)
    case Delete(n, _) => Some(n)
    case MarkFailed(n, _) => Some(n)
    case Name(n, _) => Some(n)
    case Start(n, _) => Some(n)
    case Unlock(n, _) => Some(n)
    case Beat(n) => Some(n)
    case Exit(n, _) => Some(n)
    case Finish(n, _) => Some(n)
    case Return(n) => Some(n)
    case Crash(n) => Some(n)
    case Tick(_) => None
    case Land(_, _) => None
    case Condemn(_) => None
    case Purge(_, _, _) => None
  }

  lemma OthersLeaveNode(c: Config, s: State, step: Step, n: nat)
    requires Enabled(c, s, step) && n < |s.nodes| && Actor(step) != Some(n)
    ensures |Apply(c, s, step).nodes| == |s.nodes| && Apply(c, s, step).nodes[n] == s.nodes[n]
  {
  }

  lemma NodesStay(c: Config, s: State, step: Step)
    requires Enabled(c, s, step)
    ensures |Apply(c, s, step).nodes| == |s.nodes|
  {
  }

  /** The node takes no step from `i` until `j`. */
  predicate IsIdleBetween(steps: seq<Step>, i: nat, j: nat, n: nat)
    requires j <= |steps|
  {
    forall k :: i <= k < j ==> Actor(steps[k]) != Some(n)
  }

  lemma {:induction false} NodeStays(c: Config, states: seq<State>, steps: seq<Step>, i: nat, j: nat, n: nat)
    requires IsRun(c, states, steps) && i <= j <= |steps| && n < |states[i].nodes| && IsIdleBetween(steps, i, j, n)
    ensures n < |states[j].nodes| && states[j].nodes[n] == states[i].nodes[n]
    decreases j - i
  {
    if i < j {
      NodeStays(c, states, steps, i, j - 1, n);
      OthersLeaveNode(c, states[j - 1], steps[j - 1], n);
    }
  }

  /** The step that brought a node where it is; nobody starts anywhere but idle. */
  lemma {:induction false} LastStep(c: Config, states: seq<State>, steps: seq<Step>, i: nat, n: nat) returns (j: nat)
    requires IsRun(c, states, steps) && i <= |steps| && n < |states[i].nodes| && !states[i].nodes[n].Idle?
    ensures j < i && Actor(steps[j]) == Some(n) && IsIdleBetween(steps, j + 1, i, n)
    ensures n < |states[j].nodes| && n < |states[j + 1].nodes| && states[j + 1].nodes[n] == states[i].nodes[n]
    decreases i
  {
    NodesStay(c, states[i - 1], steps[i - 1]);
    if Actor(steps[i - 1]) == Some(n) {
      j := i - 1;
    } else {
      OthersLeaveNode(c, states[i - 1], steps[i - 1], n);
      j := LastStep(c, states, steps, i - 1, n);
    }
  }

  // ---------------------------------------------------------------- attempts

  /** What an attempt has found in the table: nothing, or a last record. */
  predicate WasRead(s: State, last: Option<Snapshot>) {
    match last
    case None => s.table == map[]
    case Some(Snapshot(id, record)) => IsLast(s.table, id) && record == s.table[id]
  }

  /** A judgement is about the record that was the last one when this attempt read it, and about the
      call with which this attempt began. */
  lemma JudgesWhatItRead(c: Config, states: seq<State>, steps: seq<Step>, i: nat, n: nat)
    returns (began: nat, read: nat)
    requires IsRun(c, states, steps) && i <= |steps| && n < |states[i].nodes| && states[i].nodes[n].Judging?
    ensures began < read < i
    ensures steps[began] == TryLock(n, states[i].nodes[n].triggered)
    ensures steps[read].ReadLast? && steps[read].n == n
    ensures IsIdleBetween(steps, began + 1, read, n) && IsIdleBetween(steps, read + 1, i, n)
    ensures states[read].now == states[i].nodes[n].readAt && WasRead(states[read], states[i].nodes[n].last)
  {
    read := LastStep(c, states, steps, i, n);
    assert steps[read].ReadLast?;
    assert states[read].nodes[n].Locked?;
    began := LastStep(c, states, steps, read, n);
    assert steps[began].TryLock?;
  }

  /** On the way to a start; the first two are detours. */
  predicate GoesOn(p: Phase) {
    p.Deleting? || p.MarkingFailed? || p.Naming?
  }

  /** Over every run: an attempt goes on if and only if the table was empty, or the last record has
      expired, or says "failed", or says "done" and either the attempt was triggered or the interval
      has passed since that run was created, or says "started" and has not been refreshed for the
      heartbeat interval and a tolerance of as much, but at most ten seconds. Otherwise it turns back. */
  lemma GoesOnIff(c: Config, states: seq<State>, steps: seq<Step>, i: nat, n: nat)
    requires IsRun(c, states, steps) && i < |steps| && steps[i] == Judge(n)
    ensures n < |states[i].nodes| == |states[i + 1].nodes| && states[i].nodes[n].Judging?
    ensures var Judging(triggered, last, _) := states[i].nodes[n];
            var tolerance := if c.heartbeat <= 10_000 then c.heartbeat else 10_000;
            var now := states[i].now;
            GoesOn(states[i + 1].nodes[n])
            <==> || last.None?
                 || last.value.record.expiresAt < now
                 || last.value.record.status == Status.Failed
                 || (last.value.record.status == Done
                     && (triggered || now - last.value.record.createdAt >= c.interval))
                 || (last.value.record.status == Started
                     && now - last.value.record.updatedAt >= c.heartbeat + tolerance)
    ensures !GoesOn(states[i + 1].nodes[n]) ==> states[i + 1].nodes[n] == Returning
    ensures var last, p := states[i].nodes[n].last, states[i + 1].nodes[n];
            && (p.Deleting? <==> last.Some? && last.value.record.expiresAt < states[i].now)
            && (p.Deleting? ==> p.stale == last.value.id)
            && (p.MarkingFailed? ==> p.stale == last.value.id && last.value.record.status == Started)
            && (p.Naming? ==> last.Some? ==> last.value.record.status != Started)
  {
    NodesStay(c, states[i], steps[i]);
  }

  lemma WayToStart(c: Config, s: State, step: Step, n: nat)
    requires Enabled(c, s, step) && n < |s.nodes| && Actor(step) == Some(n)
    ensures n < |Apply(c, s, step).nodes|
    ensures var p := Apply(c, s, step).nodes[n];
            && (p.Starting? ==> step.Name? && step.n == n && s.nodes[n].Naming?)
            && (p.Naming? ==> step == Judge(n) || ((step.Delete? || step.MarkFailed?) && step.n == n
                                                     && (s.nodes[n].Deleting? || s.nodes[n].MarkingFailed?)))
            && (p.Deleting? || p.MarkingFailed? ==> step == Judge(n))
  {
  }

  /** A node that is about to start has gone on in this attempt. */
  lemma StartWasJudged(c: Config, states: seq<State>, steps: seq<Step>, i: nat, n: nat) returns (judged: nat)
    requires IsRun(c, states, steps) && i <= |steps| && n < |states[i].nodes| && states[i].nodes[n].Starting?
    ensures judged < i && steps[judged] == Judge(n)
    ensures n < |states[judged + 1].nodes| && GoesOn(states[judged + 1].nodes[n])
    ensures forall k :: judged < k < i && Actor(steps[k]) == Some(n) ==>
              steps[k].Delete? || steps[k].MarkFailed? || steps[k].Name?
  {
    var named := LastStep(c, states, steps, i, n);
    WayToStart(c, states[named], steps[named], n);
    var j := LastStep(c, states, steps, named, n);
    WayToStart(c, states[j], steps[j], n);
    if steps[j].Judge? {
      judged := j;
    } else {
      judged := LastStep(c, states, steps, j, n);
      WayToStart(c, states[judged], steps[judged], n);
    }
  }

  // ---------------------------------------------------------------- what is written

  /** A record that has just been written, over another one or not. */
  predicate IsWritten(c: Config, s: State, id: JobId, s': State, status: Status) {
    var lifetime := if 10 * c.interval > 259_200_000 then 10 * c.interval else 259_200_000;
    && id in s'.table
    && s'.table[id].status == status
    && s'.table[id].createdAt == (if id in s.table then s.table[id].createdAt else s.now)
    && s'.table[id].updatedAt == s.now
    && s'.table[id].expiresAt == s.now + lifetime
  }

  predicate IsSame(s: State, id: JobId, s': State) {
    (id in s'.table <==> id in s.table) && (id in s.table ==> s'.table[id] == s.table[id])
  }

  /** The step writes or deletes the record of that name. */
  predicate Touches(s: State, step: Step, id: JobId) {
    match step
    case Start(n, reply) => n < |s.nodes| && s.nodes[n] == Starting(id) && reply.Applied()
    case Land(other, _) => other == id
    case MarkFailed(n, ok) => n < |s.nodes| && s.nodes[n] == MarkingFailed(id) && ok
    case Finish(n, ok) => n < |s.nodes| && s.nodes[n].Finishing? && s.nodes[n].id == id && ok
    case Delete(n, ok) => n < |s.nodes| && s.nodes[n] == Deleting(id) && ok
    case Purge(ids, ok, _) => id in ids && ok
    case _ => false
  }

  /** Starts and heartbeats write "started", a timed-out run becomes "failed", a run that ends writes
      how; every write refreshes the record and keeps its creation time, deletions delete, and nothing
      else changes a record. */
  lemma WritesAre(c: Config, s: State, step: Step, id: JobId)
    requires Enabled(c, s, step)
    ensures var s' := Apply(c, s, step);
            && (!Touches(s, step, id) ==> IsSame(s, id, s'))
            && (Touches(s, step, id) ==>
                  match step
                  case Delete(_, _) => id !in s'.table
                  case Purge(_, _, _) => id !in s'.table
                  case MarkFailed(_, _) => IsWritten(c, s, id, s', Status.Failed)
                  case Finish(n, _) => IsWritten(c, s, id, s', s.nodes[n].status)
                  case _ => IsWritten(c, s, id, s', Started))
  {
  }

  /** A run that comes back without an error leaves "done" in the log, and one with an error "failed",
      under the name and the creation time that it had; one that panics writes nothing more. */
  lemma OutcomeIsLogged(c: Config, states: seq<State>, steps: seq<Step>, i: nat, j: nat, n: nat, id: JobId)
    requires IsRun(c, states, steps) && i < j < |steps| && steps[i].Exit? && steps[i].n == n
    requires n < |states[i].nodes| && states[i].nodes[n] == Running(id)
    requires steps[j] == Finish(n, true)
    requires forall k :: i < k < j && Actor(steps[k]) == Some(n) ==> steps[k].Beat?
    ensures steps[i].exit != Panic
    ensures IsWritten(c, states[j], id, states[j + 1], if steps[i].exit == Ok then Done else Status.Failed)
  {
    NodesStay(c, states[i], steps[i]);
    StaysFinishing(c, states, steps, i + 1, j, n);
    WritesAre(c, states[j], steps[j], id);
  }

  lemma BeatLeavesNodes(c: Config, s: State, n: nat)
    requires Enabled(c, s, Beat(n))
    ensures Apply(c, s, Beat(n)).nodes == s.nodes
  {
  }

  lemma {:induction false} StaysFinishing(c: Config, states: seq<State>, steps: seq<Step>, i: nat, j: nat, n: nat)
    requires IsRun(c, states, steps) && i <= j <= |steps| && n < |states[i].nodes|
    requires forall k :: i <= k < j && Actor(steps[k]) == Some(n) ==> steps[k].Beat?
    ensures n < |states[j].nodes| && states[j].nodes[n] == states[i].nodes[n]
    decreases j - i
  {
    if i < j {
      StaysFinishing(c, states, steps, i, j - 1, n);
      if Actor(steps[j - 1]) == Some(n) {
        BeatLeavesNodes(c, states[j - 1], n);
      } else {
        OthersLeaveNode(c, states[j - 1], steps[j - 1], n);
      }
    }
  }

  /** Heartbeats are under way from when they are sent until the last of them has landed. */
  lemma HeartbeatsAre(c: Config, s: State, step: Step)
    requires Enabled(c, s, step)
    ensures Apply(c, s, step).beats
         == match step
            case Beat(n) => s.beats + {s.nodes[n].id}
            case Land(id, more) => if more then s.beats else s.beats - {id}
            case _ => s.beats
  {
  }

  /** A node enters the executor in one way only, by an answered release, after an answered write under
      the name of the run; and every such release does it. */
  lemma EntersAfterRelease(c: Config, states: seq<State>, steps: seq<Step>, i: nat, n: nat) returns (started: nat)
    requires IsRun(c, states, steps) && i < |steps| && n < |states[i + 1].nodes|
    requires states[i + 1].nodes[n].Running? && !(n < |states[i].nodes| && states[i].nodes[n].Running?)
    ensures steps[i] == Unlock(n, Answered) && states[i + 1].lock.None?
    ensures started < i && steps[started] == Start(n, Answered) && IsIdleBetween(steps, started + 1, i, n)
    ensures n < |states[started].nodes| && states[started].nodes[n] == Starting(states[i + 1].nodes[n].id)
  {
    NodesStay(c, states[i], steps[i]);
    if Actor(steps[i]) != Some(n) {
      OthersLeaveNode(c, states[i], steps[i], n);
    }
    assert steps[i] == Unlock(n, Answered);
    started := LastStep(c, states, steps, i, n);
  }

  lemma ReleaseEnters(c: Config, s: State, n: nat)
    requires Enabled(c, s, Unlock(n, Answered))
    ensures n < |Apply(c, s, Unlock(n, Answered)).nodes|
    ensures Apply(c, s, Unlock(n, Answered)).nodes[n] == Running(s.nodes[n].id)
  {
  }

  /** A heartbeat is under way only for a run that a node was in when it was sent. */
  lemma {:induction false} HeartbeatWasSent(c: Config, states: seq<State>, steps: seq<Step>, i: nat, id: JobId)
    returns (sent: nat)
    requires IsRun(c, states, steps) && i <= |steps| && id in states[i].beats
    ensures sent < i && steps[sent].Beat? && steps[sent].n < |states[sent].nodes|
    ensures var p := states[sent].nodes[steps[sent].n]; (p.Running? || p.Finishing?) && p.id == id
    decreases i
  {
    if id in states[i - 1].beats {
      sent := HeartbeatWasSent(c, states, steps, i - 1, id);
    } else {
      sent := i - 1;
    }
  }
}
