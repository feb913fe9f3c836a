/**
 Triggering a job: any number of callers queue a payload and then try to put a token into a
 channel with one slot, dropping it when the slot is full; one consumer takes the tokens and
 executes the job once for each. Queueing and sending are two steps, so other callers and the
 consumer may come in between.
 */
module JobTrigger {

  type Caller = nat

  /** `time` counts steps. A caller's entry is the time at which its payload was queued; the
      consumer's `received` is the time at which it last took a token, and so began to execute. */
  datatype State = State(
    time: nat,
    slotFull: bool,
    queued: map<Caller, nat>,
    returned: map<Caller, nat>,
    executing: bool,
    received: int)

  const INITIAL := State(0, false, map[], map[], false, -1)

  datatype Step = Queue(caller: Caller) | Send(caller: Caller) | Receive | Executed

  predicate Enabled(s: State, step: Step) {
    match step
    case Queue(c) => c !in s.queued && c !in s.returned
    case Send(c) => c in s.queued
    case Receive => s.slotFull && !s.executing
    case Executed => s.executing
  }

  function Apply(s: State, step: Step): State
    requires Enabled(s, step)
  {
    var s := s.(time := s.time + 1);
    match step
    case Queue(c) => s.(queued := s.queued[c := s.time])
    case Send(c) => s.(slotFull := true, queued := s.queued - {c}, returned := s.returned[c := s.queued[c]])
    case Receive => s.(slotFull := false, executing := true, received := s.time)
    case Executed => s.(executing := false)
  }

  predicate IsRun(states: seq<State>, steps: seq<Step>) {
    && |states| == |steps| + 1
    && states[0] == INITIAL
    && forall i :: 0 <= i < |steps| ==> Enabled(states[i], steps[i]) && states[i + 1] == Apply(states[i], steps[i])
  }

  /** A payload whose `Trigger` has returned is in the queue of an execution that is still to
      come, or of one that began after it was queued. */
  predicate NotLost(s: State, c: Caller)
    requires c in s.returned
  {
    s.slotFull || s.returned[c] < s.received
  }

  predicate Inv(s: State) {
    && s.received <= s.time
    && (forall c :: c in s.queued ==> s.queued[c] <= s.time)
    && (forall c :: c in s.returned ==> s.returned[c] <= s.time && NotLost(s, c))
  }

  /** How many steps of a run put a token into the slot, or take one out. */
  function Sends(steps: seq<Step>): nat {
    if steps == [] then 0 else Sends(steps[..|steps| - 1]) + if steps[|steps| - 1].Send? then 1 else 0
  }

  function Receives(steps: seq<Step>): nat {
    if steps == [] then 0 else Receives(steps[..|steps| - 1]) + if steps[|steps| - 1].Receive? then 1 else 0
  }

  /** Nothing is executed that was not triggered: there are no more executions than tokens, one of which
      is still in the slot if that is full. */
  lemma {:induction false} ExecutionsWereTriggered(states: seq<State>, steps: seq<Step>, i: nat)
    requires IsRun(states, steps) && i < |states|
    ensures Receives(steps[..i]) + (if states[i].slotFull then 1 else 0) <= Sends(steps[..i])
  {
    if i > 0 {
      ExecutionsWereTriggered(states, steps, i - 1);
      assert steps[..i][..i - 1] == steps[..i - 1];
    }
  }

  /** Times are positions in the run. */
  lemma {:induction false} TimeIs(states: seq<State>, steps: seq<Step>, i: nat)
    requires IsRun(states, steps) && i < |states|
    ensures states[i].time == i
    ensures states[i].received == -1 || (1 <= states[i].received <= i && steps[states[i].received - 1] == Receive)
  {
    if i > 0 {
      TimeIs(states, steps, i - 1);
    }
  }

  /** No trigger is lost, however many sends were dropped. */
  lemma {:induction false} NoTriggerIsLost(states: seq<State>, steps: seq<Step>, i: nat)
    requires IsRun(states, steps) && i < |states|
    ensures forall c :: c in states[i].returned ==> NotLost(states[i], c)
    ensures Inv(states[i])
  {
    if i > 0 {
      NoTriggerIsLost(states, steps, i - 1);
      assert Inv(Apply(states[i - 1], steps[i - 1]));
    }
  }

  /** A trigger that has queued its payload and then sent is served: a token waits, or an execution has
      begun since the payload was queued. */
  lemma {:induction false} TriggerIsServed(states: seq<State>, steps: seq<Step>, i: nat, q: nat, sent: nat, c: Caller)
    requires IsRun(states, steps) && q < sent < i <= |steps| && steps[q] == Queue(c) && steps[sent] == Send(c)
    ensures states[i].slotFull || exists r :: q < r < i && steps[r] == Receive
  {
    NoTriggerIsLost(states, steps, i);
    WasQueued(states, steps, i, q, sent, c);
    TimeIs(states, steps, i);
    if !states[i].slotFull {
      assert steps[states[i].received - 1] == Receive;
    }
  }

  /** A caller queues and sends once. */
  lemma {:induction false} WasQueued(states: seq<State>, steps: seq<Step>, i: nat, q: nat, sent: nat, c: Caller)
    requires IsRun(states, steps) && q < sent < i <= |steps| && steps[q] == Queue(c) && steps[sent] == Send(c)
    ensures c in states[i].returned && c !in states[i].queued && states[i].returned[c] == q + 1
    decreases i
  {
    if i == sent + 1 {
      StaysQueued(states, steps, sent, q, c);
    } else {
      WasQueued(states, steps, i - 1, q, sent, c);
    }
  }

  lemma {:induction false} StaysQueued(states: seq<State>, steps: seq<Step>, i: nat, q: nat, c: Caller)
    requires IsRun(states, steps) && q < i <= |steps| && steps[q] == Queue(c)
    ensures (c in states[i].queued && states[i].queued[c] == q + 1)
         || (c in states[i].returned && c !in states[i].queued && states[i].returned[c] == q + 1)
    decreases i
  {
    TimeIs(states, steps, q);
    if i > q + 1 {
      StaysQueued(states, steps, i - 1, q, c);
    }
  }
}
