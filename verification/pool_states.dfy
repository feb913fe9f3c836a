/**
 What the state of an NNTP pool means: who writes it, whom it lets through, what a dial leaves
 behind, and that a loop whose dial has failed dials again.
 */
module PoolStates {
  import opened Wrappers
  import opened PoolReconnect

  // ---------------------------------------------------------------- whose step it is

  function LoopOf(step: Step): Option<nat> {
    match step
    case Stop(l) => Some(l)
    case Timer(l) => Some(l)
    case CheckClosed(l) => Some(l)
    case CheckState(l) => Some(l)
    case Enter(l) => Some(l)
    case MarkConnecting(l) => Some(l)
    case Dial(l, _) => Some(l)
    case MarkDialed(l) => Some(l)
    case BackOff(l) => Some(l)
    case Leave(l) => Some(l)
    case _ => None
  }

  lemma OthersLeaveLoop(delay: int, s: State, step: Step, l: nat)
    requires Enabled(s, step) && l < |s.loops| && LoopOf(step) != Some(l)
    ensures l < |Apply(delay, s, step).loops| && Apply(delay, s, step).loops[l] == s.loops[l]
  {
  }

  lemma LoopsStay(delay: int, s: State, step: Step)
    requires Enabled(s, step)
    ensures |s.loops| <= |Apply(delay, s, step).loops|
    ensures LoopOf(step).Some? ==> |Apply(delay, s, step).loops| == |s.loops|
  {
  }

  /** The loop takes no step from `i` until `j`. */
  predicate IsIdleBetween(steps: seq<Step>, i: nat, j: nat, l: nat)
    requires j <= |steps|
  {
    forall k :: i <= k < j ==> LoopOf(steps[k]) != Some(l)
  }

  lemma {:induction false} LoopStays(delay: int, states: seq<State>, steps: seq<Step>, i: nat, j: nat, l: nat)
    requires IsRun(delay, states, steps) && i <= j <= |steps|
    requires l < |states[i].loops| && IsIdleBetween(steps, i, j, l)
    ensures l < |states[j].loops| && states[j].loops[l] == states[i].loops[l]
    decreases j - i
  {
    if i < j {
      LoopStays(delay, states, steps, i, j - 1, l);
      OthersLeaveLoop(delay, states[j - 1], steps[j - 1], l);
    }
  }

  lemma NewLoopsWait(delay: int, s: State, step: Step, l: nat)
    requires Enabled(s, step) && |s.loops| <= l < |Apply(delay, s, step).loops|
    ensures Apply(delay, s, step).loops[l].at == Waiting
  {
  }

  lemma WasThere(delay: int, s: State, step: Step, l: nat)
    requires Enabled(s, step) && LoopOf(step) != Some(l)
    requires l < |Apply(delay, s, step).loops| && Apply(delay, s, step).loops[l].at != Waiting
    ensures l < |s.loops| && Apply(delay, s, step).loops[l] == s.loops[l]
  {
    if |s.loops| <= l {
      NewLoopsWait(delay, s, step, l);
    } else {
      OthersLeaveLoop(delay, s, step, l);
    }
  }

  /** What a step may do to a loop that is not waiting afterwards. */
  predicate MovesLoop(s: State, step: Step, s': State, l: nat) {
    && (LoopOf(step) == Some(l) ==> l < |s.loops| == |s'.loops|)
    && (LoopOf(step) != Some(l) && l < |s'.loops| && !s'.loops[l].at.Waiting? ==>
          l < |s.loops| && s'.loops[l] == s.loops[l])
  }

  lemma StepMovesLoop(delay: int, s: State, step: Step, l: nat)
    requires Enabled(s, step)
    ensures MovesLoop(s, step, Apply(delay, s, step), l)
  {
    if LoopOf(step) == Some(l) {
      LoopsStay(delay, s, step);
    } else if l < |Apply(delay, s, step).loops| && !Apply(delay, s, step).loops[l].at.Waiting? {
      WasThere(delay, s, step, l);
    }
  }

  lemma {:induction false} LastMove(states: seq<State>, steps: seq<Step>, i: nat, l: nat) returns (j: nat)
    requires i <= |steps| && |states| == |steps| + 1 && states[0].loops == []
    requires forall m :: 0 <= m < |steps| ==> MovesLoop(states[m], steps[m], states[m + 1], l)
    requires l < |states[i].loops| && !states[i].loops[l].at.Waiting?
    ensures j < i && LoopOf(steps[j]) == Some(l) && IsIdleBetween(steps, j + 1, i, l)
    ensures l < |states[j].loops| == |states[j + 1].loops| && states[j + 1].loops[l] == states[i].loops[l]
    decreases i
  {
    assert MovesLoop(states[i - 1], steps[i - 1], states[i - 1 + 1], l);
    if LoopOf(steps[i - 1]) == Some(l) {
      j := i - 1;
    } else {
      j := LastMove(states, steps, i - 1, l);
    }
  }

  /** The step that brought a loop where it is; nobody starts anywhere but waiting. */
  lemma {:induction false} LastLoopStep(delay: int, states: seq<State>, steps: seq<Step>, i: nat, l: nat)
    returns (j: nat)
    requires IsRun(delay, states, steps) && i <= |steps| && l < |states[i].loops| && !states[i].loops[l].at.Waiting?
    ensures j < i && LoopOf(steps[j]) == Some(l) && IsIdleBetween(steps, j + 1, i, l)
    ensures l < |states[j].loops| == |states[j + 1].loops| && states[j + 1].loops[l] == states[i].loops[l]
  {
    forall m | 0 <= m < |steps| ensures MovesLoop(states[m], steps[m], states[m + 1], l) {
      StepMovesLoop(delay, states[m], steps[m], l);
    }
    j := LastMove(states, steps, i, l);
  }

  // ---------------------------------------------------------------- who writes the state

  /** Only these steps write the state. */
  lemma WhoWrites(delay: int, s: State, step: Step)
    requires Enabled(s, step)
    ensures Apply(delay, s, step).state != s.state ==>
              step.SetState? || step.HandleFailure? || step.MarkOffline? || step.MarkConnecting? || step.MarkDialed?
    ensures step.SetState? ==> Apply(delay, s, step).state == step.state
    ensures step.HandleFailure? ==>
              Apply(delay, s, step).state == if s.acquirers[step.t] == Failing(true) then AuthFailed else s.state
    ensures step.MarkOffline? ==> Apply(delay, s, step).state == Offline
    ensures step.MarkConnecting? ==> Apply(delay, s, step).state == Connecting
    ensures step.MarkDialed? ==>
              Apply(delay, s, step).state == if s.loops[step.l].at == Dialed(true) then Online else Offline
  {
  }

  /** A dial leaves the pool online if it succeeded, and then the loop has done its work; and offline if
      it failed, and then the loop is still there and backs off. */
  lemma DialDecides(delay: int, states: seq<State>, steps: seq<Step>, i: nat, j: nat, l: nat, ok: bool)
    requires IsRun(delay, states, steps) && i < j < |steps|
    requires steps[i] == Dial(l, ok) && steps[j] == MarkDialed(l) && IsIdleBetween(steps, i + 1, j, l)
    ensures l < |states[j + 1].loops|
    ensures ok ==> states[j + 1].state == Online && states[j + 1].loops[l].at == Leaving
    ensures !ok ==> states[j + 1].state == Offline && states[j + 1].loops[l].at == BackingOff
  {
    LoopsStay(delay, states[i], steps[i]);
    LoopStays(delay, states, steps, i + 1, j, l);
    LoopsStay(delay, states[j], steps[j]);
  }

  /** The pool comes online only from outside or by a dial that has succeeded. */
  lemma OnlineByDial(delay: int, states: seq<State>, steps: seq<Step>, i: nat) returns (dialed: nat)
    requires IsRun(delay, states, steps) && i < |steps|
    requires states[i].state != Online && states[i + 1].state == Online && !steps[i].SetState?
    ensures steps[i].MarkDialed?
    ensures dialed < i && steps[dialed] == Dial(steps[i].l, true) && IsIdleBetween(steps, dialed + 1, i, steps[i].l)
  {
    WhoWrites(delay, states[i], steps[i]);
    dialed := LastLoopStep(delay, states, steps, i, steps[i].l);
    assert steps[dialed].Dial?;
  }

  /** An acquirer is let through if and only if the pool is online or connecting. */
  lemma LetThroughIff(delay: int, states: seq<State>, steps: seq<Step>, i: nat, t: nat)
    requires IsRun(delay, states, steps) && i < |steps| && steps[i] == Acquire(t)
    ensures t < |states[i + 1].acquirers|
    ensures states[i + 1].acquirers[t] == Acquiring <==> states[i].state == Online || states[i].state == Connecting
  {
  }

  /** What a failure leads to, step by step: wrong credentials mark the pool and start nothing; any
      other failure of a pool that lets acquirers through marks it as offline, and starts a loop unless
      there is one, which first waits for the delay. */
  lemma FailureLeadsTo(delay: int, s: State, step: Step)
    requires Enabled(s, step)
    ensures step.HandleFailure? && s.acquirers[step.t] == Failing(true) ==>
              Apply(delay, s, step) == s.(state := AuthFailed, acquirers := s.acquirers[step.t := Idle])
    ensures step.HandleFailure? && s.acquirers[step.t] == Failing(false) ==>
              Apply(delay, s, step).acquirers[step.t]
              == if s.state == Online || s.state == Connecting then Observed(s.state) else Idle
    ensures step.MarkOffline? ==> Apply(delay, s, step).acquirers[step.t] == Scheduling
    ensures step.TrySchedule? ==>
              && Apply(delay, s, step).acquirers[step.t] == (if s.scheduled then Idle else Spawning)
              && Apply(delay, s, step).scheduled
    ensures step.Spawn? ==> Apply(delay, s, step).loops == s.loops + [Loop(Waiting, delay, 0)]
  {
  }

  // ---------------------------------------------------------------- the loop

  lemma WayToDial(delay: int, s: State, step: Step, l: nat)
    requires Enabled(s, step) && l < |s.loops| && LoopOf(step) == Some(l)
    ensures var s' := Apply(delay, s, step);
            && l < |s'.loops|
            && (s'.loops[l].at == Dialing ==> step == MarkConnecting(l) && s.loops[l].at == Marking)
            && (s'.loops[l].at == Marking ==>
                  step == Enter(l) && s.loops[l].at == Entering && s.state != Disabled && s.state != AuthFailed)
            && (s'.loops[l].at == Entering ==> step == CheckState(l) && s.state == Offline)
  {
  }

  /** A loop dials only after it has found the pool offline, and then not disabled nor with failed
      credentials, and has marked it as connecting. */
  lemma DialIsOrderly(delay: int, states: seq<State>, steps: seq<Step>, i: nat, l: nat, ok: bool)
    returns (checked: nat, entered: nat, marked: nat)
    requires IsRun(delay, states, steps) && i < |steps| && steps[i] == Dial(l, ok)
    ensures checked < entered < marked < i
    ensures steps[checked] == CheckState(l) && states[checked].state == Offline
    ensures steps[entered] == Enter(l) && states[entered].state != Disabled && states[entered].state != AuthFailed
    ensures steps[marked] == MarkConnecting(l) && states[marked + 1].state == Connecting
    ensures IsIdleBetween(steps, checked + 1, entered, l) && IsIdleBetween(steps, entered + 1, marked, l)
    ensures IsIdleBetween(steps, marked + 1, i, l)
  {
    marked := LastLoopStep(delay, states, steps, i, l);
    WayToDial(delay, states[marked], steps[marked], l);
    WhoWrites(delay, states[marked], steps[marked]);
    entered := LastLoopStep(delay, states, steps, marked, l);
    WayToDial(delay, states[entered], steps[entered], l);
    checked := LastLoopStep(delay, states, steps, entered, l);
    WayToDial(delay, states[checked], steps[checked], l);
  }

  /** A loop leaves for four reasons only: the channel has been closed, or it has found the pool closed
      or not offline after a wait, or its dial has succeeded. */
  lemma LeavesFor(delay: int, states: seq<State>, steps: seq<Step>, i: nat, l: nat) returns (why: nat)
    requires IsRun(delay, states, steps) && i < |steps| && steps[i] == Leave(l)
    ensures why < i && IsIdleBetween(steps, why + 1, i, l)
    ensures || (steps[why] == Stop(l) && states[why].channelClosings > 0)
            || (steps[why] == CheckClosed(l) && states[why].closed)
            || (steps[why] == CheckState(l) && states[why].state != Offline)
            || (steps[why] == MarkDialed(l) && states[why + 1].state == Online)
  {
    why := LastLoopStep(delay, states, steps, i, l);
  }

  // ---------------------------------------------------------------- closing

  function LateEntries(states: seq<State>, steps: seq<Step>, i: nat): nat
    requires i <= |steps| <= |states|
  {
    if i == 0 then 0
    else LateEntries(states, steps, i - 1) + if steps[i - 1].Enter? && states[i - 1].closed then 1 else 0
  }

  function ChannelClosings(steps: seq<Step>, i: nat): nat
    requires i <= |steps|
  {
    if i == 0 then 0 else ChannelClosings(steps, i - 1) + if steps[i - 1].CloseChannel? then 1 else 0
  }

  /** Over every run: once the pool is closed, `doReconnect` is entered at most once more, and the channel
      is closed at most once. */
  lemma {:induction false} ClosingCounts(delay: int, states: seq<State>, steps: seq<Step>, i: nat)
    requires delay > 0 && IsRun(delay, states, steps) && i <= |steps|
    ensures LateEntries(states, steps, i) <= 1 && ChannelClosings(steps, i) <= 1
  {
    CountsAre(delay, states, steps, i);
    CloseStopsReconnecting(delay, states, steps, i);
  }

  lemma {:induction false} CountsAre(delay: int, states: seq<State>, steps: seq<Step>, i: nat)
    requires IsRun(delay, states, steps) && i <= |steps|
    ensures LateEntries(states, steps, i) == states[i].lateEntries
    ensures ChannelClosings(steps, i) == states[i].channelClosings
  {
    if i > 0 {
      CountsAre(delay, states, steps, i - 1);
      CountsStep(delay, states[i - 1], steps[i - 1]);
    }
  }

  lemma CountsStep(delay: int, s: State, step: Step)
    requires Enabled(s, step)
    ensures Apply(delay, s, step).lateEntries == s.lateEntries + if step.Enter? && s.closed then 1 else 0
    ensures Apply(delay, s, step).channelClosings == s.channelClosings + if step.CloseChannel? then 1 else 0
  {
  }

  /** The pool of connections is closed only by a caller that has seen every loop gone. */
  lemma ClosesAfterLoops(delay: int, s: State, step: Step)
    requires Enabled(s, step)
    ensures step.Await? ==> forall l :: 0 <= l < |s.loops| ==> s.loops[l].at == Gone
    ensures forall k :: 0 <= k < |Apply(delay, s, step).closers| && k < |s.closers| ==>
              (Apply(delay, s, step).closers[k] == ClosingPool && s.closers[k] != ClosingPool ==> step == Await(k))
    ensures step.ClosePool? ==> s.closers[step.k] == ClosingPool
  {
  }

  // ---------------------------------------------------------------- retrying

  /** Where a loop is after some steps of its own, once a dial of it has failed. */
  function Place(own: nat): Point
    requires own <= 5
  {
    match own
    case 0 => BackingOff
    case 1 => Waiting
    case 2 => CheckingClosed
    case 3 => CheckingState
    case 4 => Entering
    case 5 => Marking
  }

  function OwnSteps(steps: seq<Step>, i: nat, j: nat, l: nat): nat
    requires i <= j <= |steps|
    decreases j - i
  {
    if i == j then 0 else OwnSteps(steps, i, j - 1, l) + if LoopOf(steps[j - 1]) == Some(l) then 1 else 0
  }

  /** Nobody closes the pool, and nobody but acquirers that fail without an authentication error, and
      loops, writes the state. */
  predicate IsQuiet(s: State, step: Step) {
    && !step.Close? && !step.SetState?
    && !(step.HandleFailure? && step.t < |s.acquirers| && s.acquirers[step.t] == Failing(true))
  }

  predicate AreQuiet(states: seq<State>, steps: seq<Step>, i: nat, j: nat)
    requires j <= |steps| <= |states|
  {
    forall m :: i <= m < j ==> IsQuiet(states[m], steps[m])
  }

  predicate Retries(s: State, l: nat, own: nat) {
    && own <= 5
    && !s.closed && s.channelClosings == 0 && s.state == Offline
    && LoopAt(s, l, Place(own))
    && forall l' :: 0 <= l' < |s.loops| && s.loops[l'].Live() ==> l' == l
  }

  lemma OnlyOneLoop(s: State, l: nat)
    requires FlagInv(s) && LoopHolds(s, l)
    ensures forall l' :: 0 <= l' < |s.loops| && s.loops[l'].Live() ==> l' == l
  {
    assert forall l' :: 0 <= l' < |s.loops| && s.loops[l'].Live() ==> LoopHolds(s, l');
  }

  lemma OneStepOn(delay: int, s: State, step: Step, l: nat, own: nat)
    requires Enabled(s, step) && Retries(s, l, own) && IsQuiet(s, step) && own < 5
    requires FlagInv(s) && FlagInv(Apply(delay, s, step)) && CloseInv(Apply(delay, s, step))
    ensures Retries(Apply(delay, s, step), l, if LoopOf(step) == Some(l) then own + 1 else own)
    ensures own == 4 && LoopOf(step) == Some(l) ==> step == Enter(l)
  {
    var s' := Apply(delay, s, step);
    assert LoopHolds(s, l);
    if LoopOf(step) == Some(l) {
      LoopsStay(delay, s, step);
    } else {
      OthersLeaveLoop(delay, s, step, l);
    }
    OnlyOneLoop(s', l);
  }

  lemma BacksOff(delay: int, states: seq<State>, steps: seq<Step>, i: nat, j: nat, l: nat)
    requires delay > 0 && IsRun(delay, states, steps) && i < j < |steps|
    requires steps[i] == Dial(l, false) && steps[j] == MarkDialed(l) && IsIdleBetween(steps, i + 1, j, l)
    requires !states[j].closed
    ensures Retries(states[j + 1], l, 0)
  {
    DialDecides(delay, states, steps, i, j, l, false);
    RunKeepsInv(delay, states, steps, j + 1);
    OnlyOneLoop(states[j + 1], l);
    MarkingKeepsOpen(delay, states[j], steps[j]);
  }

  lemma MarkingKeepsOpen(delay: int, s: State, step: Step)
    requires Enabled(s, step) && step.MarkDialed?
    ensures Apply(delay, s, step).closed == s.closed
  {
  }

  /** A step of the run takes the loop to its next place, or leaves it where it is. */
  predicate GoesOnAt(s: State, step: Step, s': State, l: nat) {
    forall own: nat :: own < 5 && Retries(s, l, own) ==>
      && Retries(s', l, if LoopOf(step) == Some(l) then own + 1 else own)
      && (own == 4 && LoopOf(step) == Some(l) ==> step == Enter(l))
  }

  lemma RunGoesOn(delay: int, states: seq<State>, steps: seq<Step>, m: nat, l: nat)
    requires delay > 0 && IsRun(delay, states, steps) && m < |steps| && IsQuiet(states[m], steps[m])
    ensures GoesOnAt(states[m], steps[m], states[m + 1], l)
  {
    RunKeepsInv(delay, states, steps, m + 1);
    RunKeepsInv(delay, states, steps, m);
    forall own: nat | own < 5 && Retries(states[m], l, own)
      ensures Retries(states[m + 1], l, if LoopOf(steps[m]) == Some(l) then own + 1 else own)
      ensures own == 4 && LoopOf(steps[m]) == Some(l) ==> steps[m] == Enter(l)
    {
      OneStepOn(delay, states[m], steps[m], l, own);
    }
  }

  lemma {:induction false} RetriesOn(states: seq<State>, steps: seq<Step>, b: nat, k: nat, l: nat)
    requires b <= k <= |steps| && |states| == |steps| + 1
    requires Retries(states[b], l, 0)
    requires forall m :: b <= m < k ==> GoesOnAt(states[m], steps[m], states[m + 1], l)
    requires OwnSteps(steps, b, k, l) <= 5
    requires OwnSteps(steps, b, k, l) == 5 ==> LoopOf(steps[k - 1]) == Some(l)
    ensures Retries(states[k], l, OwnSteps(steps, b, k, l))
    ensures OwnSteps(steps, b, k, l) == 5 ==> steps[k - 1] == Enter(l)
    decreases k
  {
    if b < k {
      RetriesOn(states, steps, b, k - 1, l);
      assert GoesOnAt(states[k - 1], steps[k - 1], states[k - 1 + 1], l);
    }
  }

  /** Once a dial has failed, the loop backs off, waits, checks twice and enters `doReconnect` again, in
      its next five steps, however they are interleaved with those of others. */
  lemma FailedDialRetries(delay: int, states: seq<State>, steps: seq<Step>, i: nat, j: nat, k: nat, l: nat)
    requires delay > 0 && IsRun(delay, states, steps) && i < j < k <= |steps|
    requires steps[i] == Dial(l, false) && steps[j] == MarkDialed(l) && IsIdleBetween(steps, i + 1, j, l)
    requires !states[j].closed && AreQuiet(states, steps, j + 1, k)
    requires OwnSteps(steps, j + 1, k, l) <= 5
    requires OwnSteps(steps, j + 1, k, l) == 5 ==> LoopOf(steps[k - 1]) == Some(l)
    ensures Retries(states[k], l, OwnSteps(steps, j + 1, k, l))
    ensures OwnSteps(steps, j + 1, k, l) == 5 ==> steps[k - 1] == Enter(l)
  {
    BacksOff(delay, states, steps, i, j, l);
    forall m | j + 1 <= m < k ensures GoesOnAt(states[m], steps[m], states[m + 1], l) {
      RunGoesOn(delay, states, steps, m, l);
    }
    RetriesOn(states, steps, j + 1, k, l);
  }
}
