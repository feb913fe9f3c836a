/**
 Reconnection of an NNTP pool: any number of acquirers that fail, reconnect loops in the
 background, any number of callers of `Close`, and others who set the state, interleaved at the
 grain of one atomic read or write. Durations are in units of the clock.
 */
module PoolReconnect {
  import opened Powers

  datatype PoolState = AuthFailed | Connecting | Offline | Online | Disabled

  /** An acquirer: trying, and then inside `handleConnectionFailure`. */
  datatype Acquirer =
    | Idle
    | Acquiring
    | Failing(auth: bool)
    | Observed(state: PoolState)
    | Scheduling
    | Spawning

  /** Where a reconnect loop is; `Entering` is the first step of `doReconnect`, `Dialed` its last. */
  datatype Point =
    | Waiting
    | CheckingClosed
    | CheckingState
    | Entering
    | Marking
    | Dialing
    | Dialed(ok: bool)
    | BackingOff
    | Leaving
    | Gone

  datatype Loop = Loop(at: Point, interval: int, attempt: nat) {
    predicate Live() { !at.Gone? }
  }

  /** A caller of `Close`. */
  datatype Closer = NotClosing | ClosingChannel | AwaitingLoops | ClosingPool | Returned

  /** `channelClosings` counts `close(closeCh)`, `lateEntries` the calls of `doReconnect` entered
      after `closed` was set. */
  datatype State = State(
    state: PoolState,
    closed: bool,
    scheduled: bool,
    acquirers: seq<Acquirer>,
    loops: seq<Loop>,
    closers: seq<Closer>,
    channelClosings: nat,
    lateEntries: nat)

  predicate Init(s: State) {
    && s.state == Online && !s.closed && !s.scheduled && s.loops == []
    && (forall t :: 0 <= t < |s.acquirers| ==> s.acquirers[t] == Idle)
    && (forall k :: 0 <= k < |s.closers| ==> s.closers[k] == NotClosing)
    && s.channelClosings == 0 && s.lateEntries == 0
  }

  datatype Step =
    | Acquire(t: nat)
    | Finish(t: nat)
    | Fail(t: nat, auth: bool)
    | HandleFailure(t: nat)
    | MarkOffline(t: nat)
    | TrySchedule(t: nat)
    | Spawn(t: nat)
    | Stop(l: nat)
    | Timer(l: nat)
    | CheckClosed(l: nat)
    | CheckState(l: nat)
    | Enter(l: nat)
    | MarkConnecting(l: nat)
    | Dial(l: nat, ok: bool)
    | MarkDialed(l: nat)
    | BackOff(l: nat)
    | Leave(l: nat)
    | Close(k: nat)
    | CloseChannel(k: nat)
    | Await(k: nat)
    | ClosePool(k: nat)
    | SetState(state: PoolState)

  predicate Accepts(state: PoolState) { state == Online || state == Connecting }

  predicate LoopAt(s: State, l: nat, p: Point) {
    l < |s.loops| && s.loops[l].at == p
  }

  predicate Enabled(s: State, step: Step) {
    match step
    case Acquire(t) => t < |s.acquirers| && (s.acquirers[t].Idle? || s.acquirers[t].Acquiring?)
    case Finish(t) => t < |s.acquirers| && s.acquirers[t].Acquiring?
    case Fail(t, _) => t < |s.acquirers| && s.acquirers[t].Acquiring?
    case HandleFailure(t) => t < |s.acquirers| && s.acquirers[t].Failing?
    case MarkOffline(t) => t < |s.acquirers| && s.acquirers[t].Observed?
    case TrySchedule(t) => t < |s.acquirers| && s.acquirers[t].Scheduling?
    case Spawn(t) => t < |s.acquirers| && s.acquirers[t].Spawning?
    case Stop(l) => LoopAt(s, l, Waiting) && s.channelClosings > 0
    case Timer(l) => LoopAt(s, l, Waiting)
    case CheckClosed(l) => LoopAt(s, l, CheckingClosed)
    case CheckState(l) => LoopAt(s, l, CheckingState)
    case Enter(l) => LoopAt(s, l, Entering)
    case MarkConnecting(l) => LoopAt(s, l, Marking)
    case Dial(l, _) => LoopAt(s, l, Dialing)
    case MarkDialed(l) => l < |s.loops| && s.loops[l].at.Dialed?
    case BackOff(l) => LoopAt(s, l, BackingOff)
    case Leave(l) => LoopAt(s, l, Leaving)
    case Close(k) => k < |s.closers| && s.closers[k].NotClosing?
    case CloseChannel(k) => k < |s.closers| && s.closers[k].ClosingChannel?
    case Await(k) =>
      && k < |s.closers| && s.closers[k].AwaitingLoops?
      && forall l :: 0 <= l < |s.loops| ==> !s.loops[l].Live()
    case ClosePool(k) => k < |s.closers| && s.closers[k].ClosingPool?
    case SetState(_) => true
  }

  function To(s: State, t: nat, a: Acquirer): State
    requires t < |s.acquirers|
  {
    s.(acquirers := s.acquirers[t := a])
  }

  function Go(s: State, l: nat, p: Point): State
    requires l < |s.loops|
  {
    s.(loops := s.loops[l := s.loops[l].(at := p)])
  }

  function Min(a: int, b: int): int { if a < b then a else b }

  /** `delay` is the configured reconnect delay. */
  function Apply(delay: int, s: State, step: Step): State
    requires Enabled(s, step)
  {
    match step
    case Acquire(t) => To(s, t, if Accepts(s.state) then Acquiring else Idle)
    case Finish(t) => To(s, t, Idle)
    case Fail(t, auth) => To(s, t, Failing(auth))
    case HandleFailure(t) =>
      if s.acquirers[t].auth then To(s, t, Idle).(state := AuthFailed)
      else To(s, t, if Accepts(s.state) then Observed(s.state) else Idle)
    case MarkOffline(t) => To(s, t, Scheduling).(state := Offline)
    case TrySchedule(t) => if s.scheduled then To(s, t, Idle) else To(s, t, Spawning).(scheduled := true)
    case Spawn(t) => To(s, t, Idle).(loops := s.loops + [Loop(Waiting, delay, 0)])
    case Stop(l) => Go(s, l, Leaving)
    case Timer(l) => Go(s, l, CheckingClosed)
    case CheckClosed(l) => Go(s, l, if s.closed then Leaving else CheckingState)
    case CheckState(l) =>
      if s.state != Offline then Go(s, l, Leaving)
      else s.(loops := s.loops[l := s.loops[l].(at := Entering, attempt := s.loops[l].attempt + 1)])
    case Enter(l) =>
      Go(s, l, if s.state == Disabled || s.state == AuthFailed then BackingOff else Marking)
      .(lateEntries := if s.closed then s.lateEntries + 1 else s.lateEntries)
    case MarkConnecting(l) => Go(s, l, Dialing).(state := Connecting)
    case Dial(l, ok) => Go(s, l, Dialed(ok))
    case MarkDialed(l) =>
      if s.loops[l].at.ok then Go(s, l, Leaving).(state := Online) else Go(s, l, BackingOff).(state := Offline)
    case BackOff(l) =>
      s.(loops := s.loops[l := s.loops[l].(at := Waiting, interval := Min(s.loops[l].interval * 2, 16 * delay))])
    case Leave(l) => Go(s, l, Gone).(scheduled := false)
    case Close(k) =>
      if s.closed then s.(closers := s.closers[k := Returned])
      else s.(closers := s.closers[k := ClosingChannel], closed := true)
    case CloseChannel(k) => s.(closers := s.closers[k := AwaitingLoops], channelClosings := s.channelClosings + 1)
    case Await(k) => s.(closers := s.closers[k := ClosingPool])
    case ClosePool(k) => s.(closers := s.closers[k := Returned])
    case SetState(state) => s.(state := state)
  }

  predicate IsRun(delay: int, states: seq<State>, steps: seq<Step>) {
    && |states| == |steps| + 1
    && Init(states[0])
    && forall i :: 0 <= i < |steps| ==>
         Enabled(states[i], steps[i]) && states[i + 1] == Apply(delay, states[i], steps[i])
  }

  // ---------------------------------------------------------------- who holds the flag

  predicate SpawnerHolds(s: State, t: int) {
    0 <= t < |s.acquirers| && s.acquirers[t].Spawning?
  }

  predicate LoopHolds(s: State, l: int) {
    0 <= l < |s.loops| && s.loops[l].Live()
  }

  /** The flag is set exactly while somebody holds it, and nobody holds it beside another: an
      acquirer about to start a loop, or the loop until its very last write. */
  ghost predicate FlagInv(s: State) {
    && (forall t, t' :: SpawnerHolds(s, t) && SpawnerHolds(s, t') ==> t == t')
    && (forall l, l' :: LoopHolds(s, l) && LoopHolds(s, l') ==> l == l')
    && (forall t, l :: !(SpawnerHolds(s, t) && LoopHolds(s, l)))
    && (s.scheduled <==> ((exists t :: SpawnerHolds(s, t)) || (exists l :: LoopHolds(s, l))))
  }

  // ---------------------------------------------------------------- closing

  predicate Closes(s: State, k: int) {
    0 <= k < |s.closers| && (s.closers[k].ClosingChannel? || s.closers[k].AwaitingLoops? || s.closers[k].ClosingPool?)
  }

  /** Only one caller of `Close` gets past the swap, and so the channel is closed once. */
  ghost predicate CloseInv(s: State) {
    && (forall k, k' :: Closes(s, k) && Closes(s, k') ==> k == k')
    && ((exists k :: Closes(s, k)) ==> s.closed)
    && (s.channelClosings > 0 ==> s.closed)
    && s.channelClosings <= 1
    && (forall k :: Closes(s, k) && s.closers[k].ClosingChannel? ==> s.channelClosings == 0)
  }

  /** A loop that has seen the pool open is on its way into `doReconnect`. */
  predicate IsAboutToEnter(loop: Loop) {
    loop.at.CheckingState? || loop.at.Entering?
  }

  /** Such a loop may still get there once the pool is closed; nobody else. */
  predicate LateInv(s: State) {
    && (!s.closed ==> s.lateEntries == 0)
    && s.lateEntries <= 1
    && (s.lateEntries == 1 ==> forall l :: 0 <= l < |s.loops| ==> !IsAboutToEnter(s.loops[l]))
  }

  // ---------------------------------------------------------------- backoff

  /** The wait after `n` attempts, in multiples of the delay. */
  function Backoff(n: nat): (b: nat)
    ensures 1 <= b <= 16
  {
    Min(Pow2(n), 16)
  }

  lemma BackoffDoubles(n: nat)
    ensures Backoff(n + 1) == Min(2 * Backoff(n), 16)
  {
  }

  predicate IntervalInv(delay: int, loop: Loop) {
    loop.at.Leaving? || loop.at.Gone? || (Waits(loop) >= 0 && loop.interval == Backoff(Waits(loop)) * delay)
  }

  /** How many waits are over whose attempt has failed. */
  function Waits(loop: Loop): int {
    if loop.at.Waiting? || loop.at.CheckingClosed? || loop.at.CheckingState? then loop.attempt else loop.attempt - 1
  }

  ghost predicate Inv(delay: int, s: State) {
    && FlagInv(s) && CloseInv(s) && LateInv(s)
    && forall l :: 0 <= l < |s.loops| ==> IntervalInv(delay, s.loops[l])
  }

  lemma SameHolders(s: State, s': State)
    requires FlagInv(s) && s'.scheduled == s.scheduled
    requires forall t :: SpawnerHolds(s', t) <==> SpawnerHolds(s, t)
    requires forall l :: LoopHolds(s', l) <==> LoopHolds(s, l)
    ensures FlagInv(s')
  {
  }

  lemma TryScheduleKeepsFlag(delay: int, s: State, t: nat)
    requires FlagInv(s) && Enabled(s, TrySchedule(t)) && !s.scheduled
    ensures FlagInv(Apply(delay, s, TrySchedule(t)))
  {
    var s' := Apply(delay, s, TrySchedule(t));
    assert SpawnerHolds(s', t);
    assert forall t' :: SpawnerHolds(s', t') ==> t' == t || SpawnerHolds(s, t');
    assert forall l :: LoopHolds(s', l) ==> LoopHolds(s, l);
  }

  lemma SpawnKeepsFlag(delay: int, s: State, t: nat)
    requires FlagInv(s) && Enabled(s, Spawn(t))
    ensures FlagInv(Apply(delay, s, Spawn(t)))
  {
    var s' := Apply(delay, s, Spawn(t));
    assert SpawnerHolds(s, t);
    assert LoopHolds(s', |s.loops|);
    assert forall t' :: SpawnerHolds(s', t') ==> SpawnerHolds(s, t') && t' != t;
    assert forall l :: LoopHolds(s', l) ==> l == |s.loops| || LoopHolds(s, l);
  }

  lemma LeaveKeepsFlag(delay: int, s: State, l: nat)
    requires FlagInv(s) && Enabled(s, Leave(l))
    ensures FlagInv(Apply(delay, s, Leave(l)))
  {
    var s' := Apply(delay, s, Leave(l));
    assert LoopHolds(s, l);
    assert forall t :: SpawnerHolds(s', t) ==> SpawnerHolds(s, t);
    assert forall l' :: LoopHolds(s', l') ==> LoopHolds(s, l') && l' != l;
  }

  /** The flag changes hands in three steps only. */
  lemma FlagKeeps(delay: int, s: State, step: Step)
    requires FlagInv(s) && Enabled(s, step)
    ensures FlagInv(Apply(delay, s, step))
  {
    if step.TrySchedule? && !s.scheduled {
      TryScheduleKeepsFlag(delay, s, step.t);
    } else if step.Spawn? {
      SpawnKeepsFlag(delay, s, step.t);
    } else if step.Leave? {
      LeaveKeepsFlag(delay, s, step.l);
    } else {
      OtherStepKeepsHolders(delay, s, step);
      SameFlagSameHolders(s, Apply(delay, s, step));
      SameHolders(s, Apply(delay, s, step));
    }
  }

  predicate SameFlag(s: State, s': State) {
    && s'.scheduled == s.scheduled
    && |s'.acquirers| == |s.acquirers| && |s'.loops| == |s.loops|
    && (forall t :: 0 <= t < |s.acquirers| ==> s'.acquirers[t].Spawning? == s.acquirers[t].Spawning?)
    && (forall l :: 0 <= l < |s.loops| ==> s'.loops[l].Live() == s.loops[l].Live())
  }

  lemma SameFlagSameHolders(s: State, s': State)
    requires SameFlag(s, s')
    ensures s'.scheduled == s.scheduled
    ensures forall t :: SpawnerHolds(s', t) <==> SpawnerHolds(s, t)
    ensures forall l :: LoopHolds(s', l) <==> LoopHolds(s, l)
  {
  }

  predicate IsLoopStep(step: Step) {
    step.Stop? || step.Timer? || step.CheckClosed? || step.CheckState? || step.Enter? || step.MarkConnecting?
    || step.Dial? || step.MarkDialed? || step.BackOff?
  }

  predicate IsAcquirerStep(step: Step) {
    step.Acquire? || step.Finish? || step.Fail? || step.HandleFailure? || step.MarkOffline? || step.TrySchedule?
  }

  lemma GoKeepsFlag(s: State, l: nat, loop: Loop, s': State)
    requires l < |s.loops| && s.loops[l].Live() && loop.Live()
    requires s' == s.(loops := s.loops[l := loop], state := s'.state, lateEntries := s'.lateEntries)
    ensures SameFlag(s, s')
  {
  }

  lemma LoopStepKeepsHolders(delay: int, s: State, step: Step)
    requires Enabled(s, step) && IsLoopStep(step)
    ensures SameFlag(s, Apply(delay, s, step))
  {
    var s' := Apply(delay, s, step);
    GoKeepsFlag(s, step.l, s'.loops[step.l], s');
  }

  lemma AcquirerStepKeepsHolders(delay: int, s: State, step: Step)
    requires Enabled(s, step) && IsAcquirerStep(step) && !(step.TrySchedule? && !s.scheduled)
    ensures SameFlag(s, Apply(delay, s, step))
  {
  }

  lemma OtherStepKeepsHolders(delay: int, s: State, step: Step)
    requires Enabled(s, step) && !step.Spawn? && !step.Leave? && !(step.TrySchedule? && !s.scheduled)
    ensures SameFlag(s, Apply(delay, s, step))
  {
    if IsLoopStep(step) {
      LoopStepKeepsHolders(delay, s, step);
    } else if IsAcquirerStep(step) {
      AcquirerStepKeepsHolders(delay, s, step);
    }
  }

  lemma CloseKeeps(delay: int, s: State, step: Step)
    requires CloseInv(s) && Enabled(s, step)
    ensures CloseInv(Apply(delay, s, step))
  {
    var s' := Apply(delay, s, step);
    if step.Close? || step.CloseChannel? || step.Await? || step.ClosePool? {
      CloserKeeps(delay, s, step);
    } else {
      assert s'.closers == s.closers && s'.closed == s.closed && s'.channelClosings == s.channelClosings;
      assert forall k :: Closes(s', k) <==> Closes(s, k);
    }
  }

  lemma CloserKeeps(delay: int, s: State, step: Step)
    requires step.Close? || step.CloseChannel? || step.Await? || step.ClosePool?
    requires CloseInv(s) && Enabled(s, step)
    ensures CloseInv(Apply(delay, s, step))
  {
    var s', k := Apply(delay, s, step), step.k;
    if step.Close? {
      assert forall k' :: Closes(s', k') ==> Closes(s, k') || (k' == k && !s.closed);
    } else {
      assert Closes(s, k);
      assert forall k' :: Closes(s', k') ==> Closes(s, k');
    }
  }

  lemma LateKeeps(delay: int, s: State, step: Step)
    requires FlagInv(s) && LateInv(s) && CloseInv(s) && Enabled(s, step)
    ensures LateInv(Apply(delay, s, step))
  {
    if step.Enter? || step.CheckState? {
      // The only live loop is the one that moves on.
      assert LoopHolds(s, step.l);
      assert forall l :: 0 <= l < |s.loops| && IsAboutToEnter(s.loops[l]) ==> LoopHolds(s, l);
    }
  }

  lemma DoubledInterval(delay: int, n: nat)
    requires delay > 0
    ensures Min(Backoff(n) * delay * 2, 16 * delay) == Backoff(n + 1) * delay
  {
    BackoffDoubles(n);
    if 2 * Backoff(n) <= 16 {
      assert 2 * Backoff(n) * delay <= 16 * delay;
    } else {
      assert 16 * delay <= 2 * Backoff(n) * delay;
    }
  }

  /** Only backing off changes the interval of a loop. */
  lemma LoopMoves(delay: int, s: State, step: Step, l: nat)
    requires Enabled(s, step) && l < |s.loops| && !(step.BackOff? && step.l == l)
    ensures var loop, loop' := s.loops[l], Apply(delay, s, step).loops[l];
            || loop'.at.Leaving? || loop'.at.Gone?
            || (!loop.at.Leaving? && !loop.at.Gone? && loop'.interval == loop.interval && Waits(loop') == Waits(loop))
  {
  }

  lemma LoopIntervalKeeps(delay: int, s: State, step: Step, l: nat)
    requires delay > 0 && Enabled(s, step) && l < |Apply(delay, s, step).loops|
    requires l < |s.loops| ==> IntervalInv(delay, s.loops[l])
    ensures IntervalInv(delay, Apply(delay, s, step).loops[l])
  {
    if step.BackOff? && l == step.l {
      DoubledInterval(delay, s.loops[l].attempt - 1);
    } else if l < |s.loops| {
      LoopMoves(delay, s, step, l);
    }
  }

  lemma IntervalKeeps(delay: int, s: State, step: Step)
    requires delay > 0 && Enabled(s, step)
    requires forall l :: 0 <= l < |s.loops| ==> IntervalInv(delay, s.loops[l])
    ensures var s' := Apply(delay, s, step); forall l :: 0 <= l < |s'.loops| ==> IntervalInv(delay, s'.loops[l])
  {
    forall l | 0 <= l < |Apply(delay, s, step).loops| ensures IntervalInv(delay, Apply(delay, s, step).loops[l]) {
      LoopIntervalKeeps(delay, s, step, l);
    }
  }

  // ---------------------------------------------------------------- main theorems

  lemma InitInv(delay: int, s: State)
    requires Init(s)
    ensures Inv(delay, s)
  {
  }

  lemma StepKeepsInv(delay: int, s: State, step: Step)
    requires delay > 0 && Inv(delay, s) && Enabled(s, step)
    ensures Inv(delay, Apply(delay, s, step))
  {
    FlagKeeps(delay, s, step);
    CloseKeeps(delay, s, step);
    LateKeeps(delay, s, step);
    IntervalKeeps(delay, s, step);
  }

  /** In every run of any number of acquirers, closers and others. */
  lemma {:induction false} RunKeepsInv(delay: int, states: seq<State>, steps: seq<Step>, i: nat)
    requires delay > 0 && IsRun(delay, states, steps) && i < |states|
    ensures Inv(delay, states[i])
  {
    if i == 0 {
      InitInv(delay, states[0]);
    } else {
      RunKeepsInv(delay, states, steps, i - 1);
      StepKeepsInv(delay, states[i - 1], steps[i - 1]);
    }
  }

  /** At most one reconnect loop is live, and only while the flag is set; the flag is never left
      set behind. */
  lemma OneLoopAtMost(delay: int, states: seq<State>, steps: seq<Step>, i: nat)
    requires delay > 0 && IsRun(delay, states, steps) && i < |states|
    ensures var s := states[i];
            && (forall l, l' :: 0 <= l < |s.loops| && 0 <= l' < |s.loops| && s.loops[l].Live() && s.loops[l'].Live() ==>
                  l == l')
            && (forall l :: 0 <= l < |s.loops| && s.loops[l].Live() ==> s.scheduled)
            && (s.scheduled ==> (exists t :: SpawnerHolds(s, t)) || exists l :: LoopHolds(s, l))
  {
    RunKeepsInv(delay, states, steps, i);
    var s := states[i];
    assert forall l :: 0 <= l < |s.loops| && s.loops[l].Live() ==> LoopHolds(s, l);
  }

  /** A loop that waits before its attempt number `k` waits for the delay times two to the power
      `k - 1`, but at most sixteen times the delay. */
  lemma WaitIsCappedBackoff(delay: int, states: seq<State>, steps: seq<Step>, i: nat, l: nat)
    requires delay > 0 && IsRun(delay, states, steps) && i < |states|
    requires LoopAt(states[i], l, Waiting)
    ensures var loop := states[i].loops[l];
            var k := loop.attempt + 1;
            loop.interval == delay * Min(Pow2(k - 1), 16)
  {
    RunKeepsInv(delay, states, steps, i);
  }

  /** After `closed` is set, at most one further reconnection is entered, and the channel is
      closed at most once, however many call `Close`. */
  lemma CloseStopsReconnecting(delay: int, states: seq<State>, steps: seq<Step>, i: nat)
    requires delay > 0 && IsRun(delay, states, steps) && i < |states|
    ensures states[i].lateEntries <= 1 && states[i].channelClosings <= 1
    ensures states[i].channelClosings == 1 ==> states[i].closed
  {
    RunKeepsInv(delay, states, steps, i);
  }

  // ---------------------------------------------------------------- a pool that stays offline

  /** An acquirer that will still try to start a loop. */
  predicate Pending(s: State) {
    exists t :: 0 <= t < |s.acquirers|
      && (s.acquirers[t].Observed? || s.acquirers[t].Scheduling? || s.acquirers[t].Spawning?)
  }

  predicate NoLoop(s: State) {
    forall l :: 0 <= l < |s.loops| ==> !s.loops[l].Live()
  }

  /** Acquirers are turned away, nothing reconnects, and nothing is about to. */
  predicate Dead(s: State) {
    !Accepts(s.state) && NoLoop(s) && !Pending(s)
  }

  /** Such a pool comes back only if somebody sets its state from outside. */
  lemma DeadStaysDead(delay: int, s: State, step: Step)
    requires Dead(s) && Enabled(s, step) && !step.SetState?
    ensures Dead(Apply(delay, s, step))
  {
  }

  lemma LiveLoopStays(delay: int, s: State, step: Step)
    requires Enabled(s, step) && !step.Leave? && !NoLoop(s)
    ensures !NoLoop(Apply(delay, s, step))
  {
    var l :| 0 <= l < |s.loops| && s.loops[l].Live();
    assert Apply(delay, s, step).loops[l].Live();
  }

  /** An acquirer on its way to a loop goes on, or has found the flag set by another one. */
  lemma PendingStays(delay: int, s: State, step: Step)
    requires Enabled(s, step) && Pending(s) && !step.Spawn? && !(step.TrySchedule? && s.scheduled)
    ensures Pending(Apply(delay, s, step))
  {
    var s' := Apply(delay, s, step);
    var t :| 0 <= t < |s.acquirers|
      && (s.acquirers[t].Observed? || s.acquirers[t].Scheduling? || s.acquirers[t].Spawning?);
    assert s'.acquirers[t].Observed? || s'.acquirers[t].Scheduling? || s'.acquirers[t].Spawning?;
  }

  /** Other steps leave somebody who will still act, if there was somebody. */
  lemma ActorsStay(delay: int, s: State, step: Step)
    requires FlagInv(s) && Enabled(s, step) && !step.Leave?
    requires Pending(s) || !NoLoop(s)
    ensures var s' := Apply(delay, s, step); Pending(s') || !NoLoop(s')
  {
    var s' := Apply(delay, s, step);
    if !NoLoop(s) {
      LiveLoopStays(delay, s, step);
    } else if step.TrySchedule? && s.scheduled {
      assert forall l :: !LoopHolds(s, l);
      var t :| SpawnerHolds(s, t);
      assert s'.acquirers[t].Spawning?;
    } else if step.Spawn? {
      assert s'.loops[|s.loops|].Live();
    } else {
      PendingStays(delay, s, step);
    }
  }

  /** An offline pool is abandoned in exactly one way: its loop leaves after the pool has gone
      offline once more, when every acquirer that saw that has already found the flag set. */
  lemma AbandonedExactlyByLeaving(delay: int, s: State, step: Step)
    requires FlagInv(s) && Enabled(s, step) && !step.SetState? && !Dead(s)
    ensures var s' := Apply(delay, s, step);
            Dead(s') && s'.state == Offline <==> step.Leave? && s.state == Offline && !Pending(s)
  {
    if step.Leave? {
      var s' := Apply(delay, s, step);
      assert LoopHolds(s, step.l);
      assert forall l :: 0 <= l < |s.loops| && s.loops[l].Live() ==> LoopHolds(s, l);
      assert s'.acquirers == s.acquirers;
    } else if Pending(s) || !NoLoop(s) {
      ActorsStay(delay, s, step);
    }
  }

  lemma Extend(delay: int, states: seq<State>, steps: seq<Step>, step: Step)
    returns (states': seq<State>, steps': seq<Step>)
    requires IsRun(delay, states, steps) && Enabled(states[|steps|], step)
    ensures IsRun(delay, states', steps') && states'[|steps'|] == Apply(delay, states[|steps|], step)
  {
    states', steps' := states + [Apply(delay, states[|steps|], step)], steps + [step];
  }

  /** One acquirer fails and starts a loop. */
  lemma Spawned(delay: int) returns (states: seq<State>, steps: seq<Step>)
    requires delay > 0
    ensures IsRun(delay, states, steps)
    ensures states[|steps|] == State(Offline, false, true, [Idle], [Loop(Waiting, delay, 0)], [], 0, 0)
  {
    states, steps := [State(Online, false, false, [Idle], [], [], 0, 0)], [];
    states, steps := Extend(delay, states, steps, Acquire(0));
    states, steps := Extend(delay, states, steps, Fail(0, false));
    states, steps := Extend(delay, states, steps, HandleFailure(0));
    states, steps := Extend(delay, states, steps, MarkOffline(0));
    states, steps := Extend(delay, states, steps, TrySchedule(0));
    states, steps := Extend(delay, states, steps, Spawn(0));
  }

  /** The loop gets the pool online and is about to leave. */
  lemma Reconnected(delay: int) returns (states: seq<State>, steps: seq<Step>)
    requires delay > 0
    ensures IsRun(delay, states, steps)
    ensures states[|steps|] == State(Online, false, true, [Idle], [Loop(Leaving, delay, 1)], [], 0, 0)
  {
    states, steps := Spawned(delay);
    states, steps := Extend(delay, states, steps, Timer(0));
    states, steps := Extend(delay, states, steps, CheckClosed(0));
    states, steps := Extend(delay, states, steps, CheckState(0));
    states, steps := Extend(delay, states, steps, Enter(0));
    states, steps := Extend(delay, states, steps, MarkConnecting(0));
    states, steps := Extend(delay, states, steps, Dial(0, true));
    states, steps := Extend(delay, states, steps, MarkDialed(0));
  }

  /** It does happen: an acquirer fails between the loop's last write of the state and its clearing
      of the flag. The pool is then offline for good, though nobody closed it. */
  lemma PoolCanBeAbandoned(delay: int) returns (states: seq<State>, steps: seq<Step>)
    requires delay > 0
    ensures IsRun(delay, states, steps)
    ensures states[|steps|].state == Offline && Dead(states[|steps|]) && !states[|steps|].closed
  {
    states, steps := Reconnected(delay);
    states, steps := Extend(delay, states, steps, Acquire(0));
    states, steps := Extend(delay, states, steps, Fail(0, false));
    states, steps := Extend(delay, states, steps, HandleFailure(0));
    states, steps := Extend(delay, states, steps, MarkOffline(0));
    states, steps := Extend(delay, states, steps, TrySchedule(0));
    states, steps := Extend(delay, states, steps, Leave(0));
  }
}
