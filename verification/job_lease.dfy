/**
 The lease that keeps an exclusive job on one node at a time: any number of nodes, one job log
 table, one advisory lock, one clock. A node takes the lock, reads the last record, judges it,
 writes its own "started" record, gives the lock back and only then runs, refreshing its record
 while it does. Every database call is a step of its own, and so is the judgement between two
 of them, so all interleavings of any number of nodes are runs of this system.
 */
module JobLease {
  import opened Wrappers

  // ---------------------------------------------------------------- the job log

  datatype Status = Started | Done | Failed

  datatype Record = Record(status: Status, createdAt: int, updatedAt: int, expiresAt: int)

  /** The name of a run, of which only equality matters: the program formats the local time of day,
      to the second, and that text may recur. */
  type JobId = int

  type Table = map<JobId, Record>

  const SECOND := 1000
  const MAX_TOLERANCE := 10 * SECOND
  const MIN_LIFETIME := 3 * 24 * 3600 * SECOND

  function Max(a: int, b: int): int { if a < b then b else a }

  function Min(a: int, b: int): int { if a < b then a else b }

  /** `refresh` and `patience` are not settings of the program: they bound how old the record of a
      live run may get, and how long a node may take from reading a record to judging it. */
  datatype Config = Config(heartbeat: int, interval: int, refresh: int, patience: int) {

    function Timeout(): int { heartbeat + Min(heartbeat, MAX_TOLERANCE) }

    function Lifetime(): int { Max(MIN_LIFETIME, 10 * interval) }

    predicate Valid() {
      && 0 < heartbeat && 0 < refresh && 0 <= patience
      && refresh + patience <= Timeout() <= Lifetime()
    }
  }

  /** Writing a record refreshes it, or creates it if it is not there. */
  function Saved(table: Table, id: JobId, status: Status, now: int, c: Config): Table {
    var createdAt := if id in table then table[id].createdAt else now;
    table[id := Record(status, createdAt, now, now + c.Lifetime())]
  }

  /** A record that `ORDER BY created_at DESC LIMIT 1` may return. */
  predicate IsLast(table: Table, id: JobId) {
    id in table && forall other :: other in table ==> table[other].createdAt <= table[id].createdAt
  }

  // ---------------------------------------------------------------- nodes

  datatype Snapshot = Snapshot(id: JobId, record: Record)

  datatype Phase =
    | Idle
    | Locked(triggered: bool)
    | Judging(triggered: bool, last: Option<Snapshot>, readAt: int)
    | Deleting(stale: JobId)
    | MarkingFailed(stale: JobId)
    | Naming
    | Starting(id: JobId)
    | Unlocking(id: JobId)
    | Running(id: JobId)
    | Finishing(id: JobId, status: Status)
    | Returning
  {
    /** The node holds the advisory lock. */
    predicate Holds() {
      Locked? || Judging? || Deleting? || MarkingFailed? || Naming? || Starting? || Unlocking? || Returning?
    }

    /** The node has written its "started" record and not yet its last one. */
    predicate Live() { Unlocking? || Running? || Finishing? }
  }

  /** `beats` are the heartbeat writes under way: they may reach the table at any later time, also
      after the run has written its last record. `doomed` are the records that somebody has found
      expired and is about to delete. */
  datatype State = State(
    now: nat,
    lock: Option<nat>,
    nodes: seq<Phase>,
    table: Table,
    beats: set<JobId>,
    doomed: set<JobId>)

  predicate Init(s: State) {
    && s.lock == None
    && (forall n :: 0 <= n < |s.nodes| ==> s.nodes[n] == Idle)
    && s.table == map[] && s.beats == {} && s.doomed == {}
  }

  // ---------------------------------------------------------------- steps

  datatype Exit = Ok | Err | Panic

  /** A call to the database succeeds, or fails, in which case it may have been carried out. */
  datatype Reply = Answered | Lost(applied: bool) {
    predicate Applied() { Answered? || applied }
  }

  datatype Step =
    | Tick(d: nat)
    | TryLock(n: nat, triggered: bool)
    | ReadLast(n: nat, pick: Option<JobId>)
    | ReadFails(n: nat)
    | Judge(n: nat)
    | Delete(n: nat, ok: bool)
    | MarkFailed(n: nat, ok: bool)
    | Name(n: nat, id: JobId)
    | Start(n: nat, reply: Reply)
    | Unlock(n: nat, reply: Reply)
    | Beat(n: nat)
    | Land(id: JobId, more: bool)
    | Exit(n: nat, exit: Exit)
    | Finish(n: nat, ok: bool)
    | Return(n: nat)
    | Crash(n: nat)
    | Condemn(ids: set<JobId>)
    | Purge(ids: set<JobId>, ok: bool, more: bool)

  /** Whoever lists the records judges them within `patience` of reading them, and condemns those
      that have expired by then; `Purge` deletes them, at any later time, and `more` says that
      somebody else is still about to. */
  predicate Enabled(c: Config, s: State, step: Step) {
    match step
    case Tick(_) => true
    case TryLock(n, _) => n < |s.nodes| && s.nodes[n].Idle? && s.lock.None?
    case ReadLast(n, pick) =>
      && n < |s.nodes| && s.nodes[n].Locked?
      && (match pick case None => s.table == map[] case Some(id) => IsLast(s.table, id))
    case ReadFails(n) => n < |s.nodes| && s.nodes[n].Locked?
    case Judge(n) => n < |s.nodes| && s.nodes[n].Judging?
    case Delete(n, _) => n < |s.nodes| && s.nodes[n].Deleting?
    case MarkFailed(n, _) => n < |s.nodes| && s.nodes[n].MarkingFailed?
    case Name(n, _) => n < |s.nodes| && s.nodes[n].Naming?
    case Start(n, _) => n < |s.nodes| && s.nodes[n].Starting?
    case Unlock(n, _) => n < |s.nodes| && s.nodes[n].Unlocking?
    case Beat(n) => n < |s.nodes| && (s.nodes[n].Running? || s.nodes[n].Finishing?)
    case Land(id, _) => id in s.beats
    case Exit(n, _) => n < |s.nodes| && s.nodes[n].Running?
    case Finish(n, _) => n < |s.nodes| && s.nodes[n].Finishing?
    case Return(n) => n < |s.nodes| && s.nodes[n].Returning?
    case Crash(n) => n < |s.nodes|
    case Condemn(ids) => forall id :: id in ids ==> id in s.table && s.table[id].expiresAt < s.now + c.patience
    case Purge(ids, _, _) => ids <= s.doomed
  }

  /** What a node does about the record it has read. */
  function Judgement(c: Config, now: int, triggered: bool, last: Option<Snapshot>): Phase {
    match last
    case None => Naming
    case Some(Snapshot(id, record)) =>
      if record.expiresAt < now then Deleting(id)
      else
        match record.status
        case Started => if now - record.updatedAt < c.Timeout() then Returning else MarkingFailed(id)
        case Done => if !triggered && now - record.createdAt < c.interval then Returning else Naming
        case Failed => Naming
  }

  function To(s: State, n: nat, p: Phase): State
    requires n < |s.nodes|
  {
    s.(nodes := s.nodes[n := p])
  }

  function Apply(c: Config, s: State, step: Step): State
    requires Enabled(c, s, step)
  {
    match step
    case Tick(d) => s.(now := s.now + d)
    case TryLock(n, triggered) => To(s, n, Locked(triggered)).(lock := Some(n))
    case ReadLast(n, pick) =>
      var last := match pick case None => None case Some(id) => Some(Snapshot(id, s.table[id]));
      To(s, n, Judging(s.nodes[n].triggered, last, s.now))
    case ReadFails(n) => To(s, n, Returning)
    case Judge(n) => To(s, n, Judgement(c, s.now, s.nodes[n].triggered, s.nodes[n].last))
    case Delete(n, ok) => To(s, n, Naming).(table := if ok then s.table - {s.nodes[n].stale} else s.table)
    case MarkFailed(n, ok) =>
      To(s, n, Naming).(table := if ok then Saved(s.table, s.nodes[n].stale, Status.Failed, s.now, c) else s.table)
    case Name(n, id) => To(s, n, Starting(id))
    case Start(n, reply) =>
      To(s, n, if reply.Answered? then Unlocking(s.nodes[n].id) else Returning)
      .(table := if reply.Applied() then Saved(s.table, s.nodes[n].id, Started, s.now, c) else s.table)
    case Unlock(n, reply) =>
      match reply {
        case Answered => To(s, n, Running(s.nodes[n].id)).(lock := None)
        case Lost(applied) => if applied then To(s, n, Idle).(lock := None) else To(s, n, Returning)
      }
    case Beat(n) => s.(beats := s.beats + {s.nodes[n].id})
    case Land(id, more) =>
      s.(table := Saved(s.table, id, Started, s.now, c), beats := if more then s.beats else s.beats - {id})
    case Exit(n, exit) =>
      match exit {
        case Ok => To(s, n, Finishing(s.nodes[n].id, Done))
        case Err => To(s, n, Finishing(s.nodes[n].id, Status.Failed))
        case Panic => To(s, n, Idle)
      }
    case Finish(n, ok) =>
      To(s, n, Idle).(table := if ok then Saved(s.table, s.nodes[n].id, s.nodes[n].status, s.now, c) else s.table)
    case Return(n) => To(s, n, Idle).(lock := None)
    case Crash(n) => To(s, n, Idle).(lock := if s.lock == Some(n) then None else s.lock)
    case Condemn(ids) => s.(doomed := s.doomed + ids)
    case Purge(ids, ok, more) =>
      s.(table := if ok then s.table - ids else s.table, doomed := if more then s.doomed else s.doomed - ids)
  }

  // ---------------------------------------------------------------- assumptions on the environment

  predicate IsLive(s: State, id: JobId) {
    exists n :: 0 <= n < |s.nodes| && s.nodes[n].Live() && s.nodes[n].id == id
  }

  /** A run that is live, or has a heartbeat write under way. */
  predicate Active(s: State, id: JobId) {
    id in s.beats || IsLive(s, id)
  }

  /** The heartbeats of live runs arrive in time, and nodes judge what they read without undue delay.
      A heartbeat write of a run that has ended has until its record is about to expire. */
  predicate Timely(c: Config, s: State) {
    && (forall id :: id in s.table && IsLive(s, id) ==> s.now - s.table[id].updatedAt < c.refresh)
    && (forall id :: id in s.table && Active(s, id) ==> s.now - s.table[id].updatedAt < c.Lifetime() - c.patience)
    && (forall n :: 0 <= n < |s.nodes| && s.nodes[n].Judging? ==> s.now - s.nodes[n].readAt <= c.patience)
  }

  /** The database clock tells any two records apart. */
  predicate DistinctCreation(s: State) {
    forall a, b :: a in s.table && b in s.table && s.table[a].createdAt == s.table[b].createdAt ==> a == b
  }

  /** A name recurs only while its record is the last one, so that a run which is about to start
      will have the last record. */
  predicate NamesMoveOn(s: State) {
    forall n :: 0 <= n < |s.nodes| && s.nodes[n].Starting? && s.nodes[n].id in s.table ==>
      IsLast(s.table, s.nodes[n].id)
  }

  /** No run is about to start under the name of a record that is about to be deleted. */
  predicate DoomedNamesRest(s: State) {
    forall n :: 0 <= n < |s.nodes| && s.nodes[n].Starting? ==> s.nodes[n].id !in s.doomed
  }

  predicate Orderly(c: Config, s: State) {
    Timely(c, s) && DistinctCreation(s) && NamesMoveOn(s) && DoomedNamesRest(s)
  }

  /** A run: its states, and the steps between them. */
  predicate IsRun(c: Config, states: seq<State>, steps: seq<Step>) {
    && |states| == |steps| + 1
    && Init(states[0])
    && forall i :: 0 <= i < |steps| ==>
         Enabled(c, states[i], steps[i]) && states[i + 1] == Apply(c, states[i], steps[i])
  }

  // ---------------------------------------------------------------- the invariant

  predicate Exclusive(s: State) {
    forall n, m :: 0 <= n < |s.nodes| && 0 <= m < |s.nodes| && s.nodes[n].Running? && s.nodes[m].Running? ==> n == m
  }

  predicate LockInv(s: State) {
    && (forall n :: 0 <= n < |s.nodes| ==> (s.nodes[n].Holds() <==> s.lock == Some(n)))
    && (s.lock.Some? ==> s.lock.value < |s.nodes|)
  }

  predicate TableInv(c: Config, s: State) {
    forall id :: id in s.table ==>
      && s.table[id].createdAt <= s.table[id].updatedAt <= s.now
      && s.table[id].expiresAt == s.table[id].updatedAt + c.Lifetime()
  }

  /** The record of a live run is the last one and says "started". */
  predicate Leased(table: Table, id: JobId) {
    IsLast(table, id) && table[id].status == Started
  }

  ghost predicate NoneLive(s: State) {
    forall id :: !IsLive(s, id)
  }

  ghost predicate LeaseInv(s: State) {
    && (forall id :: IsLive(s, id) ==> Leased(s.table, id))
    && (forall n, m :: 0 <= n < |s.nodes| && 0 <= m < |s.nodes| && s.nodes[n].Live() && s.nodes[m].Live() ==> n == m)
    && (forall id :: id in s.beats ==> id in s.table)
  }

  /** What the node that holds the lock may rely on, phase by phase. */
  ghost predicate HolderInv(c: Config, s: State, p: Phase) {
    match p
    case Judging(_, None, readAt) => NoneLive(s)
    case Judging(_, Some(Snapshot(id, record)), readAt) =>
      && readAt <= s.now
      && record.expiresAt == record.updatedAt + c.Lifetime()
      && (IsLive(s, id) ==> readAt - record.updatedAt < c.refresh)
      && (Active(s, id) ==> readAt - record.updatedAt < c.Lifetime() - c.patience)
      && (forall other :: IsLive(s, other) ==> other == id && record.status == Started)
    case Deleting(stale) => !Active(s, stale) && NoneLive(s)
    case MarkingFailed(stale) => NoneLive(s)
    case Naming => NoneLive(s)
    case Starting(id) => NoneLive(s)
    case _ => true
  }

  ghost predicate HoldersInv(c: Config, s: State) {
    forall n :: 0 <= n < |s.nodes| ==> HolderInv(c, s, s.nodes[n])
  }

  /** No run whose record is about to be deleted will write again. */
  predicate DoomedInv(s: State) {
    forall id :: id in s.doomed ==> !Active(s, id)
  }

  ghost predicate Inv(c: Config, s: State) {
    LockInv(s) && TableInv(c, s) && LeaseInv(s) && HoldersInv(c, s) && DoomedInv(s)
  }

  lemma InitInv(c: Config, s: State)
    requires Init(s)
    ensures Inv(c, s)
  {
  }

  // ---------------------------------------------------------------- changes that keep the invariant

  /** Time does not go back, and no run becomes live or active. */
  ghost predicate Calm(s: State, s': State) {
    && s.now <= s'.now
    && (forall id :: IsLive(s', id) ==> IsLive(s, id))
    && (forall id :: Active(s', id) ==> Active(s, id))
  }

  /** What the holder of the lock relies on outlasts every calm change, whatever happens to the table. */
  lemma CalmKeepsHolder(c: Config, s: State, s': State, p: Phase)
    requires Calm(s, s') && HolderInv(c, s, p)
    ensures HolderInv(c, s', p)
  {
  }

  /** Only the node itself takes or gives back the lock, and it holds it in the phases that need it. */
  predicate LockMoves(s: State, n: nat, p: Phase, lock: Option<nat>) {
    && (p.Holds() <==> lock == Some(n))
    && (lock == s.lock || ((s.lock.None? || s.lock == Some(n)) && (lock.None? || lock == Some(n))))
  }

  lemma MoveKeepsLock(s: State, n: nat, p: Phase, lock: Option<nat>)
    requires LockInv(s) && n < |s.nodes| && LockMoves(s, n, p, lock)
    ensures LockInv(s.(nodes := s.nodes[n := p], lock := lock))
  {
  }

  /** The node stays live, if at all, with the run it has. */
  predicate StaysLive(s: State, n: nat, p: Phase)
    requires n < |s.nodes|
  {
    p.Live() ==> s.nodes[n].Live() && p.id == s.nodes[n].id
  }

  lemma MoveIsCalm(s: State, n: nat, p: Phase, lock: Option<nat>)
    requires n < |s.nodes| && StaysLive(s, n, p)
    ensures Calm(s, s.(nodes := s.nodes[n := p], lock := lock))
  {
    var s' := s.(nodes := s.nodes[n := p], lock := lock);
    forall id | IsLive(s', id) ensures IsLive(s, id) {
      var m :| 0 <= m < |s'.nodes| && s'.nodes[m].Live() && s'.nodes[m].id == id;
      assert s.nodes[m].Live() && s.nodes[m].id == id;
    }
  }

  lemma MoveKeepsLease(s: State, n: nat, p: Phase, lock: Option<nat>)
    requires LeaseInv(s) && n < |s.nodes| && StaysLive(s, n, p)
    ensures LeaseInv(s.(nodes := s.nodes[n := p], lock := lock))
  {
    MoveIsCalm(s, n, p, lock);
    var s' := s.(nodes := s.nodes[n := p], lock := lock);
    assert forall m :: 0 <= m < |s'.nodes| && s'.nodes[m].Live() ==> s.nodes[m].Live();
  }

  lemma CalmKeepsHolders(c: Config, s: State, s': State, n: nat, p: Phase)
    requires HoldersInv(c, s) && Calm(s, s') && n < |s.nodes| && s'.nodes == s.nodes[n := p] && HolderInv(c, s, p)
    ensures HoldersInv(c, s')
  {
    forall m | 0 <= m < |s'.nodes| ensures HolderInv(c, s', s'.nodes[m]) {
      CalmKeepsHolder(c, s, s', s'.nodes[m]);
    }
  }

  /** One node goes on to a phase whose reliances hold. */
  lemma MoveKeeps(c: Config, s: State, n: nat, p: Phase, lock: Option<nat>)
    requires Inv(c, s) && n < |s.nodes|
    requires LockMoves(s, n, p, lock) && StaysLive(s, n, p) && HolderInv(c, s, p)
    ensures Inv(c, s.(nodes := s.nodes[n := p], lock := lock))
  {
    MoveKeepsLock(s, n, p, lock);
    MoveIsCalm(s, n, p, lock);
    MoveKeepsLease(s, n, p, lock);
    CalmKeepsHolders(c, s, s.(nodes := s.nodes[n := p], lock := lock), n, p);
  }

  lemma SameLive(s: State, s': State)
    requires s'.nodes == s.nodes
    ensures forall id :: IsLive(s', id) <==> IsLive(s, id)
  {
    forall id ensures IsLive(s', id) <==> IsLive(s, id) {
      if IsLive(s, id) {
        var n :| 0 <= n < |s.nodes| && s.nodes[n].Live() && s.nodes[n].id == id;
        assert s'.nodes[n].Live() && s'.nodes[n].id == id;
      }
    }
  }

  /** The table changes, and heartbeat writes may be done. */
  lemma TableKeeps(c: Config, s: State, table: Table, beats: set<JobId>)
    requires Inv(c, s) && beats <= s.beats && TableInv(c, s.(table := table))
    requires forall id :: id in beats ==> id in table
    requires forall id :: IsLive(s, id) ==> Leased(table, id)
    ensures Inv(c, s.(table := table, beats := beats))
  {
    var s' := s.(table := table, beats := beats);
    SameLive(s, s');
    forall n | 0 <= n < |s'.nodes| ensures HolderInv(c, s', s'.nodes[n]) {
      CalmKeepsHolder(c, s, s', s'.nodes[n]);
    }
  }

  /** Refreshing a record, or adding one, leaves every record with a sound lifetime, and no record
      that was there loses its place. */
  lemma SavedKeepsTable(c: Config, s: State, id: JobId, status: Status)
    requires c.Valid() && TableInv(c, s)
    ensures TableInv(c, s.(table := Saved(s.table, id, status, s.now, c)))
    ensures var table := Saved(s.table, id, status, s.now, c);
            && (forall other :: other in s.table ==>
                  other in table && table[other].createdAt == s.table[other].createdAt)
            && (id !in s.table || IsLast(s.table, id) ==> IsLast(table, id))
  {
  }

  /** Writing a record that is there leaves the last record the last. */
  lemma SavedKeepsLease(c: Config, s: State, id: JobId, status: Status, live: JobId)
    requires TableInv(c, s) && id in s.table && Leased(s.table, live) && (id == live ==> status == Started)
    ensures Leased(Saved(s.table, id, status, s.now, c), live)
  {
  }

  lemma LiveIs(s: State, n: nat, id: JobId)
    requires LeaseInv(s) && n < |s.nodes| && s.nodes[n].Live()
    ensures IsLive(s, id) <==> id == s.nodes[n].id
  {
  }

  // ---------------------------------------------------------------- the steps

  lemma TickKeeps(c: Config, s: State, d: nat)
    requires Inv(c, s)
    ensures Inv(c, Apply(c, s, Tick(d)))
  {
    var s' := Apply(c, s, Tick(d));
    SameLive(s, s');
    forall n | 0 <= n < |s'.nodes| ensures HolderInv(c, s', s'.nodes[n]) {
      CalmKeepsHolder(c, s, s', s'.nodes[n]);
    }
  }

  lemma TryLockKeeps(c: Config, s: State, n: nat, triggered: bool)
    requires Inv(c, s) && Enabled(c, s, TryLock(n, triggered))
    ensures Inv(c, Apply(c, s, TryLock(n, triggered)))
  {
    MoveKeeps(c, s, n, Locked(triggered), Some(n));
  }

  /** While a run is live, its record is the one that is read. */
  lemma LastIsLive(s: State, id: JobId)
    requires LeaseInv(s) && DistinctCreation(s) && IsLast(s.table, id)
    ensures forall other :: IsLive(s, other) ==> other == id && s.table[id].status == Started
  {
    forall other | IsLive(s, other) ensures other == id {
      assert IsLast(s.table, other);
      assert s.table[other].createdAt == s.table[id].createdAt;
    }
  }

  lemma EmptyTable(s: State)
    requires LeaseInv(s) && s.table == map[]
    ensures NoneLive(s)
  {
    forall id ensures !IsLive(s, id) {
      assert IsLive(s, id) ==> id in s.table;
    }
  }

  lemma ReadLastKeeps(c: Config, s: State, n: nat, pick: Option<JobId>)
    requires c.Valid() && Inv(c, s) && Orderly(c, s) && Enabled(c, s, ReadLast(n, pick))
    ensures Inv(c, Apply(c, s, ReadLast(n, pick)))
  {
    var last := match pick case None => None case Some(id) => Some(Snapshot(id, s.table[id]));
    if pick.Some? {
      LastIsLive(s, pick.value);
    } else {
      EmptyTable(s);
    }
    MoveKeeps(c, s, n, Judging(s.nodes[n].triggered, last, s.now), s.lock);
  }

  lemma ReadFailsKeeps(c: Config, s: State, n: nat)
    requires Inv(c, s) && Enabled(c, s, ReadFails(n))
    ensures Inv(c, Apply(c, s, ReadFails(n)))
  {
    MoveKeeps(c, s, n, Returning, s.lock);
  }

  /** Nobody goes on while a run is live, and nobody deletes the record of an active one. */
  lemma JudgementIsSafe(c: Config, s: State, n: nat)
    requires c.Valid() && HoldersInv(c, s) && Timely(c, s) && Enabled(c, s, Judge(n))
    ensures var p := Judgement(c, s.now, s.nodes[n].triggered, s.nodes[n].last);
            && HolderInv(c, s, p) && p.Holds() && !p.Live()
            && ((exists id :: IsLive(s, id)) ==> p == Returning)
  {
    assert HolderInv(c, s, s.nodes[n]);
    var last := s.nodes[n].last;
    if last.Some? && Active(s, last.value.id) {
      assert s.now - last.value.record.updatedAt < c.Lifetime();
    }
    if last.Some? && IsLive(s, last.value.id) {
      assert s.now - last.value.record.updatedAt < c.refresh + c.patience;
    }
  }

  lemma JudgeKeeps(c: Config, s: State, n: nat)
    requires c.Valid() && Inv(c, s) && Orderly(c, s) && Enabled(c, s, Judge(n))
    ensures Inv(c, Apply(c, s, Judge(n)))
  {
    JudgementIsSafe(c, s, n);
    MoveKeeps(c, s, n, Judgement(c, s.now, s.nodes[n].triggered, s.nodes[n].last), s.lock);
  }

  /** The holder of the lock goes on to name its run. */
  lemma ToNaming(c: Config, s: State, n: nat) returns (s': State)
    requires Inv(c, s) && n < |s.nodes| && (s.nodes[n].Deleting? || s.nodes[n].MarkingFailed?)
    ensures s' == To(s, n, Naming) && Inv(c, s') && NoneLive(s')
  {
    assert HolderInv(c, s, s.nodes[n]);
    MoveKeeps(c, s, n, Naming, s.lock);
    s' := To(s, n, Naming);
    assert HolderInv(c, s', s'.nodes[n]);
  }

  lemma DeleteKeeps(c: Config, s: State, n: nat, ok: bool)
    requires Inv(c, s) && Enabled(c, s, Delete(n, ok))
    ensures Inv(c, Apply(c, s, Delete(n, ok)))
  {
    var stale := s.nodes[n].stale;
    var s1 := ToNaming(c, s, n);
    assert HolderInv(c, s, s.nodes[n]);
    if ok {
      TableKeeps(c, s1, s.table - {stale}, s1.beats);
    }
  }

  lemma MarkFailedKeeps(c: Config, s: State, n: nat, ok: bool)
    requires c.Valid() && Inv(c, s) && Enabled(c, s, MarkFailed(n, ok))
    ensures Inv(c, Apply(c, s, MarkFailed(n, ok)))
  {
    var stale := s.nodes[n].stale;
    var s1 := ToNaming(c, s, n);
    if ok {
      SavedKeepsTable(c, s1, stale, Status.Failed);
      TableKeeps(c, s1, Saved(s.table, stale, Status.Failed, s.now, c), s1.beats);
    }
  }

  lemma NameKeeps(c: Config, s: State, n: nat, id: JobId)
    requires Inv(c, s) && Enabled(c, s, Name(n, id))
    ensures Inv(c, Apply(c, s, Name(n, id)))
  {
    assert HolderInv(c, s, s.nodes[n]);
    MoveKeeps(c, s, n, Starting(id), s.lock);
  }

  lemma LiveNodesAreLive(s: State)
    ensures forall n :: 0 <= n < |s.nodes| && s.nodes[n].Live() ==> IsLive(s, s.nodes[n].id)
  {
  }

  /** With the last record its own, a node's run becomes live. */
  lemma BecomesLive(c: Config, s: State, n: nat)
    requires Inv(c, s) && n < |s.nodes| && s.nodes[n].Starting? && Leased(s.table, s.nodes[n].id)
    requires s.nodes[n].id !in s.doomed
    ensures Inv(c, To(s, n, Unlocking(s.nodes[n].id)))
  {
    var s', id := To(s, n, Unlocking(s.nodes[n].id)), s.nodes[n].id;
    assert HolderInv(c, s, s.nodes[n]);
    LiveNodesAreLive(s);
    forall m | 0 <= m < |s'.nodes| ensures HolderInv(c, s', s'.nodes[m]) {
      assert m != n ==> !s'.nodes[m].Holds();
    }
    assert forall other :: IsLive(s', other) ==> other == id;
  }

  lemma StartKeeps(c: Config, s: State, n: nat, reply: Reply)
    requires c.Valid() && Inv(c, s) && Orderly(c, s) && Enabled(c, s, Start(n, reply))
    ensures Inv(c, Apply(c, s, Start(n, reply)))
  {
    var s1, id := s, s.nodes[n].id;
    assert HolderInv(c, s, s.nodes[n]);
    if reply.Applied() {
      SavedKeepsTable(c, s, id, Started);
      TableKeeps(c, s, Saved(s.table, id, Started, s.now, c), s.beats);
      s1 := s.(table := Saved(s.table, id, Started, s.now, c));
    }
    if reply.Answered? {
      BecomesLive(c, s1, n);
    } else {
      MoveKeeps(c, s1, n, Returning, s.lock);
    }
  }

  lemma UnlockKeeps(c: Config, s: State, n: nat, reply: Reply)
    requires Inv(c, s) && Enabled(c, s, Unlock(n, reply))
    ensures Inv(c, Apply(c, s, Unlock(n, reply)))
  {
    match reply
    case Answered => MoveKeeps(c, s, n, Running(s.nodes[n].id), None);
    case Lost(true) => MoveKeeps(c, s, n, Idle, None);
    case Lost(false) => MoveKeeps(c, s, n, Returning, s.lock);
  }

  lemma BeatKeeps(c: Config, s: State, n: nat)
    requires Inv(c, s) && Enabled(c, s, Beat(n))
    ensures Inv(c, Apply(c, s, Beat(n)))
  {
    var s' := Apply(c, s, Beat(n));
    SameLive(s, s');
    LiveIs(s, n, s.nodes[n].id);
    forall m | 0 <= m < |s'.nodes| ensures HolderInv(c, s', s'.nodes[m]) {
      CalmKeepsHolder(c, s, s', s'.nodes[m]);
    }
  }

  lemma LandKeeps(c: Config, s: State, id: JobId, more: bool)
    requires c.Valid() && Inv(c, s) && Enabled(c, s, Land(id, more))
    ensures Inv(c, Apply(c, s, Land(id, more)))
  {
    SavedKeepsTable(c, s, id, Started);
    forall live | IsLive(s, live) ensures Leased(Saved(s.table, id, Started, s.now, c), live) {
      SavedKeepsLease(c, s, id, Started, live);
    }
    TableKeeps(c, s, Saved(s.table, id, Started, s.now, c), if more then s.beats else s.beats - {id});
  }

  lemma ExitKeeps(c: Config, s: State, n: nat, exit: Exit)
    requires Inv(c, s) && Enabled(c, s, Step.Exit(n, exit))
    ensures Inv(c, Apply(c, s, Step.Exit(n, exit)))
  {
    match exit
    case Ok => MoveKeeps(c, s, n, Finishing(s.nodes[n].id, Done), s.lock);
    case Err => MoveKeeps(c, s, n, Finishing(s.nodes[n].id, Status.Failed), s.lock);
    case Panic => MoveKeeps(c, s, n, Idle, s.lock);
  }

  lemma FinishKeeps(c: Config, s: State, n: nat, ok: bool)
    requires c.Valid() && Inv(c, s) && Enabled(c, s, Finish(n, ok))
    ensures Inv(c, Apply(c, s, Finish(n, ok)))
  {
    var s1, id, status := To(s, n, Idle), s.nodes[n].id, s.nodes[n].status;
    MoveKeeps(c, s, n, Idle, s.lock);
    forall other ensures !IsLive(s1, other) {
      assert forall m :: 0 <= m < |s1.nodes| && s1.nodes[m].Live() ==> m != n && s.nodes[m].Live();
    }
    if ok {
      SavedKeepsTable(c, s1, id, status);
      TableKeeps(c, s1, Saved(s.table, id, status, s.now, c), s1.beats);
    }
  }

  lemma ReturnKeeps(c: Config, s: State, n: nat)
    requires Inv(c, s) && Enabled(c, s, Return(n))
    ensures Inv(c, Apply(c, s, Return(n)))
  {
    MoveKeeps(c, s, n, Idle, None);
  }

  lemma CrashKeeps(c: Config, s: State, n: nat)
    requires Inv(c, s) && Enabled(c, s, Crash(n))
    ensures Inv(c, Apply(c, s, Crash(n)))
  {
    MoveKeeps(c, s, n, Idle, if s.lock == Some(n) then None else s.lock);
  }

  /** The set of the doomed records changes, without an active one among them. */
  lemma DoomedKeeps(c: Config, s: State, doomed: set<JobId>)
    requires Inv(c, s) && forall id :: id in doomed ==> !Active(s, id)
    ensures Inv(c, s.(doomed := doomed))
  {
    var s' := s.(doomed := doomed);
    SameLive(s, s');
    forall n | 0 <= n < |s'.nodes| ensures HolderInv(c, s', s'.nodes[n]) {
      CalmKeepsHolder(c, s, s', s'.nodes[n]);
    }
  }

  /** The record of an active run is not found expired, however late it is judged after reading. */
  lemma CondemnKeeps(c: Config, s: State, ids: set<JobId>)
    requires c.Valid() && Inv(c, s) && Orderly(c, s) && Enabled(c, s, Condemn(ids))
    ensures Inv(c, Apply(c, s, Condemn(ids)))
  {
    assert forall id :: id in s.table && Active(s, id) ==> s.table[id].expiresAt > s.now + c.patience;
    DoomedKeeps(c, s, s.doomed + ids);
  }

  /** Nor is one deleted, at whatever time. */
  lemma PurgeKeeps(c: Config, s: State, ids: set<JobId>, ok: bool, more: bool)
    requires Inv(c, s) && Enabled(c, s, Purge(ids, ok, more))
    ensures Inv(c, Apply(c, s, Purge(ids, ok, more)))
  {
    var s1 := s;
    if ok {
      assert forall id :: IsLive(s, id) ==> Active(s, id) && id !in ids;
      assert forall id :: id in s.beats ==> Active(s, id) && id !in ids;
      TableKeeps(c, s, s.table - ids, s.beats);
      s1 := s.(table := s.table - ids);
    }
    SameLive(s, s1);
    DoomedKeeps(c, s1, if more then s.doomed else s.doomed - ids);
  }

  lemma StepKeepsInv(c: Config, s: State, step: Step)
    requires c.Valid() && Inv(c, s) && Orderly(c, s) && Enabled(c, s, step)
    ensures Inv(c, Apply(c, s, step))
  {
    match step
    case Tick(d) => TickKeeps(c, s, d);
    case TryLock(n, triggered) => TryLockKeeps(c, s, n, triggered);
    case ReadLast(n, pick) => ReadLastKeeps(c, s, n, pick);
    case ReadFails(n) => ReadFailsKeeps(c, s, n);
    case Judge(n) => JudgeKeeps(c, s, n);
    case Delete(n, ok) => DeleteKeeps(c, s, n, ok);
    case MarkFailed(n, ok) => MarkFailedKeeps(c, s, n, ok);
    case Name(n, id) => NameKeeps(c, s, n, id);
    case Start(n, reply) => StartKeeps(c, s, n, reply);
    case Unlock(n, reply) => UnlockKeeps(c, s, n, reply);
    case Beat(n) => BeatKeeps(c, s, n);
    case Land(id, more) => LandKeeps(c, s, id, more);
    case Exit(n, exit) => ExitKeeps(c, s, n, exit);
    case Finish(n, ok) => FinishKeeps(c, s, n, ok);
    case Return(n) => ReturnKeeps(c, s, n);
    case Crash(n) => CrashKeeps(c, s, n);
    case Condemn(ids) => CondemnKeeps(c, s, ids);
    case Purge(ids, ok, more) => PurgeKeeps(c, s, ids, ok, more);
  }

  // ---------------------------------------------------------------- main theorems

  lemma {:induction false} RunKeepsInv(c: Config, states: seq<State>, steps: seq<Step>, i: nat)
    requires c.Valid() && IsRun(c, states, steps) && i < |states|
    requires forall j :: 0 <= j < i ==> Orderly(c, states[j])
    ensures Inv(c, states[i])
  {
    if i == 0 {
      InitInv(c, states[0]);
    } else {
      RunKeepsInv(c, states, steps, i - 1);
      StepKeepsInv(c, states[i - 1], steps[i - 1]);
    }
  }

  /** In every interleaving of any number of nodes, crashes and late heartbeats included, no two
      nodes are inside the executor at once; and while one is, the last record of the table is
      its own and says "started". */
  lemma AtMostOneExecutor(c: Config, states: seq<State>, steps: seq<Step>, i: nat)
    requires c.Valid() && IsRun(c, states, steps) && i < |states|
    requires forall j :: 0 <= j < i ==> Orderly(c, states[j])
    ensures Exclusive(states[i])
    ensures forall n :: 0 <= n < |states[i].nodes| && states[i].nodes[n].Running? ==>
              Leased(states[i].table, states[i].nodes[n].id)
  {
    RunKeepsInv(c, states, steps, i);
    var s := states[i];
    forall n | 0 <= n < |s.nodes| && s.nodes[n].Running? ensures Leased(s.table, s.nodes[n].id) {
      assert IsLive(s, s.nodes[n].id);
    }
  }

  /** The reason: whoever judges while another run is live turns back. */
  lemma LiveRunIsRespected(c: Config, states: seq<State>, steps: seq<Step>, i: nat, n: nat, m: nat)
    requires c.Valid() && IsRun(c, states, steps) && i < |steps|
    requires forall j :: 0 <= j <= i ==> Orderly(c, states[j])
    requires steps[i] == Judge(n) && m < |states[i].nodes| && states[i].nodes[m].Live()
    ensures states[i + 1].nodes[n] == Returning
  {
    RunKeepsInv(c, states, steps, i);
    var s := states[i];
    assert IsLive(s, s.nodes[m].id);
    JudgementIsSafe(c, s, n);
  }
}
