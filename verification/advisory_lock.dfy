/**
 The Postgres advisory lock object: a counter, a transaction that carries the session, and the
 holds which the server counts for that session. The lock is reentrant, and the transaction is
 committed when the counter comes back to zero.
 */
module AdvisoryLock {

  /** `open` says that the transaction is still there, `errors` counts the errors joined into
      `err`; `holds` and `commits` are the server's side. */
  datatype Lock = Lock(open: bool, count: nat, errors: nat, holds: nat, commits: nat)

  /** The server answers a call, or the call fails, in which case it may have been carried out. */
  datatype Reply = Answered | Failed(applied: bool) {
    predicate Applied() { Answered? || applied }
  }

  const FRESH := Lock(true, 0, 0, 0, 0)

  /** What is left at the end of every error-free use: nothing held, committed once. */
  const SPENT := Lock(false, 0, 0, 0, 1)

  /** A commit that fails leaves the transaction with the lock, for the next release to commit. */
  function Committed(l: Lock, ok: bool): Lock {
    if l.open && ok then l.(open := false, commits := l.commits + 1) else l
  }

  function Acquired(l: Lock, reply: Reply): Lock {
    match reply
    case Answered => l.(count := l.count + 1, holds := l.holds + 1)
    case Failed(applied) => l.(errors := l.errors + 1, holds := if applied then l.holds + 1 else l.holds)
  }

  /** The server gives up one hold, and says whether there was one; `commitOk` is for the commit that
      follows the last one. */
  function Released(l: Lock, reply: Reply, commitOk: bool): Lock {
    if l.count == 0 then Committed(l, commitOk)
    else
      match reply
      case Answered =>
        if l.holds == 0 then l
        else
          var l' := l.(count := l.count - 1, holds := l.holds - 1);
          if l'.count == 0 then Committed(l', commitOk) else l'
      case Failed(applied) =>
        l.(errors := l.errors + 1, holds := if applied && l.holds > 0 then l.holds - 1 else l.holds)
  }

  /** What every error-free use keeps: the two counters agree, and the transaction is gone if and
      only if it was committed, once, with nothing held. */
  predicate Sound(l: Lock) {
    l.errors == 0 ==>
      && l.count == l.holds
      && l.commits == (if l.open then 0 else 1)
      && (!l.open ==> l.count == 0)
  }

  // ---------------------------------------------------------------- sequences of calls

  datatype Call =
    | Acquire
    | TryAcquire(free: bool)
    | Release(commitOk: bool)
    | ReleaseAll(commitOk: bool)

  function ReleasedTimes(l: Lock, n: nat, commitOk: bool): Lock
    decreases n
  {
    if n == 0 then l else ReleasedTimes(Released(l, Answered, commitOk), n - 1, commitOk)
  }

  function Called(l: Lock, call: Call): Lock {
    match call
    case Acquire => Acquired(l, Answered)
    case TryAcquire(free) => if free then Acquired(l, Answered) else l
    case Release(commitOk) => Released(l, Answered, commitOk)
    case ReleaseAll(commitOk) => if l.count == 0 then Committed(l, commitOk) else ReleasedTimes(l, l.count, commitOk)
  }

  /** An acquiring call dereferences the transaction, so it must not come after the last release. */
  predicate Allowed(l: Lock, calls: seq<Call>)
    decreases |calls|
  {
    calls != [] ==>
      && (calls[0].Acquire? || calls[0].TryAcquire? ==> l.open)
      && Allowed(Called(l, calls[0]), calls[1..])
  }

  function AfterCalls(l: Lock, calls: seq<Call>): Lock
    decreases |calls|
  {
    if calls == [] then l else AfterCalls(Called(l, calls[0]), calls[1..])
  }

  /** Everything that is held is given up, and then committed if the commit succeeds. */
  lemma {:induction false} ReleasedTimesEnds(l: Lock, commitOk: bool)
    requires Sound(l) && l.errors == 0 && l.count > 0
    ensures ReleasedTimes(l, l.count, commitOk) == if commitOk then SPENT else FRESH
    decreases l.count
  {
    if l.count > 1 {
      ReleasedTimesEnds(Released(l, Answered, commitOk), commitOk);
    } else {
      assert ReleasedTimes(Released(l, Answered, commitOk), 0, commitOk) == Released(l, Answered, commitOk);
    }
  }

  /** Over any sequence of answered calls, with any commits that fail, the counters agree and the
      transaction is committed at most once; releasing everything, however much is held, ends with
      the one commit, or with nothing but that commit missing, which the next release makes up for;
      and after the commit releasing again changes nothing. */
  lemma {:induction false} CallsKeepSound(l: Lock, calls: seq<Call>, commitOk: bool)
    requires Sound(l) && l.errors == 0 && Allowed(l, calls)
    ensures var l' := AfterCalls(l, calls);
            && Sound(l') && l'.errors == 0
            && Called(l', ReleaseAll(true)) == SPENT
            && Called(Called(l', ReleaseAll(false)), Release(true)) == SPENT
            && (!l'.open ==> l' == SPENT && Called(l', Release(commitOk)) == l')
    decreases |calls|
  {
    if calls != [] {
      if calls[0].ReleaseAll? && l.count > 0 {
        ReleasedTimesEnds(l, calls[0].commitOk);
      }
      CallsKeepSound(Called(l, calls[0]), calls[1..], commitOk);
    } else if l.count > 0 {
      ReleasedTimesEnds(l, true);
      ReleasedTimesEnds(l, false);
    }
  }

  // ---------------------------------------------------------------- the object

  class PostgresAdvisoryLock {
    var open: bool
    var count: nat
    var errors: nat
    var holds: nat
    var commits: nat

    ghost function State(): Lock
      reads this
    {
      Lock(open, count, errors, holds, commits)
    }

    constructor ()
      ensures State() == FRESH
    {
      open, count, errors, holds, commits := true, 0, 0, 0, 0;
    }

    method Commit(ok: bool)
      modifies this
      ensures State() == Committed(old(State()), ok)
      ensures old(Sound(State())) && count == 0 ==> Sound(State())
    {
      if !open || !ok {
        return;
      }
      commits := commits + 1;
      open := false;
    }

    method Acquire(reply: Reply) returns (ok: bool)
      requires open
      modifies this
      ensures ok == reply.Answered?
      ensures State() == Acquired(old(State()), reply)
      ensures old(Sound(State())) ==> Sound(State())
    {
      if reply.Applied() {
        holds := holds + 1;
      }
      if reply.Failed? {
        errors := errors + 1;
        return false;
      }
      count := count + 1;
      ok := true;
    }

    /** `free` is the server's answer; it grants a lock that this session holds already. */
    method TryAcquire(reply: Reply, free: bool) returns (ok: bool)
      requires open && (holds > 0 ==> free)
      modifies this
      ensures ok == (free && reply.Answered?)
      ensures State() == if reply.Answered? && !free then old(State()) else
                         Acquired(old(State()), if free then reply else Failed(false))
      ensures old(Sound(State())) ==> Sound(State())
    {
      if free && reply.Applied() {
        holds := holds + 1;
      }
      if reply.Failed? {
        errors := errors + 1;
        return false;
      } else if !free {
        return false;
      }
      count := count + 1;
      ok := true;
    }

    method Release(reply: Reply, commitOk: bool) returns (ok: bool)
      modifies this
      ensures ok <==> old(count) > 0 && reply.Answered? && old(holds) > 0
      ensures State() == Released(old(State()), reply, commitOk)
      ensures old(Sound(State())) ==> Sound(State())
    {
      if count == 0 {
        Commit(commitOk);
        return false;
      }
      var released := holds > 0;
      if released && reply.Applied() {
        holds := holds - 1;
      }
      if reply.Failed? {
        errors := errors + 1;
        return false;
      } else if !released {
        return false;
      }
      count := count - 1;
      if count == 0 {
        Commit(commitOk);
      }
      ok := true;
    }

    /** One release for each acquisition, until one fails. */
    method ReleaseAll(replies: seq<Reply>, commitOk: bool) returns (ok: bool)
      requires Sound(State()) && |replies| >= count
      modifies this
      ensures Sound(State())
      ensures ok <==> old(count) > 0 && count == 0
      ensures old(errors) == 0 && (forall i :: 0 <= i < old(count) ==> replies[i] == Answered) ==>
                State() == Called(old(State()), Call.ReleaseAll(commitOk)) && (commitOk ==> State() == SPENT)
    {
      if count == 0 {
        Commit(commitOk);
        return false;
      }
      if errors == 0 {
        ReleasedTimesEnds(State(), commitOk);
      }
      var n := count;
      for i := 0 to n
        invariant Sound(State()) && count == n - i
        invariant old(errors) == 0 && (forall j :: 0 <= j < i ==> replies[j] == Answered) ==>
                    && errors == 0
                    && ReleasedTimes(State(), n - i, commitOk) == old(ReleasedTimes(State(), count, commitOk))
      {
        var released := Release(replies[i], commitOk);
        if !released {
          break;
        }
      }
      ok := count == 0;
    }
  }

  /** The replies to the scheduler's two releases, the explicit one of which it may not get to, and
      whether the commits behind them succeed. */
  datatype Releases = Releases(early: bool, first: Reply, firstCommit: bool, last: Reply, lastCommit: bool) {
    /** The job runs only after the explicit release has been answered. */
    predicate Runs() { early && first.Answered? }

    /** Some release has been carried out at the server. */
    predicate GivesUp() { (early && first.Applied()) || last.Applied() }

    /** The transaction is over. A release that was carried out and reported as failed keeps it open
        for good: the count is not zero, and the server has no hold left to release. */
    predicate Closes() {
      if Runs() then firstCommit || lastCommit
      else last.Answered? && lastCommit && !(early && first.Applied())
    }
  }

  function AfterFirst(rs: Releases): Lock {
    var l := Acquired(FRESH, Answered);
    if rs.early then Released(l, rs.first, rs.firstCommit) else l
  }

  function AfterReleases(rs: Releases): Lock {
    Released(AfterFirst(rs), rs.last, rs.lastCommit)
  }

  predicate IsOpen(l: Lock) {
    l.open && l.commits == 0
  }

  predicate IsClosed(l: Lock) {
    !l.open && l.commits == 1
  }

  lemma FirstReleaseEnds(rs: Releases)
    ensures rs.Runs() ==> AfterFirst(rs) == if rs.firstCommit then SPENT else FRESH
    ensures !rs.early ==> AfterFirst(rs) == Lock(true, 1, 0, 1, 0)
    ensures rs.early && !rs.first.Answered? ==> AfterFirst(rs) == Lock(true, 1, 1, if rs.first.applied then 0 else 1, 0)
  {
  }

  lemma LastReleaseEnds(l: Lock, reply: Reply, commitOk: bool)
    requires l.open && l.count == 1 && l.holds <= 1 && l.commits == 0
    ensures Released(l, reply, commitOk).holds == if reply.Applied() then 0 else l.holds
    ensures reply.Answered? && l.holds == 1 && commitOk ==> IsClosed(Released(l, reply, commitOk))
    ensures !(reply.Answered? && l.holds == 1 && commitOk) ==> IsOpen(Released(l, reply, commitOk))
  {
  }

  /** What is left of a lock that was acquired, whatever becomes of its releases: the hold remains
      only if none was carried out, and the transaction unless it was closed. */
  lemma ReleasesEnd(rs: Releases)
    ensures AfterReleases(rs).holds == if rs.GivesUp() then 0 else 1
    ensures if rs.Closes() then IsClosed(AfterReleases(rs)) else IsOpen(AfterReleases(rs))
    ensures rs.Runs() ==> AfterFirst(rs).holds == AfterFirst(rs).count == 0
    ensures rs.Runs() && rs.firstCommit ==> AfterFirst(rs) == AfterReleases(rs) == SPENT
  {
    FirstReleaseEnds(rs);
    if !rs.Runs() {
      LastReleaseEnds(AfterFirst(rs), rs.last, rs.lastCommit);
    }
  }

  /** How the scheduler uses the lock: one attempt, and if that fails or is not granted nothing more,
      so that the transaction begun for it stays open; otherwise an explicit release before the job
      runs (if it gets that far) and a deferred one. The deferred one changes nothing if the first one
      committed, and makes up for the commit if not. */
  method SchedulerUse(attempt: Reply, free: bool, rs: Releases)
    returns (lock: PostgresAdvisoryLock, acquired: bool, runs: bool, ghost before: Lock)
    ensures fresh(lock) && acquired == (free && attempt.Answered?) && runs == (acquired && rs.Runs())
    ensures !acquired ==> lock.open && lock.count == 0 && lock.commits == 0
    ensures !acquired ==> lock.holds == (if free && attempt == Failed(true) then 1 else 0)
    ensures acquired ==> before == AfterFirst(rs) && lock.State() == AfterReleases(rs)
  {
    lock := new PostgresAdvisoryLock();
    acquired := lock.TryAcquire(attempt, free);
    runs := false;
    before := lock.State();
    if acquired {
      if rs.early {
        runs := lock.Release(rs.first, rs.firstCommit);
        before := lock.State();
      }
      var deferred := lock.Release(rs.last, rs.lastCommit);
    }
  }
}
