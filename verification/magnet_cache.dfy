/**
 The magnet cache: a table of verdicts ("is this magnet cached at this store?"), a read cache in
 front of its queries and a write cache that suppresses writes which would change nothing. Times
 are in milliseconds; one process owns the table, and its operations do not overlap.
 */
module MagnetCache {
  const HOUR := 3600 * 1000
  const DAY := 24 * HOUR

  /** How long an entry of the write cache may be used. */
  const MARK_LIFETIME := 4 * HOUR

  /** How old a confirmed row may get before a touch writes it again. */
  const UPDATE_AFTER := DAY

  /** Store codes are a closed list of short words. */
  type StoreCode = s: string | ':' !in s witness "rd"

  datatype Row = Row(isCached: bool, modifiedAt: int)

  type Table = map<(StoreCode, string), Row>

  /** A row as the read cache keeps it. */
  datatype Entry = Entry(store: StoreCode, hash: string, row: Row)

  datatype Mark = Mark(isCached: bool, addedAt: int)

  datatype State = State(now: int, table: Table, read: map<string, Entry>, write: map<string, Mark>)

  /** Both caches use this key. */
  function CacheKey(store: StoreCode, hash: string): string {
    store + ":" + hash
  }

  lemma CacheKeyInjective(s: StoreCode, h: string, s': StoreCode, h': string)
    requires CacheKey(s, h) == CacheKey(s', h')
    ensures s == s' && h == h'
  {
    var key := CacheKey(s, h);
    assert key[|s|] == key[|s'|] == ':';
    assert forall i :: 0 <= i < |s| ==> s[i] == key[i];
    assert forall i :: 0 <= i < |s'| ==> s'[i] == key[i];
    assert s == key[..|s|] == s';
    assert h == key[|s| + 1..] == h';
  }

  // ---------------------------------------------------------------- writing

  /** The upsert of the program: insert, or update what differs or is old. */
  function UpsertedRow(table: Table, key: (StoreCode, string), isCached: bool, now: int): Row {
    if key in table && table[key].isCached == isCached && table[key].modifiedAt >= now - UPDATE_AFTER
    then table[key]
    else Row(isCached, now)
  }

  predicate Suppressed(st: State, key: string, isCached: bool) {
    key in st.write && st.now - st.write[key].addedAt <= MARK_LIFETIME && st.write[key].isCached == isCached
  }

  /** A write that is carried out: the row, then both caches. */
  function Forced(st: State, store: StoreCode, hash: string, isCached: bool): State {
    var key := CacheKey(store, hash);
    st.(
    table := st.table[(store, hash) := UpsertedRow(st.table, (store, hash), isCached, st.now)],
    write := st.write[key := Mark(isCached, st.now)],
    read := st.read - {key})
  }

  /** The database answers, or reports a failure, in which case it may have written all the same. */
  datatype Reply = Answered | Failed(applied: bool) {
    predicate Applied() { Answered? || applied }
  }

  /** After a failure the program leaves the caches as they are. */
  function Replied(st: State, forced: State, reply: Reply): State {
    match reply
    case Answered => forced
    case Failed(applied) => if applied then st.(table := forced.table) else st
  }

  function Touched(st: State, store: StoreCode, hash: string, isCached: bool, reply: Reply): State {
    if Suppressed(st, CacheKey(store, hash), isCached) then st
    else Replied(st, Forced(st, store, hash, isCached), reply)
  }

  /** One after the other, in the order of the list. */
  function ForcedAll(st: State, store: StoreCode, hashes: seq<string>, isCached: bool): State {
    if hashes == [] then st
    else
      var n := |hashes| - 1;
      Forced(ForcedAll(st, store, hashes[..n], isCached), store, hashes[n], isCached)
  }

  /** The hashes a bulk touch writes with this verdict, in the order in which the map yields them. */
  ghost predicate IsBatch(st: State, store: StoreCode, cached: map<string, bool>, isCached: bool, batch: seq<string>) {
    && (forall i, j :: 0 <= i < j < |batch| ==> batch[i] != batch[j])
    && (forall h :: h in batch <==>
          h in cached && cached[h] == isCached && !Suppressed(st, CacheKey(store, h), isCached))
  }

  /** Hits and misses go out in a statement each, and either may fail. */
  ghost predicate BulkTouched(
    st: State, store: StoreCode, cached: map<string, bool>, hitsReply: Reply, missesReply: Reply, st': State)
  {
    exists hits, misses ::
      && IsBatch(st, store, cached, true, hits)
      && IsBatch(st, store, cached, false, misses)
      && st' == AfterBatches(st, store, hits, misses, hitsReply, missesReply)
  }

  function AfterBatches(
    st: State, store: StoreCode, hits: seq<string>, misses: seq<string>, hitsReply: Reply, missesReply: Reply): State
  {
    var st1 := Replied(st, ForcedAll(st, store, hits, true), hitsReply);
    Replied(st1, ForcedAll(st1, store, misses, false), missesReply)
  }

  // ---------------------------------------------------------------- reading

  /** A query fills the read cache with the rows it had to fetch, and changes nothing else. */
  ghost predicate Fetched(st: State, store: StoreCode, hashes: seq<string>, st': State) {
    && st' == st.(read := st'.read)
    && (forall key :: key in st.read ==> key in st'.read && st'.read[key] == st.read[key])
    && (forall key :: key in st'.read && key !in st.read ==>
          exists h :: h in hashes && IsRowEntry(st.table, store, h, key, st'.read[key]))
  }

  predicate IsRowEntry(table: Table, store: StoreCode, hash: string, key: string, e: Entry) {
    (store, hash) in table && key == CacheKey(store, hash) && e == Entry(store, hash, table[(store, hash)])
  }

  /** What the caller gets for a row: the files that are known for its hash, by stream id. */
  datatype Info = Info(store: StoreCode, hash: string, row: Row, sids: seq<string>)

  function InfoOf(e: Entry, files: map<string, seq<string>>): Info {
    Info(e.store, e.hash, e.row, if e.hash in files then files[e.hash] else [])
  }

  predicate MatchesSidFilter(info: Info, sid: string) {
    sid == "" || !info.row.isCached || sid in info.sids || "*" in info.sids
  }

  function RowInfo(table: Table, store: StoreCode, hash: string, files: map<string, seq<string>>): Info
    requires (store, hash) in table
  {
    InfoOf(Entry(store, hash, table[(store, hash)]), files)
  }

  /** What a query without any cache returns. */
  ghost function Query(
    table: Table, store: StoreCode, hashes: set<string>, sid: string, files: map<string, seq<string>>): set<Info>
  {
    set h | h in hashes && (store, h) in table && MatchesSidFilter(RowInfo(table, store, h, files), sid)
      :: RowInfo(table, store, h, files)
  }

  /** The rows of the hashes, each with the known files of its hash: those that say "not cached" for
      every `sid`, the others if there is no `sid`, or a file for it, or one for all. */
  lemma QueryAnswers(
    table: Table, store: StoreCode, hashes: set<string>, sid: string, files: map<string, seq<string>>, info: Info)
    ensures info in Query(table, store, hashes, sid, files) <==>
            && info.hash in hashes && (store, info.hash) in table
            && info == Info(store, info.hash, table[(store, info.hash)],
                            if info.hash in files then files[info.hash] else [])
            && (!info.row.isCached || sid == "" || sid in info.sids || "*" in info.sids)
  {
  }

  // ---------------------------------------------------------------- the caches agree with the table

  ghost predicate Coherent(st: State) {
    && (forall key :: key in st.read ==>
          var e := st.read[key]; IsRowEntry(st.table, e.store, e.hash, key, e))
    && (forall s: StoreCode, h :: CacheKey(s, h) in st.write ==>
          var mark := st.write[CacheKey(s, h)];
          && (s, h) in st.table && st.table[(s, h)].isCached == mark.isCached
          && mark.addedAt - UPDATE_AFTER <= st.table[(s, h)].modifiedAt && mark.addedAt <= st.now)
    && (forall k :: k in st.table ==> st.table[k].modifiedAt <= st.now)
  }

  lemma ForcedKeepsCoherent(st: State, store: StoreCode, hash: string, isCached: bool)
    requires Coherent(st)
    ensures Coherent(Forced(st, store, hash, isCached))
  {
    var st' := Forced(st, store, hash, isCached);
    forall s: StoreCode, h | CacheKey(s, h) == CacheKey(store, hash) ensures s == store && h == hash {
      CacheKeyInjective(s, h, store, hash);
    }
  }

  lemma {:induction false} ForcedAllKeepsCoherent(st: State, store: StoreCode, hashes: seq<string>, isCached: bool)
    requires Coherent(st)
    ensures Coherent(ForcedAll(st, store, hashes, isCached))
  {
    if hashes != [] {
      var n := |hashes| - 1;
      ForcedAllKeepsCoherent(st, store, hashes[..n], isCached);
      ForcedKeepsCoherent(ForcedAll(st, store, hashes[..n], isCached), store, hashes[n], isCached);
    }
  }

  // ---------------------------------------------------------------- runs

  datatype Op =
    | Touch(store: StoreCode, hash: string, isCached: bool, reply: Reply)
    | BulkTouch(store: StoreCode, cached: map<string, bool>, hitsReply: Reply, missesReply: Reply)
    | GetByHashes(store: StoreCode, hashes: seq<string>)
    | Evict
    | Tick(d: nat)

  ghost predicate Next(st: State, op: Op, st': State) {
    match op
    case Touch(store, hash, isCached, reply) => st' == Touched(st, store, hash, isCached, reply)
    case BulkTouch(store, cached, hitsReply, missesReply) => BulkTouched(st, store, cached, hitsReply, missesReply, st')
    case GetByHashes(store, hashes) => Fetched(st, store, hashes, st')
    case Evict =>
      && st' == st.(read := st'.read, write := st'.write)
      && (forall key :: key in st'.read ==> key in st.read && st'.read[key] == st.read[key])
      && (forall key :: key in st'.write ==> key in st.write && st'.write[key] == st.write[key])
    case Tick(d) => st' == st.(now := st.now + d)
  }

  ghost predicate IsRun(states: seq<State>, ops: seq<Op>) {
    && |states| == |ops| + 1
    && states[0].read == map[] && states[0].write == map[]
    && (forall k :: k in states[0].table ==> states[0].table[k].modifiedAt <= states[0].now)
    && forall i :: 0 <= i < |ops| ==> Next(states[i], ops[i], states[i + 1])
  }

  /** A failure that is reported is one: the row was not written. */
  predicate IsClear(op: Op) {
    match op
    case Touch(_, _, _, reply) => reply != Failed(true)
    case BulkTouch(_, _, hitsReply, missesReply) => hitsReply != Failed(true) && missesReply != Failed(true)
    case _ => true
  }

  // ---------------------------------------------------------------- half-done writes

  /** What the caches hold for a key is right after its row has been written. */
  predicate IsRightAnyway(st: State, store: StoreCode, hash: string, isCached: bool) {
    var key, row := CacheKey(store, hash), UpsertedRow(st.table, (store, hash), isCached, st.now);
    && (key in st.read ==> st.read[key].row == row)
    && (key in st.write ==> st.write[key].isCached == isCached)
  }

  /** The table has the rows of a statement, and is otherwise as before. */
  ghost predicate HasWritten(st: State, store: StoreCode, hashes: seq<string>, isCached: bool, table: Table) {
    && (forall h :: h in hashes ==>
          (store, h) in table && table[(store, h)] == UpsertedRow(st.table, (store, h), isCached, st.now))
    && (forall s: StoreCode, h :: !(s == store && h in hashes) ==>
          ((s, h) in table <==> (s, h) in st.table) && ((s, h) in table ==> table[(s, h)] == st.table[(s, h)]))
  }

  /** Writing a row again in the same statement does nothing. */
  lemma {:induction false} ForcedAllHasWritten(st: State, store: StoreCode, hashes: seq<string>, isCached: bool)
    ensures HasWritten(st, store, hashes, isCached, ForcedAll(st, store, hashes, isCached).table)
    ensures ForcedAll(st, store, hashes, isCached).now == st.now
  {
    if hashes != [] {
      ForcedAllHasWritten(st, store, hashes[..|hashes| - 1], isCached);
    }
  }

  lemma RightEntryStays(st: State, store: StoreCode, hashes: seq<string>, isCached: bool, table: Table, key: string)
    requires Coherent(st) && HasWritten(st, store, hashes, isCached, table) && key in st.read
    ensures var e := st.read[key];
            IsRowEntry(table, e.store, e.hash, key, e)
            <==> (e.store == store && e.hash in hashes ==>
                    e.row == UpsertedRow(st.table, (store, e.hash), isCached, st.now))
  {
    var e := st.read[key];
    assert IsRowEntry(st.table, e.store, e.hash, key, e);
    assert (e.store, e.hash) in table;
  }

  lemma ReadOfKey(st: State, store: StoreCode, hash: string)
    requires Coherent(st) && CacheKey(store, hash) in st.read
    ensures var e := st.read[CacheKey(store, hash)]; e.store == store && e.hash == hash
  {
    var e := st.read[CacheKey(store, hash)];
    assert IsRowEntry(st.table, e.store, e.hash, CacheKey(store, hash), e);
    CacheKeyInjective(e.store, e.hash, store, hash);
  }

  ghost predicate ReadIsRight(st: State, table: Table) {
    forall key :: key in st.read ==> var e := st.read[key]; IsRowEntry(table, e.store, e.hash, key, e)
  }

  lemma ReadIsRightIff(st: State, store: StoreCode, hashes: seq<string>, isCached: bool, table: Table)
    requires Coherent(st) && HasWritten(st, store, hashes, isCached, table)
    ensures ReadIsRight(st, table)
       <==> forall h :: h in hashes && CacheKey(store, h) in st.read ==>
              st.read[CacheKey(store, h)].row == UpsertedRow(st.table, (store, h), isCached, st.now)
  {
    forall key | key in st.read
      ensures var e := st.read[key];
              && key == CacheKey(e.store, e.hash)
              && (IsRowEntry(table, e.store, e.hash, key, e)
                  <==> (e.store == store && e.hash in hashes ==>
                          e.row == UpsertedRow(st.table, (store, e.hash), isCached, st.now)))
    {
      var e := st.read[key];
      assert IsRowEntry(st.table, e.store, e.hash, key, e);
      RightEntryStays(st, store, hashes, isCached, table, key);
    }
    forall h | CacheKey(store, h) in st.read
      ensures var e := st.read[CacheKey(store, h)]; e.store == store && e.hash == h
    {
      ReadOfKey(st, store, h);
    }
  }

  ghost predicate WriteIsRight(st: State, table: Table) {
    forall s: StoreCode, h :: CacheKey(s, h) in st.write ==>
      var mark := st.write[CacheKey(s, h)];
      && (s, h) in table && table[(s, h)].isCached == mark.isCached
      && mark.addedAt - UPDATE_AFTER <= table[(s, h)].modifiedAt && mark.addedAt <= st.now
  }

  lemma WriteIsRightIff(st: State, store: StoreCode, hashes: seq<string>, isCached: bool, table: Table)
    requires Coherent(st) && HasWritten(st, store, hashes, isCached, table)
    ensures WriteIsRight(st, table)
       <==> forall h :: h in hashes && CacheKey(store, h) in st.write ==>
              st.write[CacheKey(store, h)].isCached == isCached
  {
    assert forall h :: h in hashes ==> table[(store, h)].isCached == isCached;
  }

  lemma HalfWrittenIff(st: State, store: StoreCode, hashes: seq<string>, isCached: bool, table: Table)
    requires Coherent(st) && HasWritten(st, store, hashes, isCached, table)
    ensures Coherent(st.(table := table)) <==> forall h :: h in hashes ==> IsRightAnyway(st, store, h, isCached)
  {
    ReadIsRightIff(st, store, hashes, isCached, table);
    WriteIsRightIff(st, store, hashes, isCached, table);
    forall k | k in table ensures table[k].modifiedAt <= st.now {
      assert k == (k.0, k.1);
      assert !(k.0 == store && k.1 in hashes) ==> table[k] == st.table[k];
    }
    assert Coherent(st.(table := table)) <==> ReadIsRight(st, table) && WriteIsRight(st, table);
  }

  /** A statement that is carried out and reported as failed leaves the caches in line with the table
      if and only if what they hold for each of its keys is right anyway. */
  lemma HalfBatchKeepsCoherentIff(st: State, store: StoreCode, hashes: seq<string>, isCached: bool)
    requires Coherent(st)
    ensures Coherent(Replied(st, ForcedAll(st, store, hashes, isCached), Failed(true)))
       <==> forall h :: h in hashes ==> IsRightAnyway(st, store, h, isCached)
  {
    ForcedAllHasWritten(st, store, hashes, isCached);
    HalfWrittenIff(st, store, hashes, isCached, ForcedAll(st, store, hashes, isCached).table);
  }

  /** The same for one touch, as when only counting its rows fails. */
  lemma HalfWriteKeepsCoherentIff(st: State, store: StoreCode, hash: string, isCached: bool)
    requires Coherent(st)
    ensures Coherent(Replied(st, Forced(st, store, hash, isCached), Failed(true)))
       <==> IsRightAnyway(st, store, hash, isCached)
  {
    HalfBatchKeepsCoherentIff(st, store, [hash], isCached);
    assert [hash][..0] == [] && ForcedAll(st, store, [], isCached) == st;
    assert ForcedAll(st, store, [hash], isCached) == Forced(st, store, hash, isCached);
    assert hash in [hash];
  }

  /** A statement with any reply. */
  lemma BatchKeepsCoherentIff(st: State, store: StoreCode, hashes: seq<string>, isCached: bool, reply: Reply)
    requires Coherent(st)
    ensures Coherent(Replied(st, ForcedAll(st, store, hashes, isCached), reply))
       <==> (reply == Failed(true) ==> forall h :: h in hashes ==> IsRightAnyway(st, store, h, isCached))
  {
    if reply == Failed(true) {
      HalfBatchKeepsCoherentIff(st, store, hashes, isCached);
    } else if reply == Answered {
      ForcedAllKeepsCoherent(st, store, hashes, isCached);
    }
  }

  /** Nothing has changed for a hash: neither its row nor what the caches hold for it. */
  predicate SameAt(st: State, st': State, store: StoreCode, hash: string) {
    var k, key := (store, hash), CacheKey(store, hash);
    && st'.now == st.now
    && (k in st'.table <==> k in st.table) && (k in st.table ==> st'.table[k] == st.table[k])
    && (key in st'.read <==> key in st.read) && (key in st.read ==> st'.read[key] == st.read[key])
    && (key in st'.write <==> key in st.write) && (key in st.write ==> st'.write[key] == st.write[key])
  }

  lemma ForcedIsSameAt(st: State, store: StoreCode, hash: string, isCached: bool, other: string)
    requires other != hash
    ensures SameAt(st, Forced(st, store, hash, isCached), store, other)
  {
    assert CacheKey(store, hash)[|store| + 1..] == hash && CacheKey(store, other)[|store| + 1..] == other;
  }

  lemma {:induction false} BatchIsSameAt(
    st: State, store: StoreCode, hashes: seq<string>, isCached: bool, reply: Reply, other: string)
    requires other !in hashes
    ensures SameAt(st, ForcedAll(st, store, hashes, isCached), store, other)
    ensures SameAt(st, Replied(st, ForcedAll(st, store, hashes, isCached), reply), store, other)
  {
    if hashes != [] {
      var n := |hashes| - 1;
      BatchIsSameAt(st, store, hashes[..n], isCached, reply, other);
      ForcedIsSameAt(ForcedAll(st, store, hashes[..n], isCached), store, hashes[n], isCached, other);
    }
  }

  /** A row that has been written behind the back of the caches stays wrong while only other hashes
      are written. */
  lemma StaysWrong(
    st: State, st1: State, st': State, store: StoreCode, hashes: seq<string>, isCached: bool, hash: string)
    requires Coherent(st) && HasWritten(st, store, hashes, isCached, st1.table) && st1 == st.(table := st1.table)
    requires hash in hashes && !IsRightAnyway(st, store, hash, isCached) && SameAt(st1, st', store, hash)
    ensures !Coherent(st')
  {
    var key := CacheKey(store, hash);
    if key in st.read {
      ReadOfKey(st, store, hash);
    }
    assert st'.table[(store, hash)].isCached == isCached;
  }

  /** Half-done statements of a bulk touch, of which there may be two. */
  predicate IsHarmlessBulk(
    st: State, store: StoreCode, cached: map<string, bool>, hitsReply: Reply, missesReply: Reply)
  {
    forall h :: h in cached && !Suppressed(st, CacheKey(store, h), cached[h]) ==>
      ((if cached[h] then hitsReply else missesReply) == Failed(true) ==> IsRightAnyway(st, store, h, cached[h]))
  }

  lemma MissesAreRightIff(st: State, store: StoreCode, hits: seq<string>, hitsReply: Reply, misses: seq<string>)
    requires forall h :: h in misses ==> h !in hits
    ensures var st1 := Replied(st, ForcedAll(st, store, hits, true), hitsReply);
            forall h :: h in misses ==> (IsRightAnyway(st1, store, h, false) <==> IsRightAnyway(st, store, h, false))
  {
    forall h | h in misses
      ensures var st1 := Replied(st, ForcedAll(st, store, hits, true), hitsReply);
              IsRightAnyway(st1, store, h, false) <==> IsRightAnyway(st, store, h, false)
    {
      BatchIsSameAt(st, store, hits, true, hitsReply, h);
    }
  }

  lemma WrongHitsStayWrong(
    st: State, store: StoreCode, hits: seq<string>, misses: seq<string>, missesReply: Reply, hash: string)
    requires Coherent(st) && hash in hits && hash !in misses && !IsRightAnyway(st, store, hash, true)
    ensures !Coherent(AfterBatches(st, store, hits, misses, Failed(true), missesReply))
  {
    var st1 := Replied(st, ForcedAll(st, store, hits, true), Failed(true));
    ForcedAllHasWritten(st, store, hits, true);
    BatchIsSameAt(st1, store, misses, false, missesReply, hash);
    StaysWrong(st, st1, AfterBatches(st, store, hits, misses, Failed(true), missesReply), store, hits, true, hash);
  }

  lemma BulkKeepsCoherentIff(
    st: State, store: StoreCode, cached: map<string, bool>, hits: seq<string>, misses: seq<string>,
    hitsReply: Reply, missesReply: Reply)
    requires Coherent(st)
    requires IsBatch(st, store, cached, true, hits) && IsBatch(st, store, cached, false, misses)
    ensures Coherent(AfterBatches(st, store, hits, misses, hitsReply, missesReply))
       <==> IsHarmlessBulk(st, store, cached, hitsReply, missesReply)
  {
    var st1 := Replied(st, ForcedAll(st, store, hits, true), hitsReply);
    BatchKeepsCoherentIff(st, store, hits, true, hitsReply);
    MissesAreRightIff(st, store, hits, hitsReply, misses);
    if Coherent(st1) {
      BatchKeepsCoherentIff(st1, store, misses, false, missesReply);
    } else {
      var h :| h in hits && !IsRightAnyway(st, store, h, true);
      WrongHitsStayWrong(st, store, hits, misses, missesReply, h);
    }
  }

  /** What the caches hold for the keys of a half-done write is right anyway. */
  predicate IsHarmless(st: State, op: Op) {
    match op
    case Touch(store, hash, isCached, reply) =>
      reply == Failed(true) && !Suppressed(st, CacheKey(store, hash), isCached) ==>
        IsRightAnyway(st, store, hash, isCached)
    case BulkTouch(store, cached, hitsReply, missesReply) => IsHarmlessBulk(st, store, cached, hitsReply, missesReply)
    case _ => true
  }

  /** Every operation keeps the caches in line with the table if and only if its half-done writes,
      if there are any, are harmless. */
  lemma NextKeepsCoherentIff(st: State, op: Op, st': State)
    requires Coherent(st) && Next(st, op, st')
    ensures Coherent(st') <==> IsHarmless(st, op)
  {
    match op
    case Touch(store, hash, isCached, _) =>
      ForcedKeepsCoherent(st, store, hash, isCached);
      HalfWriteKeepsCoherentIff(st, store, hash, isCached);
    case BulkTouch(store, cached, hitsReply, missesReply) =>
      var hits, misses :|
        && IsBatch(st, store, cached, true, hits) && IsBatch(st, store, cached, false, misses)
        && st' == AfterBatches(st, store, hits, misses, hitsReply, missesReply);
      BulkKeepsCoherentIff(st, store, cached, hits, misses, hitsReply, missesReply);
    case GetByHashes(store, hashes) =>
    case Evict =>
    case Tick(d) =>
  }

  // ---------------------------------------------------------------- rows do not get older

  /** No row is from the future, and a mark says that its row was young enough when it was made,
      whatever verdict the row has by now. */
  ghost predicate Fresh(st: State) {
    && (forall k :: k in st.table ==> st.table[k].modifiedAt <= st.now)
    && (forall s: StoreCode, h :: CacheKey(s, h) in st.write ==>
          var mark := st.write[CacheKey(s, h)];
          && (s, h) in st.table
          && mark.addedAt - UPDATE_AFTER <= st.table[(s, h)].modifiedAt && mark.addedAt <= st.now)
  }

  /** Rows stay, and none is modified earlier than it was. */
  ghost predicate NoneOlder(table: Table, table': Table) {
    forall k :: k in table ==> k in table' && table[k].modifiedAt <= table'[k].modifiedAt
  }

  lemma ForcedKeepsFresh(st: State, store: StoreCode, hash: string, isCached: bool)
    requires Fresh(st)
    ensures Fresh(Forced(st, store, hash, isCached))
    ensures NoneOlder(st.table, Forced(st, store, hash, isCached).table)
  {
    forall s: StoreCode, h | CacheKey(s, h) == CacheKey(store, hash) ensures s == store && h == hash {
      CacheKeyInjective(s, h, store, hash);
    }
  }

  lemma {:induction false} ForcedAllKeepsFresh(st: State, store: StoreCode, hashes: seq<string>, isCached: bool)
    requires Fresh(st)
    ensures var st' := ForcedAll(st, store, hashes, isCached);
            Fresh(st') && st'.now == st.now && NoneOlder(st.table, st'.table)
  {
    if hashes != [] {
      var n := |hashes| - 1;
      ForcedAllKeepsFresh(st, store, hashes[..n], isCached);
      ForcedKeepsFresh(ForcedAll(st, store, hashes[..n], isCached), store, hashes[n], isCached);
    }
  }

  /** Whatever is reported of a write, and whether it was carried out or not. */
  lemma RepliedKeepsFresh(st: State, forced: State, reply: Reply)
    requires Fresh(st) && Fresh(forced) && forced.now == st.now && NoneOlder(st.table, forced.table)
    ensures Fresh(Replied(st, forced, reply))
  {
  }

  lemma NextKeepsFresh(st: State, op: Op, st': State)
    requires Fresh(st) && Next(st, op, st')
    ensures Fresh(st')
  {
    match op
    case Touch(store, hash, isCached, reply) =>
      ForcedKeepsFresh(st, store, hash, isCached);
      RepliedKeepsFresh(st, Forced(st, store, hash, isCached), reply);
    case BulkTouch(store, cached, hitsReply, missesReply) =>
      var hits, misses :|
        && IsBatch(st, store, cached, true, hits) && IsBatch(st, store, cached, false, misses)
        && st' == AfterBatches(st, store, hits, misses, hitsReply, missesReply);
      ForcedAllKeepsFresh(st, store, hits, true);
      RepliedKeepsFresh(st, ForcedAll(st, store, hits, true), hitsReply);
      var st1 := Replied(st, ForcedAll(st, store, hits, true), hitsReply);
      ForcedAllKeepsFresh(st1, store, misses, false);
      RepliedKeepsFresh(st1, ForcedAll(st1, store, misses, false), missesReply);
    case GetByHashes(store, hashes) =>
    case Evict =>
    case Tick(d) =>
  }

  lemma {:induction false} RunIsFresh(states: seq<State>, ops: seq<Op>, i: nat)
    requires IsRun(states, ops) && i <= |ops|
    ensures Fresh(states[i])
  {
    if i > 0 {
      RunIsFresh(states, ops, i - 1);
      NextKeepsFresh(states[i - 1], ops[i - 1], states[i]);
    }
  }

  // ---------------------------------------------------------------- an implementation without caches

  type Verdicts = map<(StoreCode, string), bool>

  /** The verdicts a table holds. */
  function VerdictsOf(table: Table): Verdicts {
    map k | k in table :: table[k].isCached
  }

  /** The verdicts of one kind that a bulk touch brings. */
  function AllWith(store: StoreCode, cached: map<string, bool>, isCached: bool): Verdicts {
    map h | h in cached && cached[h] == isCached :: (store, h) := isCached
  }

  /** What the operation does to the verdicts when every touch that succeeds is written. */
  function Plain(op: Op, v: Verdicts): Verdicts {
    match op
    case Touch(store, hash, isCached, reply) => if reply.Applied() then v[(store, hash) := isCached] else v
    case BulkTouch(store, cached, hitsReply, missesReply) =>
      var v1 := if hitsReply.Applied() then v + AllWith(store, cached, true) else v;
      if missesReply.Applied() then v1 + AllWith(store, cached, false) else v1
    case _ => v
  }

  /** The same verdict for several hashes. */
  function Uniform(store: StoreCode, hashes: seq<string>, isCached: bool): Verdicts {
    map h | h in hashes :: (store, h) := isCached
  }

  lemma UniformSnoc(store: StoreCode, hashes: seq<string>, hash: string, isCached: bool)
    ensures Uniform(store, hashes + [hash], isCached) == Uniform(store, hashes, isCached)[(store, hash) := isCached]
  {
    var a, b := Uniform(store, hashes + [hash], isCached), Uniform(store, hashes, isCached)[(store, hash) := isCached];
    forall k ensures k in a <==> k in b {
      assert k in a <==> k == (store, k.1) && (k.1 in hashes || k.1 == hash);
    }
  }

  lemma UpdateAfterMerge(v: Verdicts, w: Verdicts, k: (StoreCode, string), b: bool)
    ensures (v + w)[k := b] == v + w[k := b]
  {
  }

  lemma ForcedVerdict(st: State, store: StoreCode, hash: string, isCached: bool)
    ensures VerdictsOf(Forced(st, store, hash, isCached).table) == VerdictsOf(st.table)[(store, hash) := isCached]
  {
  }

  lemma {:induction false} ForcedAllVerdicts(st: State, store: StoreCode, hashes: seq<string>, isCached: bool)
    ensures VerdictsOf(ForcedAll(st, store, hashes, isCached).table)
         == VerdictsOf(st.table) + Uniform(store, hashes, isCached)
  {
    if hashes != [] {
      var n := |hashes| - 1;
      assert hashes == hashes[..n] + [hashes[n]];
      ForcedAllVerdicts(st, store, hashes[..n], isCached);
      ForcedVerdict(ForcedAll(st, store, hashes[..n], isCached), store, hashes[n], isCached);
      UniformSnoc(store, hashes[..n], hashes[n], isCached);
      UpdateAfterMerge(VerdictsOf(st.table), Uniform(store, hashes[..n], isCached), (store, hashes[n]), isCached);
    }
  }

  /** A suppressed touch would have changed no verdict. */
  lemma SuppressedIsRedundant(st: State, store: StoreCode, hash: string, isCached: bool)
    requires Coherent(st) && Suppressed(st, CacheKey(store, hash), isCached)
    ensures (store, hash) in VerdictsOf(st.table) && VerdictsOf(st.table)[(store, hash)] == isCached
  {
  }

  /** On the hashes with this verdict, `v` is as good as the table. */
  ghost predicate StillHolds(st: State, store: StoreCode, cached: map<string, bool>, isCached: bool, v: Verdicts) {
    forall h :: h in cached && cached[h] == isCached && (store, h) in st.table ==>
      (store, h) in v && v[(store, h)] == st.table[(store, h)].isCached
  }

  /** The verdicts of a batch are those of all hashes with that verdict: the ones left out are
      suppressed, so the table says so already. */
  lemma BatchVerdicts(
    st: State, store: StoreCode, cached: map<string, bool>, isCached: bool, batch: seq<string>, v: Verdicts)
    requires Coherent(st) && IsBatch(st, store, cached, isCached, batch)
    requires StillHolds(st, store, cached, isCached, v)
    ensures v + Uniform(store, batch, isCached)
         == v + AllWith(store, cached, isCached)
  {
    var a, b := Uniform(store, batch, isCached), AllWith(store, cached, isCached);
    forall h | h in cached && cached[h] == isCached && h !in batch
      ensures (store, h) in v && v[(store, h)] == isCached
    {
      SuppressedIsRedundant(st, store, h, isCached);
    }
    forall k ensures k in v + a <==> k in v + b {
      assert k in a <==> k == (store, k.1) && k.1 in batch;
      assert k in b <==> k == (store, k.1) && k.1 in cached && cached[k.1] == isCached;
    }
  }

  lemma HitsLeaveMisses(st: State, store: StoreCode, cached: map<string, bool>)
    ensures StillHolds(st, store, cached, true, VerdictsOf(st.table))
    ensures StillHolds(st, store, cached, false, VerdictsOf(st.table))
    ensures StillHolds(st, store, cached, false, VerdictsOf(st.table) + AllWith(store, cached, true))
  {
  }

  /** A bulk touch writes, in effect, all its verdicts. */
  lemma BulkTouchIsPlain(
    st: State, store: StoreCode, cached: map<string, bool>, hits: seq<string>, misses: seq<string>,
    hitsReply: Reply, missesReply: Reply)
    requires Coherent(st)
    requires IsBatch(st, store, cached, true, hits) && IsBatch(st, store, cached, false, misses)
    ensures VerdictsOf(AfterBatches(st, store, hits, misses, hitsReply, missesReply).table)
         == Plain(BulkTouch(store, cached, hitsReply, missesReply), VerdictsOf(st.table))
  {
    HitsLeaveMisses(st, store, cached);
    var v := VerdictsOf(st.table);
    if hitsReply.Applied() {
      ForcedAllVerdicts(st, store, hits, true);
      BatchVerdicts(st, store, cached, true, hits, v);
      v := v + AllWith(store, cached, true);
    }
    if missesReply.Applied() {
      ForcedAllVerdicts(Replied(st, ForcedAll(st, store, hits, true), hitsReply), store, misses, false);
      BatchVerdicts(st, store, cached, false, misses, v);
    }
  }

  lemma NextIsPlain(st: State, op: Op, st': State)
    requires Coherent(st) && Next(st, op, st')
    ensures VerdictsOf(st'.table) == Plain(op, VerdictsOf(st.table))
  {
    match op
    case Touch(store, hash, isCached, _) =>
      if Suppressed(st, CacheKey(store, hash), isCached) {
        SuppressedIsRedundant(st, store, hash, isCached);
      } else {
        ForcedVerdict(st, store, hash, isCached);
      }
    case BulkTouch(store, cached, hitsReply, missesReply) =>
      var hits, misses :|
        && IsBatch(st, store, cached, true, hits) && IsBatch(st, store, cached, false, misses)
        && st' == AfterBatches(st, store, hits, misses, hitsReply, missesReply);
      BulkTouchIsPlain(st, store, cached, hits, misses, hitsReply, missesReply);
    case _ =>
  }

  /** The verdicts of an implementation without caches, after a number of operations. */
  function PlainRun(v: Verdicts, ops: seq<Op>): Verdicts {
    if ops == [] then v else Plain(ops[|ops| - 1], PlainRun(v, ops[..|ops| - 1]))
  }

  /** Up to here every half-done write has been harmless. */
  ghost predicate IsHarmlessRun(states: seq<State>, ops: seq<Op>, i: nat)
    requires i <= |ops| && |states| == |ops| + 1
  {
    forall j :: 0 <= j < i ==> IsHarmless(states[j], ops[j])
  }

  /** The caches agree with the table all along a run, with any evictions, if and only if the
      half-done writes in it are harmless. */
  lemma {:induction false} CoherentIffHarmless(states: seq<State>, ops: seq<Op>, i: nat)
    requires IsRun(states, ops) && i <= |ops|
    ensures (forall j :: 0 <= j <= i ==> Coherent(states[j])) <==> IsHarmlessRun(states, ops, i)
  {
    if i > 0 {
      CoherentIffHarmless(states, ops, i - 1);
      if Coherent(states[i - 1]) {
        NextKeepsCoherentIff(states[i - 1], ops[i - 1], states[i]);
      }
    }
  }

  /** In every such run, and so in every one without half-done writes, the caches agree with the table
      and the table holds the verdicts that an implementation without caches would hold. */
  lemma {:induction false} CachesAreTransparent(states: seq<State>, ops: seq<Op>, i: nat)
    requires IsRun(states, ops) && i <= |ops| && IsHarmlessRun(states, ops, i)
    ensures Coherent(states[i])
    ensures VerdictsOf(states[i].table) == PlainRun(VerdictsOf(states[0].table), ops[..i])
  {
    CoherentIffHarmless(states, ops, i);
    if i > 0 {
      CachesAreTransparent(states, ops, i - 1);
      NextIsPlain(states[i - 1], ops[i - 1], states[i]);
      assert ops[..i][..i - 1] == ops[..i - 1];
    }
  }

  lemma ClearIsHarmless(st: State, op: Op)
    requires IsClear(op)
    ensures IsHarmless(st, op)
  {
  }

  /** A touch without error confirms its row, whatever came before, half-done writes included:
      afterwards the row is there and at most 28 hours old, also when the write was suppressed. */
  lemma TouchConfirms(states: seq<State>, ops: seq<Op>, i: nat)
    requires IsRun(states, ops) && i < |ops|
    requires ops[i].Touch? && ops[i].reply.Answered?
    ensures var key := (ops[i].store, ops[i].hash);
            && key in states[i + 1].table
            && states[i + 1].table[key].modifiedAt >= states[i + 1].now - 28 * 3600 * 1000
  {
    RunIsFresh(states, ops, i);
  }

  /** It has the verdict too, if the half-done writes before have been harmless. */
  lemma TouchSettles(states: seq<State>, ops: seq<Op>, i: nat)
    requires IsRun(states, ops) && i < |ops| && IsHarmlessRun(states, ops, i)
    requires ops[i].Touch? && ops[i].reply.Answered?
    ensures var key := (ops[i].store, ops[i].hash);
            key in states[i + 1].table && states[i + 1].table[key].isCached == ops[i].isCached
  {
    CachesAreTransparent(states, ops, i);
  }

  /** The bound is met: a row can be that old after a touch. */
  lemma TouchConfirmsNoCloser(store: StoreCode, hash: string) returns (states: seq<State>, ops: seq<Op>)
    ensures IsRun(states, ops) && ops != []
    ensures ops[|ops| - 1] == Touch(store, hash, true, Answered) && forall j :: 0 <= j < |ops| ==> IsClear(ops[j])
    ensures (store, hash) in states[|ops|].table
    ensures states[|ops|].table[(store, hash)].modifiedAt == states[|ops|].now - 28 * 3600 * 1000
  {
    var touch := Touch(store, hash, true, Answered);
    var s0 := State(0, map[], map[], map[]);
    var s1 := Touched(s0, store, hash, true, Answered);
    var s2 := s1.(now := UPDATE_AFTER);
    var s3 := Touched(s2, store, hash, true, Answered);
    var s4 := s3.(now := UPDATE_AFTER + MARK_LIFETIME);
    var s5 := Touched(s4, store, hash, true, Answered);
    states := [s0, s1, s2, s3, s4, s5];
    ops := [touch, Tick(UPDATE_AFTER), touch, Tick(MARK_LIFETIME), touch];
  }

  /** Half-done writes do harm: after one, a later touch with the old verdict is suppressed, and the
      table keeps a verdict that an implementation without caches would have put right. */
  lemma HalfWriteDeceives(store: StoreCode, hash: string) returns (states: seq<State>, ops: seq<Op>)
    ensures IsRun(states, ops) && ops != []
    ensures ops[|ops| - 1] == Touch(store, hash, true, Answered)
    ensures var key := (store, hash);
            && PlainRun(VerdictsOf(states[0].table), ops) == map[key := true]
            && VerdictsOf(states[|ops|].table) == map[key := false]
  {
    var hit, miss := Touch(store, hash, true, Answered), Touch(store, hash, false, Failed(true));
    var s0 := State(0, map[], map[], map[]);
    var s1 := Touched(s0, store, hash, true, Answered);
    var s2 := Touched(s1, store, hash, false, Failed(true));
    states, ops := [s0, s1, s2, s2], [hit, miss, hit];
    assert ops[..2] == [hit, miss] && [hit, miss][..1] == [hit] && [hit][..0] == [];
    assert PlainRun(map[], [hit]) == map[(store, hash) := true];
    assert PlainRun(map[], [hit, miss]) == map[(store, hash) := false];
  }
}
