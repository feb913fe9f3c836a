/**
 The magnet cache as the program runs it: the table and the two shared caches, and the loops that
 fill and drain them. Every method is proved to make the step of the model that bears its name.
 */
module MagnetCacheStore {
  import opened MagnetCache
  import opened Wrappers

  predicate Distinct<T(==)>(s: seq<T>) {
    forall i, j :: 0 <= i < j < |s| ==> s[i] != s[j]
  }

  ghost function Elements<T>(s: seq<T>): set<T> {
    set x | x in s
  }

  /** A bulk touch counts a hash with files as cached, whatever the caller says. */
  function Marked(cached: map<string, bool>, filesByHash: map<string, seq<string>>): map<string, bool> {
    cached + map h | h in filesByHash && filesByHash[h] != [] :: true
  }

  /** The effect of a multi-row upsert on the table. */
  function UpsertedAll(table: Table, store: StoreCode, hashes: seq<string>, isCached: bool, now: int): Table {
    if hashes == [] then table
    else
      var n := |hashes| - 1;
      var t := UpsertedAll(table, store, hashes[..n], isCached, now);
      t[(store, hashes[n]) := UpsertedRow(t, (store, hashes[n]), isCached, now)]
  }

  /** Its effect on the caches afterwards, key by key. */
  function RemarkedAll(
    st: State, store: StoreCode, hashes: seq<string>, isCached: bool): (map<string, Mark>, map<string, Entry>)
  {
    if hashes == [] then (st.write, st.read)
    else
      var n := |hashes| - 1;
      var (write, read) := RemarkedAll(st, store, hashes[..n], isCached);
      var key := CacheKey(store, hashes[n]);
      (write[key := Mark(isCached, st.now)], read - {key})
  }

  /** One statement for all rows and a loop over the caches do what row by row would. */
  lemma {:induction false} StatementThenCaches(st: State, store: StoreCode, hashes: seq<string>, isCached: bool)
    ensures var (write, read) := RemarkedAll(st, store, hashes, isCached);
            ForcedAll(st, store, hashes, isCached)
            == State(st.now, UpsertedAll(st.table, store, hashes, isCached, st.now), read, write)
  {
    if hashes != [] {
      StatementThenCaches(st, store, hashes[..|hashes| - 1], isCached);
    }
  }

  lemma QuerySnoc(
    table: Table, store: StoreCode, hashes: set<string>, hash: string, sid: string, files: map<string, seq<string>>)
    ensures Query(table, store, hashes + {hash}, sid, files)
         == Query(table, store, hashes, sid, files) + Query(table, store, {hash}, sid, files)
  {
  }

  lemma ElementsSnoc<T>(s: seq<T>, x: T)
    ensures Elements(s + [x]) == Elements(s) + {x}
  {
  }

  lemma DistinctFront<T>(s: seq<T>, x: T)
    ensures Distinct(s + [x]) <==> Distinct(s) && x !in s
  {
    assert forall i :: 0 <= i < |s| ==> (s + [x])[i] == s[i];
    assert (s + [x])[|s|] == x;
  }

  lemma MoveElement<T>(done: set<T>, pending: set<T>, x: T)
    requires x in pending
    ensures (done + {x}) + (pending - {x}) == done + pending
  {
  }

  /** A row whose hash has not been answered yet repeats nothing. */
  lemma StaysDistinct(mcs: seq<Info>, more: seq<Info>, hash: string, pending: set<string>)
    requires Distinct(mcs) && hash in pending && forall m :: m in mcs ==> m.hash !in pending
    requires more == mcs || (|more| == |mcs| + 1 && more[..|mcs|] == mcs && more[|mcs|].hash == hash)
    ensures Distinct(more) && forall m :: m in more ==> m.hash !in pending - {hash}
  {
    if more != mcs {
      assert more == mcs + [more[|mcs|]];
    }
  }

  /** A fetched row may enter the read cache under its key. */
  lemma FetchedStep(st: State, store: StoreCode, hashes: seq<string>, st': State, hash: string)
    requires Fetched(st, store, hashes, st')
    requires hash in hashes && (store, hash) in st.table && CacheKey(store, hash) !in st.read
    ensures var key := CacheKey(store, hash);
            Fetched(st, store, hashes, st'.(read := st'.read[key := Entry(store, hash, st.table[(store, hash)])]))
  {
    var key, e := CacheKey(store, hash), Entry(store, hash, st.table[(store, hash)]);
    assert IsRowEntry(st.table, store, hash, key, e);
  }

  /** A map of verdicts that the caller and the bulk touch share. */
  class VerdictMap {
    var entries: map<string, bool>

    constructor ()
      ensures entries == map[]
    {
      entries := map[];
    }

    /** The loop over the files, in any order. */
    method Mark(filesByHash: map<string, seq<string>>)
      modifies this
      ensures entries == Marked(old(entries), filesByHash)
      ensures forall h :: h in filesByHash && filesByHash[h] != [] ==> h in entries && entries[h]
      ensures forall h :: !(h in filesByHash && filesByHash[h] != []) ==>
                (h in entries <==> h in old(entries)) && (h in entries ==> entries[h] == old(entries)[h])
    {
      var pending := filesByHash.Keys;
      while pending != {}
        invariant pending <= filesByHash.Keys
        invariant entries == Marked(old(entries), filesByHash - pending)
        decreases |pending|
      {
        var hash :| hash in pending;
        MarkedStep(old(entries), filesByHash, pending, hash);
        if |filesByHash[hash]| > 0 {
          entries := entries[hash := true];
        }
        pending := pending - {hash};
      }
      assert filesByHash - {} == filesByHash;
    }
  }

  /** One more hash has been looked at. */
  lemma MarkedStep(cached: map<string, bool>, filesByHash: map<string, seq<string>>, pending: set<string>, hash: string)
    requires hash in pending && pending <= filesByHash.Keys
    ensures Marked(cached, filesByHash - (pending - {hash}))
         == if filesByHash[hash] != [] then Marked(cached, filesByHash - pending)[hash := true]
            else Marked(cached, filesByHash - pending)
  {
  }

  class Store {
    var now: int
    var table: Table
    var read: map<string, Entry>
    var write: map<string, Mark>

    ghost function Snapshot(): State
      reads this
    {
      State(now, table, read, write)
    }

    /** Whether the write cache makes the write needless. */
    predicate IsSuppressed(key: string, isCached: bool)
      reads this
      ensures IsSuppressed(key, isCached) == Suppressed(Snapshot(), key, isCached)
    {
      key in write && now - write[key].addedAt <= MARK_LIFETIME && write[key].isCached == isCached
    }

    method Touch(store: StoreCode, hash: string, isCached: bool, reply: Reply)
      modifies this
      ensures Snapshot() == Touched(old(Snapshot()), store, hash, isCached, reply)
    {
      var cacheKey := CacheKey(store, hash);
      if !IsSuppressed(cacheKey, isCached) {
        if reply.Applied() {
          table := table[(store, hash) := UpsertedRow(table, (store, hash), isCached, now)];
        }
        if reply.Failed? {
          return;
        }
        write := write[cacheKey := Mark(isCached, now)];
        read := read - {cacheKey};
      }
    }

    /** One statement, and if it succeeds the caches of all its keys. */
    method WriteBatch(store: StoreCode, hashes: seq<string>, isCached: bool, reply: Reply)
      modifies this
      ensures var st := old(Snapshot());
              Snapshot() == Replied(st, ForcedAll(st, store, hashes, isCached), reply)
    {
      if |hashes| == 0 {
        return;
      }
      ghost var st := Snapshot();
      StatementThenCaches(st, store, hashes, isCached);
      if reply.Applied() {
        table := UpsertedAll(table, store, hashes, isCached, now);
      }
      if reply.Failed? {
        return;
      }
      for i := 0 to |hashes|
        invariant now == st.now && table == UpsertedAll(st.table, store, hashes, isCached, now)
        invariant (write, read) == RemarkedAll(st, store, hashes[..i], isCached)
      {
        assert hashes[..i + 1][..i] == hashes[..i];
        var key := CacheKey(store, hashes[i]);
        write := write[key := Mark(isCached, now)];
        read := read - {key};
      }
      assert hashes[..|hashes|] == hashes;
    }

    /** Hits first, then misses. */
    method WriteBatches(
      store: StoreCode, verdicts: map<string, bool>, hits: seq<string>, misses: seq<string>, hitsReply: Reply,
      missesReply: Reply)
      requires IsBatch(Snapshot(), store, verdicts, true, hits) && IsBatch(Snapshot(), store, verdicts, false, misses)
      modifies this
      ensures BulkTouched(old(Snapshot()), store, verdicts, hitsReply, missesReply, Snapshot())
    {
      WriteBatch(store, hits, true, hitsReply);
      WriteBatch(store, misses, false, missesReply);
    }

    /** The caller's map, if there is one, gains the hashes with files. */
    method BulkTouch(
      store: StoreCode, filesByHash: map<string, seq<string>>, cached: VerdictMap?, hitsReply: Reply,
      missesReply: Reply)
      modifies this, cached
      ensures var given := if cached == null then map[] else old(cached.entries);
              && (cached != null ==> cached.entries == Marked(given, filesByHash))
              && BulkTouched(old(Snapshot()), store, Marked(given, filesByHash), hitsReply, missesReply, Snapshot())
    {
      var verdicts := cached;
      if verdicts == null {
        verdicts := new VerdictMap();
      }
      verdicts.Mark(filesByHash);
      var hits, misses := ClassifyForBulk(store, verdicts.entries);
      WriteBatches(store, verdicts.entries, hits, misses, hitsReply, missesReply);
    }

    /** The loop over the map: what is not suppressed goes into one of two statements. */
    method ClassifyForBulk(store: StoreCode, verdicts: map<string, bool>)
      returns (hits: seq<string>, misses: seq<string>)
      ensures IsBatch(Snapshot(), store, verdicts, true, hits)
      ensures IsBatch(Snapshot(), store, verdicts, false, misses)
    {
      hits, misses := [], [];
      var pending := verdicts.Keys;
      while pending != {}
        invariant pending <= verdicts.Keys
        invariant Distinct(hits) && Distinct(misses)
        invariant forall h :: h in hits <==>
                    h in verdicts && h !in pending && verdicts[h] && !Suppressed(Snapshot(), CacheKey(store, h), true)
        invariant forall h :: h in misses <==>
                    h in verdicts && h !in pending && !verdicts[h] && !Suppressed(Snapshot(), CacheKey(store, h), false)
        decreases |pending|
      {
        var hash :| hash in pending;
        pending := pending - {hash};
        if IsSuppressed(CacheKey(store, hash), verdicts[hash]) {
          continue;
        }
        if !verdicts[hash] {
          misses := misses + [hash];
        } else {
          hits := hits + [hash];
        }
      }
    }

    /** Hits from the read cache, then a query for the rest, which may break off after some rows. The
        answer is that of a query without cache, without repetition if the hashes are distinct; it
        fails only with the database, and rows that came before the failure stay in the read cache. */
    method GetByHashes(
      store: StoreCode, hashes: seq<string>, sid: string, files: map<string, seq<string>>, filesOk: bool,
      queryOk: bool, breaksAfter: Option<nat>)
      returns (r: Option<seq<Info>>)
      requires Coherent(Snapshot())
      modifies this`read
      ensures Fetched(old(Snapshot()), store, hashes, Snapshot())
      ensures r.None? ==> !filesOk || !queryOk || breaksAfter.Some?
      ensures r.Some? && Distinct(hashes) ==> Distinct(r.value)
      ensures r.Some? ==> Elements(r.value) == Query(table, store, Elements(hashes), sid, files)
      ensures r.Some? ==> forall info: Info :: info in r.value <==>
                && info.hash in hashes && (store, info.hash) in table
                && info == Info(store, info.hash, table[(store, info.hash)],
                                if info.hash in files then files[info.hash] else [])
                && (!info.row.isCached || sid == "" || sid in info.sids || "*" in info.sids)
    {
      forall info: Info {
        QueryAnswers(table, store, Elements(hashes), sid, files, info);
      }
      if |hashes| == 0 {
        return Some([]);
      }
      if !filesOk {
        return None;
      }
      var mcs, missed := TakeCached(store, hashes, sid, files);
      if |missed| == 0 {
        assert Elements(hashes) - Elements(missed) == Elements(hashes);
        return Some(mcs);
      }
      if !queryOk {
        return None;
      }
      r := FetchMissed(store, hashes, missed, sid, files, mcs, breaksAfter);
    }

    /** What the read cache knows of one hash enters the answer if it passes the filter. */
    method TakeHit(store: StoreCode, hash: string, sid: string, files: map<string, seq<string>>, mcs: seq<Info>)
      returns (r: seq<Info>)
      requires Coherent(Snapshot()) && CacheKey(store, hash) in read
      ensures Elements(r) == Elements(mcs) + Query(table, store, {hash}, sid, files)
      ensures r == mcs || (|r| == |mcs| + 1 && r[..|mcs|] == mcs && r[|mcs|].hash == hash)
    {
      var cached := read[CacheKey(store, hash)];
      CacheKeyInjective(cached.store, cached.hash, store, hash);
      var info := InfoOf(cached, files);
      assert info == RowInfo(table, store, hash, files);
      r := mcs;
      if MatchesSidFilter(info, sid) {
        assert Query(table, store, {hash}, sid, files) == {info};
        ElementsSnoc(mcs, info);
        r := mcs + [info];
      } else {
        assert Query(table, store, {hash}, sid, files) == {};
      }
    }

    /** The answer to some hashes, with those that the read cache does not know left out. */
    ghost predicate Taken(
      store: StoreCode, hashes: seq<string>, sid: string, files: map<string, seq<string>>, mcs: seq<Info>,
      missed: seq<string>)
      reads this
    {
      && (forall h :: h in missed <==> h in hashes && CacheKey(store, h) !in read)
      && Elements(mcs) == Query(table, store, Elements(hashes) - Elements(missed), sid, files)
      && (forall m :: m in mcs ==> m.hash in hashes && CacheKey(store, m.hash) in read)
      && (Distinct(hashes) ==> Distinct(mcs))
    }

    lemma MissIsTaken(
      store: StoreCode, hashes: seq<string>, hash: string, sid: string, files: map<string, seq<string>>,
      mcs: seq<Info>, missed: seq<string>)
      requires Taken(store, hashes, sid, files, mcs, missed) && CacheKey(store, hash) !in read
      ensures Taken(store, hashes + [hash], sid, files, mcs, missed + [hash])
    {
      assert Elements(hashes + [hash]) - Elements(missed + [hash]) == Elements(hashes) - Elements(missed);
      DistinctFront(hashes, hash);
    }

    lemma HitIsTaken(
      store: StoreCode, hashes: seq<string>, hash: string, sid: string, files: map<string, seq<string>>,
      mcs: seq<Info>, missed: seq<string>, more: seq<Info>)
      requires Taken(store, hashes, sid, files, mcs, missed) && CacheKey(store, hash) in read
      requires Elements(more) == Elements(mcs) + Query(table, store, {hash}, sid, files)
      requires more == mcs || (|more| == |mcs| + 1 && more[..|mcs|] == mcs && more[|mcs|].hash == hash)
      ensures Taken(store, hashes + [hash], sid, files, more, missed)
    {
      var before := Elements(hashes) - Elements(missed);
      assert Elements(hashes + [hash]) - Elements(missed) == before + {hash};
      QuerySnoc(table, store, before, hash, sid, files);
      if Distinct(hashes + [hash]) {
        DistinctFront(hashes, hash);
        StaysDistinct(mcs, more, hash, {hash});
      }
      assert more != mcs ==> more == mcs + [more[|mcs|]];
    }

    /** The first loop: what the read cache knows, and what it does not. */
    method TakeCached(store: StoreCode, hashes: seq<string>, sid: string, files: map<string, seq<string>>)
      returns (mcs: seq<Info>, missed: seq<string>)
      requires Coherent(Snapshot())
      ensures forall h :: h in missed <==> h in hashes && CacheKey(store, h) !in read
      ensures Elements(mcs) == Query(table, store, Elements(hashes) - Elements(missed), sid, files)
      ensures Distinct(hashes) ==> Distinct(mcs) && forall m :: m in mcs ==> m.hash !in missed
    {
      mcs, missed := [], [];
      for i := 0 to |hashes|
        invariant Taken(store, hashes[..i], sid, files, mcs, missed)
      {
        var hash := hashes[i];
        assert hashes[..i + 1] == hashes[..i] + [hash];
        if CacheKey(store, hash) in read {
          var more := TakeHit(store, hash, sid, files, mcs);
          HitIsTaken(store, hashes[..i], hash, sid, files, mcs, missed, more);
          mcs := more;
        } else {
          MissIsTaken(store, hashes[..i], hash, sid, files, mcs, missed);
          missed := missed + [hash];
        }
      }
      assert hashes[..|hashes|] == hashes;
    }

    /** The second loop: the rows of the query, in whatever order the database sends them, until it
        has sent them all or breaks off. */
    method FetchMissed(
      store: StoreCode, ghost hashes: seq<string>, missed: seq<string>, sid: string, files: map<string, seq<string>>,
      found: seq<Info>, breaksAfter: Option<nat>)
      returns (r: Option<seq<Info>>)
      requires forall h :: h in missed <==> h in hashes && CacheKey(store, h) !in read
      requires Elements(found) == Query(table, store, Elements(hashes) - Elements(missed), sid, files)
      requires Distinct(hashes) ==> Distinct(found) && forall m :: m in found ==> m.hash !in missed
      modifies this`read
      ensures Fetched(old(Snapshot()), store, hashes, Snapshot())
      ensures r.None? ==> breaksAfter.Some?
      ensures r.Some? ==> Elements(r.value) == Query(table, store, Elements(hashes), sid, files)
      ensures r.Some? && Distinct(hashes) ==> Distinct(r.value)
    {
      var mcs, count := found, 0;
      var rows := set h | h in missed && (store, h) in table;
      var pending := rows;
      ghost var hit := Elements(hashes) - Elements(missed);
      ghost var done, distinct := hit, Distinct(hashes);
      while pending != {} && breaksAfter != Some(count)
        invariant pending <= rows && done + pending == hit + rows
        invariant Fetched(old(Snapshot()), store, hashes, Snapshot())
        invariant Elements(mcs) == Query(table, store, done, sid, files)
        invariant distinct ==> Distinct(mcs) && forall m :: m in mcs ==> m.hash !in pending
        decreases |pending|
      {
        var hash :| hash in pending;
        QuerySnoc(table, store, done, hash, sid, files);
        var more := ScanRow(old(Snapshot()), store, hashes, hash, sid, files, mcs);
        if distinct {
          StaysDistinct(mcs, more, hash, pending);
        }
        MoveElement(done, pending, hash);
        mcs, pending, done, count := more, pending - {hash}, done + {hash}, count + 1;
      }
      if breaksAfter == Some(count) {
        return None;
      }
      RowsOnly(store, hit, rows, Elements(hashes), sid, files);
      r := Some(mcs);
    }

    /** One row of the query enters the read cache, and the answer if it passes the filter. */
    method ScanRow(
      ghost before: State, store: StoreCode, ghost hashes: seq<string>, hash: string, sid: string,
      files: map<string, seq<string>>, mcs: seq<Info>)
      returns (r: seq<Info>)
      requires Fetched(before, store, hashes, Snapshot())
      requires hash in hashes && (store, hash) in table && CacheKey(store, hash) !in before.read
      modifies this`read
      ensures read == old(read)[CacheKey(store, hash) := Entry(store, hash, table[(store, hash)])]
      ensures Fetched(before, store, hashes, Snapshot())
      ensures Elements(r) == Elements(mcs) + Query(table, store, {hash}, sid, files)
      ensures r == mcs || (|r| == |mcs| + 1 && r[..|mcs|] == mcs && r[|mcs|].hash == hash)
    {
      FetchedStep(before, store, hashes, Snapshot(), hash);
      var smc := Entry(store, hash, table[(store, hash)]);
      read := read[CacheKey(store, hash) := smc];
      var info := InfoOf(smc, files);
      assert info == RowInfo(table, store, hash, files);
      if MatchesSidFilter(info, sid) {
        assert Query(table, store, {hash}, sid, files) == {info};
        ElementsSnoc(mcs, info);
        r := mcs + [info];
      } else {
        assert Query(table, store, {hash}, sid, files) == {};
        r := mcs;
      }
    }

    /** Hashes without a row do not show in a query. */
    lemma RowsOnly(
      store: StoreCode, hit: set<string>, rows: set<string>, all: set<string>, sid: string,
      files: map<string, seq<string>>)
      requires hit + rows <= all
      requires forall h :: h in all && h !in hit && h !in rows ==> (store, h) !in table
      ensures Query(table, store, hit + rows, sid, files) == Query(table, store, all, sid, files)
    {
    }
  }
}
