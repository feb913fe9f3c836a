/**
 Corrections to the anime list: an item takes over what its override sets, and the mapping lists
 are merged by season.
 */
module MergeOverride {
  import opened Decimal
  import opened EpisodeParts

  // ---------------------------------------------------------------- mapping lists

  datatype SeasonKey = SeasonKey(aniDBSeason: string, tvdbSeason: string)

  function Season(m: Mapping): SeasonKey {
    SeasonKey(m.aniDBSeason, m.tvdbSeason)
  }

  /** An override without episodes keeps those that were there. */
  function Corrected(am: Mapping, om: Mapping): Mapping {
    if am.value != "" && om.value == "" then om.(value := am.value) else om
  }

  function FirstOfSeason(ms: seq<Mapping>, key: SeasonKey): (i: nat)
    ensures i <= |ms|
    ensures i < |ms| ==> Season(ms[i]) == key
    ensures forall j :: 0 <= j < i ==> Season(ms[j]) != key
  {
    if ms == [] || Season(ms[0]) == key then 0 else 1 + FirstOfSeason(ms[1..], key)
  }

  function MergedOne(ms: seq<Mapping>, om: Mapping): seq<Mapping> {
    var i := FirstOfSeason(ms, Season(om));
    if i < |ms| then ms[i := Corrected(ms[i], om)] else ms + [om]
  }

  function MergedAll(ms: seq<Mapping>, os: seq<Mapping>): seq<Mapping> {
    if os == [] then ms else MergedOne(MergedAll(ms, os[..|os| - 1]), os[|os| - 1])
  }

  function Merged(ms: seq<Mapping>, os: seq<Mapping>): seq<Mapping> {
    if ms == [] then os else MergedAll(ms, os)
  }

  /** Seasons that are no numbers count as -1. */
  function SeasonNumber(m: Mapping): int {
    match Atoi(m.tvdbSeason) case None => -1 case Some(n) => n
  }

  ghost predicate IsSorted(ms: seq<Mapping>) {
    IsSortedBy(ms, SeasonNumber)
  }

  ghost predicate IsSortedBy<T>(s: seq<T>, key: T -> int) {
    forall i, j :: 0 <= i < j < |s| ==> key(s[i]) <= key(s[j])
  }

  /** A result of the merge: sorting may put mappings of one season in any order. */
  ghost predicate IsMerge(ms: seq<Mapping>, os: seq<Mapping>, r: seq<Mapping>) {
    if os == [] then r == ms else multiset(r) == multiset(Merged(ms, os)) && IsSorted(r)
  }

  // ---------------------------------------------------------------- the merge as map override

  predicate AreDistinct(ms: seq<Mapping>) {
    forall i, j :: 0 <= i < j < |ms| ==> Season(ms[i]) != Season(ms[j])
  }

  function Table(ms: seq<Mapping>): map<SeasonKey, Mapping> {
    if ms == [] then map[] else Table(ms[..|ms| - 1])[Season(ms[|ms| - 1]) := ms[|ms| - 1]]
  }

  function Override(t: map<SeasonKey, Mapping>, u: map<SeasonKey, Mapping>): map<SeasonKey, Mapping> {
    map k | k in t.Keys + u.Keys :: if k !in u then t[k] else if k in t then Corrected(t[k], u[k]) else u[k]
  }

  ghost predicate IsTable(ms: seq<Mapping>, t: map<SeasonKey, Mapping>) {
    && (forall m :: m in ms ==> Season(m) in t && t[Season(m)] == m)
    && (forall k :: k in t ==> t[k] in ms && Season(t[k]) == k)
  }

  lemma {:induction false} TableIsTable(ms: seq<Mapping>)
    requires AreDistinct(ms)
    ensures IsTable(ms, Table(ms))
  {
    if ms != [] {
      var rest, m := ms[..|ms| - 1], ms[|ms| - 1];
      assert ms == rest + [m];
      TableIsTable(rest);
    }
  }

  lemma TableIsUnique(ms: seq<Mapping>, t: map<SeasonKey, Mapping>, u: map<SeasonKey, Mapping>)
    requires IsTable(ms, t) && IsTable(ms, u)
    ensures t == u
  {
    assert forall k :: k in t ==> k in u && u[k] == t[k];
    assert forall k :: k in u ==> k in t;
  }

  lemma ReplacingUpdatesTable(ms: seq<Mapping>, i: nat, m: Mapping)
    requires AreDistinct(ms) && i < |ms| && Season(ms[i]) == Season(m)
    ensures AreDistinct(ms[i := m]) && Table(ms[i := m]) == Table(ms)[Season(m) := m]
  {
    var r, t := ms[i := m], Table(ms)[Season(m) := m];
    TableIsTable(ms);
    TableIsTable(r);
    forall x | x in r ensures Season(x) in t && t[Season(x)] == x {
      var j :| 0 <= j < |r| && r[j] == x;
      assert ms[j] in ms;
    }
    forall k | k in t ensures t[k] in r && Season(t[k]) == k {
      if k == Season(m) {
        assert t[k] == r[i];
      } else {
        var j :| 0 <= j < |ms| && ms[j] == t[k];
        assert r[j] == t[k];
      }
    }
    TableIsUnique(r, Table(r), t);
  }

  lemma AppendingUpdatesTable(ms: seq<Mapping>, m: Mapping)
    ensures Table(ms + [m]) == Table(ms)[Season(m) := m]
  {
    assert (ms + [m])[..|ms|] == ms;
  }

  lemma OverrideOne(t: map<SeasonKey, Mapping>, k: SeasonKey, om: Mapping)
    ensures Override(t, map[k := om]) == t[k := if k in t then Corrected(t[k], om) else om]
  {
  }

  lemma AppendingStaysDistinct(ms: seq<Mapping>, m: Mapping)
    requires AreDistinct(ms) && FirstOfSeason(ms, Season(m)) == |ms|
    ensures AreDistinct(ms + [m]) && Season(m) !in Table(ms)
  {
    TableIsTable(ms);
  }

  lemma InTable(ms: seq<Mapping>, i: nat)
    requires AreDistinct(ms) && i < |ms|
    ensures Season(ms[i]) in Table(ms) && Table(ms)[Season(ms[i])] == ms[i]
  {
    TableIsTable(ms);
    assert ms[i] in ms;
  }

  lemma MergedOneRefines(ms: seq<Mapping>, om: Mapping)
    requires AreDistinct(ms)
    ensures AreDistinct(MergedOne(ms, om))
    ensures Table(MergedOne(ms, om)) == Override(Table(ms), map[Season(om) := om])
  {
    var i := FirstOfSeason(ms, Season(om));
    OverrideOne(Table(ms), Season(om), om);
    if i < |ms| {
      InTable(ms, i);
      ReplacingUpdatesTable(ms, i, Corrected(ms[i], om));
    } else {
      AppendingStaysDistinct(ms, om);
      AppendingUpdatesTable(ms, om);
    }
  }

  lemma OverrideSnoc(t: map<SeasonKey, Mapping>, u: map<SeasonKey, Mapping>, k: SeasonKey, m: Mapping)
    requires k !in u
    ensures Override(Override(t, u), map[k := m]) == Override(t, u[k := m])
  {
  }

  lemma {:induction false} MergedAllRefines(ms: seq<Mapping>, os: seq<Mapping>)
    requires AreDistinct(ms) && AreDistinct(os)
    ensures AreDistinct(MergedAll(ms, os))
    ensures Table(MergedAll(ms, os)) == Override(Table(ms), Table(os))
  {
    if os != [] {
      var rest, om := os[..|os| - 1], os[|os| - 1];
      MergedAllRefines(ms, rest);
      MergedOneRefines(MergedAll(ms, rest), om);
      TableIsTable(rest);
      assert Season(om) !in Table(rest);
      OverrideSnoc(Table(ms), Table(rest), Season(om), om);
    }
  }

  // ---------------------------------------------------------------- sorting

  lemma {:induction false} DistinctOccurOnce(ms: seq<Mapping>, m: Mapping)
    requires AreDistinct(ms)
    ensures multiset(ms)[m] <= 1
  {
    if ms != [] {
      var rest, last := ms[..|ms| - 1], ms[|ms| - 1];
      assert ms == rest + [last];
      DistinctOccurOnce(rest, m);
      if m == last {
        assert forall i :: 0 <= i < |rest| ==> rest[i] != m;
        assert m !in multiset(rest);
      }
    }
  }

  lemma TwiceIsTwo(ms: seq<Mapping>, i: nat, j: nat)
    requires i < j < |ms| && ms[i] == ms[j]
    ensures multiset(ms)[ms[i]] >= 2
  {
    assert ms == ms[..j] + ms[j..];
    assert ms[..j][i] == ms[i] && ms[j..][0] == ms[i];
    assert ms[i] in multiset(ms[..j]) && ms[i] in multiset(ms[j..]);
  }

  /** A table does not depend on the order. */
  lemma SortingKeepsTable(ms: seq<Mapping>, r: seq<Mapping>)
    requires AreDistinct(ms) && multiset(r) == multiset(ms)
    ensures AreDistinct(r) && Table(r) == Table(ms)
  {
    forall m ensures m in r <==> m in ms {
      assert m in r <==> m in multiset(r);
      assert m in ms <==> m in multiset(ms);
    }
    TableIsTable(ms);
    forall i, j | 0 <= i < j < |r| ensures Season(r[i]) != Season(r[j]) {
      if Season(r[i]) == Season(r[j]) {
        assert r[i] in ms && r[j] in ms;
        TwiceIsTwo(r, i, j);
        DistinctOccurOnce(ms, r[i]);
      }
    }
    TableIsTable(r);
    assert IsTable(r, Table(ms));
    TableIsUnique(r, Table(r), Table(ms));
  }

  // ---------------------------------------------------------------- main results

  /** For lists without repeated seasons, a merge is the override of one table by the other, and
      sorted if there was something to merge. */
  lemma MergeRefinesOverride(ms: seq<Mapping>, os: seq<Mapping>, r: seq<Mapping>)
    requires AreDistinct(ms) && AreDistinct(os) && IsMerge(ms, os, r)
    ensures AreDistinct(r) && Table(r) == Override(Table(ms), Table(os))
    ensures os != [] ==> IsSorted(r)
  {
    if os == [] {
      assert Override(Table(ms), map[]) == Table(ms);
    } else {
      if ms == [] {
        assert Override(map[], Table(os)) == Table(os);
      } else {
        MergedAllRefines(ms, os);
      }
      SortingKeepsTable(Merged(ms, os), r);
    }
  }

  /** The episodes that a list has for a season, or none. */
  function EpisodesFor(ms: seq<Mapping>, aniDBSeason: string, tvdbSeason: string): string {
    if ms == [] then ""
    else
      var last := ms[|ms| - 1];
      if last.aniDBSeason == aniDBSeason && last.tvdbSeason == tvdbSeason then last.value
      else EpisodesFor(ms[..|ms| - 1], aniDBSeason, tvdbSeason)
  }

  lemma {:induction false} EpisodesInTable(ms: seq<Mapping>, key: SeasonKey)
    ensures EpisodesFor(ms, key.aniDBSeason, key.tvdbSeason) == if key in Table(ms) then Table(ms)[key].value else ""
  {
    if ms != [] {
      EpisodesInTable(ms[..|ms| - 1], key);
    }
  }

  lemma {:induction false} InTableIff(ms: seq<Mapping>, m: Mapping)
    requires AreDistinct(ms)
    ensures m in ms <==> Season(m) in Table(ms) && Table(ms)[Season(m)] == m
  {
    TableIsTable(ms);
  }

  lemma {:induction false} HasSeasonIff(ms: seq<Mapping>, key: SeasonKey)
    requires AreDistinct(ms)
    ensures key in Table(ms) <==> exists i :: 0 <= i < |ms| && Season(ms[i]) == key
    ensures forall i :: 0 <= i < |ms| && Season(ms[i]) == key ==> key in Table(ms) && Table(ms)[key] == ms[i]
  {
    TableIsTable(ms);
    if key in Table(ms) {
      assert Table(ms)[key] in ms;
    }
  }

  /** What is in the merged list: each mapping of a season that the override leaves alone, as it was; for
      each one of the override that one, with the episodes of before if it brings none; and nothing
      else. */
  lemma {:induction false} MergedList(ms: seq<Mapping>, os: seq<Mapping>, r: seq<Mapping>, m: Mapping)
    requires AreDistinct(ms) && AreDistinct(os) && IsMerge(ms, os, r)
    ensures m in r <==>
            || (m in ms && forall k :: 0 <= k < |os| ==>
                  os[k].aniDBSeason != m.aniDBSeason || os[k].tvdbSeason != m.tvdbSeason)
            || (exists k :: 0 <= k < |os| && m == os[k].(value := if os[k].value != "" then os[k].value
                                  else EpisodesFor(ms, os[k].aniDBSeason, os[k].tvdbSeason)))
  {
    MergeRefinesOverride(ms, os, r);
    InTableIff(r, m);
    InTableIff(ms, m);
    HasSeasonIff(os, Season(m));
    CorrectedIff(ms, os, m);
    assert forall k :: 0 <= k < |os| ==>
             (os[k].aniDBSeason == m.aniDBSeason && os[k].tvdbSeason == m.tvdbSeason <==> Season(os[k]) == Season(m));
  }

  lemma {:induction false} CorrectedIff(ms: seq<Mapping>, os: seq<Mapping>, m: Mapping)
    requires AreDistinct(ms) && AreDistinct(os)
    ensures (exists k :: 0 <= k < |os| && m == os[k].(value := if os[k].value != "" then os[k].value
                                else EpisodesFor(ms, os[k].aniDBSeason, os[k].tvdbSeason)))
       <==> Season(m) in Table(os) && m == Override(Table(ms), Table(os))[Season(m)]
  {
    HasSeasonIff(os, Season(m));
    EpisodesInTable(ms, Season(m));
    forall k | 0 <= k < |os|
      ensures var c := os[k].(value := if os[k].value != "" then os[k].value
                                       else EpisodesFor(ms, os[k].aniDBSeason, os[k].tvdbSeason));
              Season(c) == Season(os[k])
    {
    }
    if Season(m) in Table(os) {
      var k :| 0 <= k < |os| && Season(os[k]) == Season(m);
    }
  }

  lemma {:induction false} SortedAt<T>(s: seq<T>, key: T -> int, i: nat, j: nat)
    requires IsSortedBy(s, key) && i < j < |s|
    ensures key(s[i]) <= key(s[j])
  {
  }

  /** The merged list is sorted by the numbers of the TVDB seasons, where other texts count as -1. */
  lemma {:induction false} MergedIsSorted(ms: seq<Mapping>, os: seq<Mapping>, r: seq<Mapping>, i: nat, j: nat)
    requires IsMerge(ms, os, r) && os != [] && i < j < |r|
    ensures (match Atoi(r[i].tvdbSeason) case None => -1 case Some(n) => n)
         <= match Atoi(r[j].tvdbSeason) case None => -1 case Some(n) => n
  {
    SortedAt(r, SeasonNumber, i, j);
  }

  lemma OverrideTwice(t: map<SeasonKey, Mapping>, u: map<SeasonKey, Mapping>)
    ensures Override(Override(t, u), u) == Override(t, u)
  {
  }

  /** Merging an override again changes no mapping. */
  lemma MergingIsIdempotent(ms: seq<Mapping>, os: seq<Mapping>, r: seq<Mapping>, again: seq<Mapping>)
    requires AreDistinct(ms) && AreDistinct(os) && IsMerge(ms, os, r) && IsMerge(r, os, again)
    ensures Table(again) == Table(r) && multiset(again) == multiset(r)
  {
    MergeRefinesOverride(ms, os, r);
    MergeRefinesOverride(r, os, again);
    OverrideTwice(Table(ms), Table(os));
    SameTableSameMappings(r, again);
  }

  lemma SameTableSameMappings(ms: seq<Mapping>, r: seq<Mapping>)
    requires AreDistinct(ms) && AreDistinct(r) && Table(ms) == Table(r)
    ensures multiset(ms) == multiset(r)
  {
    TableIsTable(ms);
    TableIsTable(r);
    forall m ensures multiset(ms)[m] == multiset(r)[m] {
      DistinctOccurOnce(ms, m);
      DistinctOccurOnce(r, m);
      assert m in multiset(ms) <==> m in ms;
      assert m in multiset(r) <==> m in r;
    }
  }

  // ---------------------------------------------------------------- the program

  /** Stands for the library's sort, of which nothing but this contract is used. */
  method SortBy<T(==)>(s: seq<T>, key: T -> int) returns (r: seq<T>)
    ensures multiset(r) == multiset(s) && IsSortedBy(r, key)
  {
    r := [];
    for i := 0 to |s|
      invariant multiset(r) == multiset(s[..i]) && IsSortedBy(r, key)
    {
      assert s[..i + 1] == s[..i] + [s[i]];
      r := InsertBy(r, s[i], key);
    }
    assert s[..|s|] == s;
  }

  method InsertBy<T(==)>(s: seq<T>, x: T, key: T -> int) returns (r: seq<T>)
    requires IsSortedBy(s, key)
    ensures multiset(r) == multiset(s) + multiset{x} && IsSortedBy(r, key)
  {
    var k := |s|;
    while k > 0 && key(x) < key(s[k - 1])
      invariant 0 <= k <= |s|
      invariant forall j :: k <= j < |s| ==> key(x) < key(s[j])
    {
      k := k - 1;
    }
    InsertionIsSorted(s, k, x, key);
    assert s == s[..k] + s[k..];
    r := s[..k] + [x] + s[k..];
  }

  lemma InsertionIsSorted<T>(s: seq<T>, k: nat, x: T, key: T -> int)
    requires IsSortedBy(s, key) && k <= |s| && (k > 0 ==> key(s[k - 1]) <= key(x))
    requires forall j :: k <= j < |s| ==> key(x) < key(s[j])
    ensures IsSortedBy(s[..k] + [x] + s[k..], key)
  {
    var r := s[..k] + [x] + s[k..];
    forall i, j | 0 <= i < j < |r| ensures key(r[i]) <= key(r[j]) {
      assert i < k ==> r[i] == s[i] && key(s[i]) <= key(x);
      assert i > k ==> r[i] == s[i - 1];
      assert j < k ==> r[j] == s[j];
      assert j > k ==> r[j] == s[j - 1];
    }
  }

  /** An empty field overrides nothing. */
  function Overridden(was: string, text: string): string {
    if text != "" then text else was
  }

  class AnimeListItem {
    var tvdbId: string
    var defaultTVDBSeason: string
    var episodeOffset: string
    var imdbId: string
    var tmdbId: string
    var name: string
    var before: string
    var mappings: seq<Mapping>

    method MergeMappings(os: seq<Mapping>)
      modifies this`mappings
      ensures IsMerge(old(mappings), os, mappings)
    {
      if |os| > 0 {
        if |mappings| == 0 {
          mappings := os;
        } else {
          for i := 0 to |os|
            invariant mappings == MergedAll(old(mappings), os[..i])
          {
            assert os[..i + 1][..i] == os[..i];
            MergeMapping(os[i]);
          }
          assert os[..|os|] == os;
        }
        mappings := SortBy(mappings, SeasonNumber);
      }
    }

    method MergeMapping(om: Mapping)
      modifies this`mappings
      ensures mappings == MergedOne(old(mappings), om)
    {
      var found := false;
      for i := 0 to |mappings|
        invariant !found && mappings == old(mappings)
        invariant forall j :: 0 <= j < i ==> Season(mappings[j]) != Season(om)
      {
        if mappings[i].aniDBSeason == om.aniDBSeason && mappings[i].tvdbSeason == om.tvdbSeason {
          var value := om.value;
          if mappings[i].value != "" && om.value == "" {
            value := mappings[i].value;
          }
          mappings := mappings[i := om.(value := value)];
          found := true;
          break;
        }
      }
      if !found {
        mappings := mappings + [om];
      }
    }

    method MergeIds(o: AnimeListItem)
      modifies this`tvdbId, this`imdbId, this`tmdbId
      ensures tvdbId == Overridden(old(tvdbId), old(o.tvdbId))
      ensures imdbId == Overridden(old(imdbId), old(o.imdbId))
      ensures tmdbId == Overridden(old(tmdbId), old(o.tmdbId))
    {
      if o.tvdbId != "" && tvdbId != o.tvdbId {
        tvdbId := o.tvdbId;
      }
      if o.imdbId != "" && imdbId != o.imdbId {
        imdbId := o.imdbId;
      }
      if o.tmdbId != "" && tmdbId != o.tmdbId {
        tmdbId := o.tmdbId;
      }
    }

    method MergeTexts(o: AnimeListItem)
      modifies this`defaultTVDBSeason, this`episodeOffset, this`name, this`before
      ensures defaultTVDBSeason == Overridden(old(defaultTVDBSeason), old(o.defaultTVDBSeason))
      ensures episodeOffset == Overridden(old(episodeOffset), old(o.episodeOffset))
      ensures name == Overridden(old(name), old(o.name))
      ensures before == Overridden(old(before), old(o.before))
    {
      if o.defaultTVDBSeason != "" && defaultTVDBSeason != o.defaultTVDBSeason {
        defaultTVDBSeason := o.defaultTVDBSeason;
      }
      if o.episodeOffset != "" && episodeOffset != o.episodeOffset {
        episodeOffset := o.episodeOffset;
      }
      if o.name != "" && name != o.name {
        name := o.name;
      }
      if o.before != "" && before != o.before {
        before := o.before;
      }
    }

    method MergeOverride(o: AnimeListItem)
      modifies this
      ensures tvdbId == if old(o.tvdbId) != "" then old(o.tvdbId) else old(tvdbId)
      ensures defaultTVDBSeason == if old(o.defaultTVDBSeason) != "" then old(o.defaultTVDBSeason)
                                   else old(defaultTVDBSeason)
      ensures episodeOffset == if old(o.episodeOffset) != "" then old(o.episodeOffset) else old(episodeOffset)
      ensures imdbId == if old(o.imdbId) != "" then old(o.imdbId) else old(imdbId)
      ensures tmdbId == if old(o.tmdbId) != "" then old(o.tmdbId) else old(tmdbId)
      ensures name == if old(o.name) != "" then old(o.name) else old(name)
      ensures before == if old(o.before) != "" then old(o.before) else old(before)
      ensures IsMerge(old(mappings), old(o.mappings), mappings)
    {
      MergeIds(o);
      MergeTexts(o);
      MergeMappings(o.mappings);
    }
  }
}
