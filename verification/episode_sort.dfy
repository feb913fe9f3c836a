/**
 Sorting the maps of a series, which puts the maps of an AniDB id together as long as no two ids
 stand for the same number.
 */
module EpisodeSort {
  import opened Decimal
  import opened EpisodeMaps
  import opened EpisodeGroups

  /** Ids that are no numbers count as -1. */
  function Number(aniDBId: string): Int {
    match Atoi(aniDBId) case None => -1 case Some(n) => n
  }

  /** Whether the first map may not come after the second one. */
  predicate IsBefore(a: EpisodeMap, b: EpisodeMap) {
    if Number(a.aniDBId) != Number(b.aniDBId) then Number(a.aniDBId) < Number(b.aniDBId)
    else if a.tvdbSeason != b.tvdbSeason then a.tvdbSeason < b.tvdbSeason
    else if a.aniDBSeason != b.aniDBSeason then a.aniDBSeason < b.aniDBSeason
    else a.start < b.start
  }

  predicate IsSorted(maps: seq<EpisodeMap>) {
    forall i, j :: 0 <= i < j < |maps| ==> !IsBefore(maps[j], maps[i])
  }

  /** By number, then by TVDB season, then by AniDB season, then by start. */
  lemma SortedMeans(maps: seq<EpisodeMap>)
    ensures IsSorted(maps) <==>
            forall i, j :: 0 <= i < j < |maps| ==>
              var a, b := maps[i], maps[j];
              var m := match Atoi(a.aniDBId) case None => -1 case Some(n) => n;
              var n := match Atoi(b.aniDBId) case None => -1 case Some(n) => n;
              m <= n && (m == n ==>
                a.tvdbSeason <= b.tvdbSeason && (a.tvdbSeason == b.tvdbSeason ==>
                  a.aniDBSeason <= b.aniDBSeason && (a.aniDBSeason == b.aniDBSeason ==> a.start <= b.start)))
  {
  }

  /** No two ids of a set stand for the same number. */
  ghost predicate AreDistinctNumbers(ids: set<string>) {
    forall a, b :: a in ids && b in ids && Number(a) == Number(b) ==> a == b
  }

  ghost predicate HasIds(maps: seq<EpisodeMap>, ids: set<string>) {
    forall i :: 0 <= i < |maps| ==> maps[i].aniDBId in ids
  }

  lemma SortedIsContiguous(maps: seq<EpisodeMap>, ids: set<string>)
    requires IsSorted(maps) && HasIds(maps, ids) && AreDistinctNumbers(ids)
    ensures IsContiguous(maps)
  {
    forall i, j, k | 0 <= i < j < k < |maps| && maps[i].aniDBId == maps[k].aniDBId
      ensures maps[j].aniDBId == maps[i].aniDBId
    {
      assert !IsBefore(maps[j], maps[i]) && !IsBefore(maps[k], maps[j]);
    }
  }

  function Interleaved(a: string, b: string): seq<EpisodeMap> {
    [EpisodeMap(a, "", 1, 1, 0, 0, 0, map[], map[]),
     EpisodeMap(b, "", 1, 2, 0, 0, 0, map[], map[]),
     EpisodeMap(a, "", 1, 3, 0, 0, 0, map[], map[])]
  }

  lemma InterleavedIsSorted(a: string, b: string)
    requires a != b && Number(a) == Number(b)
    ensures IsSorted(Interleaved(a, b)) && !IsContiguous(Interleaved(a, b)) && HasIds(Interleaved(a, b), {a, b})
  {
    var maps := Interleaved(a, b);
    assert maps[0].aniDBId == maps[2].aniDBId != maps[1].aniDBId;
  }

  /** Sorting puts the maps of every id together, whatever the maps, if and only if the ids stand
      for distinct numbers. */
  lemma SortingGroupsIff(ids: set<string>)
    ensures (forall maps :: IsSorted(maps) && HasIds(maps, ids) ==> IsContiguous(maps)) <==> AreDistinctNumbers(ids)
  {
    if AreDistinctNumbers(ids) {
      forall maps | IsSorted(maps) && HasIds(maps, ids) ensures IsContiguous(maps) {
        SortedIsContiguous(maps, ids);
      }
    } else {
      var a, b :| a in ids && b in ids && Number(a) == Number(b) && a != b;
      InterleavedIsSorted(a, b);
      assert HasIds(Interleaved(a, b), ids);
    }
  }

  /** Ids as they are printed stand for distinct numbers. */
  lemma PrintedIdsAreDistinct(ids: set<string>)
    requires forall id :: id in ids ==> exists n: Int :: id == Itoa(n)
    ensures AreDistinctNumbers(ids)
  {
    forall a, b | a in ids && b in ids && Number(a) == Number(b) ensures a == b {
      var m: Int :| a == Itoa(m);
      var n: Int :| b == Itoa(n);
      AtoiItoa(m);
      AtoiItoa(n);
    }
  }

  /** Two ids can be interleaved by sorting if and only if they stand for one number. */
  lemma InterleavesIff(a: string, b: string)
    requires a != b
    ensures (exists maps :: IsSorted(maps) && HasIds(maps, {a, b}) && !IsContiguous(maps)) <==>
            (match Atoi(a) case None => -1 case Some(n) => n) == (match Atoi(b) case None => -1 case Some(n) => n)
  {
    SortingGroupsIff({a, b});
    assert a in {a, b} && b in {a, b};
  }

  /** So can any two ids that are no numbers, and one number written in two ways. */
  lemma OtherIdsInterleave(a: string, b: string)
    requires a != b && Atoi(a) == Atoi(b)
    ensures exists maps :: IsSorted(maps) && HasIds(maps, {a, b}) && !IsContiguous(maps)
  {
    InterleavesIff(a, b);
  }
}
