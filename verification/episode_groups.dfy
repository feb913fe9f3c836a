/**
 The maps of a TVDB series grouped by AniDB id, with the part of its TVDB season that each group is.
 */
module EpisodeGroups {
  import opened Wrappers
  import opened Decimal
  import opened EpisodeMaps

  datatype ByAniDBId = ByAniDBId(aniDBId: string, part: nat, maps: seq<EpisodeMap>)

  // ---------------------------------------------------------------- grouping

  /** Maps of regular seasons, which count as parts. */
  predicate IsNumbered(m: EpisodeMap) {
    m.tvdbSeason > 0 && m.aniDBSeason > 0
  }

  predicate StartsPart(g: ByAniDBId, season: Int) {
    g.maps != [] && IsNumbered(g.maps[0]) && g.maps[0].tvdbSeason == season
  }

  /** How many groups begin with a part of the season. */
  function Parts(gs: seq<ByAniDBId>, season: Int): nat {
    if gs == [] then 0
    else Parts(gs[..|gs| - 1], season) + if StartsPart(gs[|gs| - 1], season) then 1 else 0
  }

  function NewGroup(gs: seq<ByAniDBId>, m: EpisodeMap): ByAniDBId {
    ByAniDBId(m.aniDBId, PartNumber(gs, m), [m])
  }

  function WithMap(gs: seq<ByAniDBId>, m: EpisodeMap): seq<ByAniDBId> {
    var last := |gs| - 1;
    if gs != [] && gs[last].aniDBId == m.aniDBId
    then gs[last := gs[last].(maps := gs[last].maps + [m])]
    else gs + [NewGroup(gs, m)]
  }

  function Grouped(maps: seq<EpisodeMap>): seq<ByAniDBId> {
    if maps == [] then [] else WithMap(Grouped(maps[..|maps| - 1]), maps[|maps| - 1])
  }

  lemma GroupedSnoc(maps: seq<EpisodeMap>, m: EpisodeMap)
    ensures Grouped(maps + [m]) == WithMap(Grouped(maps), m)
  {
    assert (maps + [m])[..|maps|] == maps;
  }

  lemma PartsSnoc(gs: seq<ByAniDBId>, g: ByAniDBId, season: Int)
    ensures Parts(gs + [g], season) == Parts(gs, season) + if StartsPart(g, season) then 1 else 0
  {
    assert (gs + [g])[..|gs|] == gs;
  }

  // ---------------------------------------------------------------- what the groups are

  function Concat(gs: seq<ByAniDBId>): seq<EpisodeMap> {
    if gs == [] then [] else Concat(gs[..|gs| - 1]) + gs[|gs| - 1].maps
  }

  lemma ConcatSnoc(gs: seq<ByAniDBId>, g: ByAniDBId)
    ensures Concat(gs + [g]) == Concat(gs) + g.maps
  {
    assert (gs + [g])[..|gs|] == gs;
  }

  predicate IsRun(g: ByAniDBId) {
    g.maps != [] && forall i :: 0 <= i < |g.maps| ==> g.maps[i].aniDBId == g.aniDBId
  }

  /** Neighbouring groups differ. */
  predicate AreRuns(gs: seq<ByAniDBId>) {
    && (forall k :: 0 <= k < |gs| ==> IsRun(gs[k]))
    && (forall k :: 0 < k < |gs| ==> gs[k].aniDBId != gs[k - 1].aniDBId)
  }

  lemma WithMapConserves(gs: seq<ByAniDBId>, m: EpisodeMap)
    requires AreRuns(gs)
    ensures AreRuns(WithMap(gs, m)) && Concat(WithMap(gs, m)) == Concat(gs) + [m]
  {
    if gs != [] && gs[|gs| - 1].aniDBId == m.aniDBId {
      var front, last := gs[..|gs| - 1], gs[|gs| - 1];
      assert gs == front + [last];
      assert WithMap(gs, m) == front + [last.(maps := last.maps + [m])];
      ConcatSnoc(front, last.(maps := last.maps + [m]));
    } else {
      ConcatSnoc(gs, NewGroup(gs, m));
    }
  }

  /** Grouping loses, invents and reorders nothing, and the groups are the longest runs of an id. */
  lemma {:induction false} GroupingConserves(maps: seq<EpisodeMap>)
    ensures AreRuns(Grouped(maps)) && Concat(Grouped(maps)) == maps
  {
    if maps != [] {
      var rest, m := maps[..|maps| - 1], maps[|maps| - 1];
      assert maps == rest + [m];
      GroupingConserves(rest);
      WithMapConserves(Grouped(rest), m);
    }
  }

  /** The parts of a season are numbered by the groups before them; other groups have part 0. */
  predicate AreNumbered(gs: seq<ByAniDBId>) {
    && (forall k :: 0 <= k < |gs| ==> gs[k].maps != [])
    && (forall k :: 0 <= k < |gs| ==> gs[k].part == PartNumber(gs[..k], gs[k].maps[0]))
  }

  function PartNumber(gs: seq<ByAniDBId>, m: EpisodeMap): nat {
    if IsNumbered(m) then Parts(gs, m.tvdbSeason) + 1 else 0
  }

  lemma WithMapIsNumbered(gs: seq<ByAniDBId>, m: EpisodeMap)
    requires AreNumbered(gs)
    ensures AreNumbered(WithMap(gs, m))
  {
    var hs, last := WithMap(gs, m), |gs| - 1;
    if gs != [] && gs[last].aniDBId == m.aniDBId {
      assert forall k :: 0 <= k < |hs| ==> hs[..k] == gs[..k] && hs[k].maps[0] == gs[k].maps[0];
    } else {
      assert forall k :: 0 <= k < |gs| ==> hs[..k] == gs[..k];
      assert hs[..|gs|] == gs;
    }
  }

  lemma {:induction false} GroupsAreNumbered(maps: seq<EpisodeMap>)
    ensures AreNumbered(Grouped(maps))
  {
    if maps != [] {
      var rest, m := maps[..|maps| - 1], maps[|maps| - 1];
      GroupsAreNumbered(rest);
      WithMapIsNumbered(Grouped(rest), m);
    }
  }

  /** The number of parts grows by at most one per group. */
  lemma {:induction false} PartsGrow(gs: seq<ByAniDBId>, season: Int, j: nat, k: nat)
    requires j <= k <= |gs|
    ensures Parts(gs[..j], season) <= Parts(gs[..k], season)
    ensures j < k && StartsPart(gs[j], season) ==> Parts(gs[..j], season) < Parts(gs[..k], season)
    decreases k
  {
    if j < k {
      assert gs[..k][..k - 1] == gs[..k - 1];
      PartsGrow(gs, season, j, k - 1);
    }
  }

  /** The group that is part `part` of a season. */
  lemma {:induction false} PartExists(gs: seq<ByAniDBId>, season: Int, part: nat) returns (k: nat)
    requires 1 <= part <= Parts(gs, season)
    ensures k < |gs| && StartsPart(gs[k], season) && Parts(gs[..k], season) + 1 == part
  {
    var last := |gs| - 1;
    if Parts(gs[..last], season) >= part {
      k := PartExists(gs[..last], season, part);
      assert gs[..last][..k] == gs[..k];
    } else {
      k := last;
    }
  }

  /** The parts of a season are numbered 1, 2, 3, ... without gaps, each number once. */
  lemma PartsAreGapless(maps: seq<EpisodeMap>, season: Int, part: nat)
    ensures var gs := Grouped(maps);
            (exists k :: 0 <= k < |gs| && StartsPart(gs[k], season) && gs[k].part == part)
            <==> 1 <= part <= Parts(gs, season)
    ensures var gs := Grouped(maps);
            forall j, k :: 0 <= j < k < |gs| && StartsPart(gs[j], season) && StartsPart(gs[k], season) ==>
              gs[j].part < gs[k].part
  {
    var gs := Grouped(maps);
    GroupsAreNumbered(maps);
    assert gs[..|gs|] == gs;
    forall j, k | 0 <= j < k <= |gs| && StartsPart(gs[j], season)
      ensures Parts(gs[..j], season) < Parts(gs[..k], season)
    {
      PartsGrow(gs, season, j, k);
    }
    if 1 <= part <= Parts(gs, season) {
      var k := PartExists(gs, season, part);
    }
  }

  /** Two groups that begin with parts of the same TVDB season. */
  ghost predicate ShareSeason(gs: seq<ByAniDBId>) {
    exists j, k :: 0 <= j < k < |gs| && IsJoined(gs[j], gs[k])
  }

  predicate IsJoined(g: ByAniDBId, h: ByAniDBId) {
    && g.maps != [] && h.maps != []
    && IsNumbered(g.maps[0]) && IsNumbered(h.maps[0]) && g.maps[0].tvdbSeason == h.maps[0].tvdbSeason
  }

  /** Both begin in the same positive TVDB season, and neither with specials. */
  predicate BeginTogether(a: seq<EpisodeMap>, b: seq<EpisodeMap>) {
    && a != [] && b != [] && a[0].tvdbSeason == b[0].tvdbSeason > 0
    && a[0].aniDBSeason > 0 && b[0].aniDBSeason > 0
  }

  lemma JoinedIff(maps: seq<EpisodeMap>)
    ensures (exists k :: 0 <= k < |Grouped(maps)| && Grouped(maps)[k].part > 1) <==> ShareSeason(Grouped(maps))
    ensures ShareSeason(Grouped(maps)) <==>
            exists j, k :: 0 <= j < k < |Grouped(maps)| && BeginTogether(Grouped(maps)[j].maps, Grouped(maps)[k].maps)
  {
    var gs := Grouped(maps);
    assert forall j, k :: 0 <= j < k < |gs| ==> (IsJoined(gs[j], gs[k]) <==> BeginTogether(gs[j].maps, gs[k].maps));
    GroupsAreNumbered(maps);
    if k :| 0 <= k < |gs| && gs[k].part > 1 {
      var season := gs[k].maps[0].tvdbSeason;
      var j := PartExists(gs[..k], season, 1);
      assert IsJoined(gs[j], gs[k]);
    }
    if ShareSeason(gs) {
      var j, k :| 0 <= j < k < |gs| && IsJoined(gs[j], gs[k]);
      PartsGrow(gs, gs[j].maps[0].tvdbSeason, j, k);
      assert gs[k].part > 1;
    }
  }

  // ---------------------------------------------------------------- one group per id

  /** The maps of an id stand together. */
  predicate IsContiguous(maps: seq<EpisodeMap>) {
    forall i, j, k :: 0 <= i < j < k < |maps| && maps[i].aniDBId == maps[k].aniDBId ==>
      maps[j].aniDBId == maps[i].aniDBId
  }

  predicate AreDistinct(gs: seq<ByAniDBId>) {
    forall j, k :: 0 <= j < k < |gs| ==> gs[j].aniDBId != gs[k].aniDBId
  }

  /** The linear scan for an id. */
  function Select(maps: seq<EpisodeMap>, aniDBId: string): seq<EpisodeMap> {
    if maps == [] then []
    else
      var rest, m := Select(maps[..|maps| - 1], aniDBId), maps[|maps| - 1];
      if m.aniDBId == aniDBId then rest + [m] else rest
  }

  lemma {:induction false} SelectConcat(maps: seq<EpisodeMap>, more: seq<EpisodeMap>, aniDBId: string)
    ensures Select(maps + more, aniDBId) == Select(maps, aniDBId) + Select(more, aniDBId)
    decreases |more|
  {
    if more == [] {
      assert maps + more == maps;
    } else {
      assert (maps + more)[..|maps + more| - 1] == maps + more[..|more| - 1];
      SelectConcat(maps, more[..|more| - 1], aniDBId);
    }
  }

  lemma {:induction false} SelectRun(g: ByAniDBId, maps: seq<EpisodeMap>, aniDBId: string)
    requires forall i :: 0 <= i < |maps| ==> maps[i].aniDBId == g.aniDBId
    ensures Select(maps, aniDBId) == if g.aniDBId == aniDBId then maps else []
  {
    if maps != [] {
      SelectRun(g, maps[..|maps| - 1], aniDBId);
    }
  }

  /** A scan of the groups finds the maps of the groups with the id. */
  lemma {:induction false} SelectGroups(gs: seq<ByAniDBId>, k: nat, aniDBId: string)
    requires forall j :: 0 <= j < |gs| ==> IsRun(gs[j])
    requires k < |gs| && gs[k].aniDBId == aniDBId && AreDistinct(gs)
    ensures Select(Concat(gs), aniDBId) == gs[k].maps
  {
    var rest, g := gs[..|gs| - 1], gs[|gs| - 1];
    SelectConcat(Concat(rest), g.maps, aniDBId);
    SelectRun(g, g.maps, aniDBId);
    if k < |rest| {
      SelectGroups(rest, k, aniDBId);
    } else {
      SelectNone(rest, aniDBId);
    }
  }

  lemma {:induction false} SelectNone(gs: seq<ByAniDBId>, aniDBId: string)
    requires forall j :: 0 <= j < |gs| ==> IsRun(gs[j]) && gs[j].aniDBId != aniDBId
    ensures Select(Concat(gs), aniDBId) == []
  {
    if gs != [] {
      var rest, g := gs[..|gs| - 1], gs[|gs| - 1];
      SelectNone(rest, aniDBId);
      SelectConcat(Concat(rest), g.maps, aniDBId);
      SelectRun(g, g.maps, aniDBId);
    }
  }

  /** Where the maps of a group begin. */
  function Start(gs: seq<ByAniDBId>, k: nat): nat
    requires k <= |gs|
  {
    |Concat(gs[..k])|
  }

  lemma {:induction false} StartIs(gs: seq<ByAniDBId>, k: nat)
    requires AreRuns(gs) && k < |gs|
    ensures Start(gs, k) < |Concat(gs)| && Concat(gs)[Start(gs, k)].aniDBId == gs[k].aniDBId
  {
    var rest, g := gs[..|gs| - 1], gs[|gs| - 1];
    assert rest[..k] == gs[..k];
    if k < |rest| {
      StartIs(rest, k);
    } else {
      assert Concat(gs)[|Concat(rest)|] == g.maps[0];
    }
  }

  lemma NextStart(gs: seq<ByAniDBId>, k: nat)
    requires AreRuns(gs) && k < |gs|
    ensures Start(gs, k) < Start(gs, k + 1)
  {
    assert gs[..k + 1][..k] == gs[..k];
  }

  lemma {:induction false} StartsGrow(gs: seq<ByAniDBId>, j: nat, k: nat)
    requires AreRuns(gs) && j < k < |gs|
    ensures Start(gs, j) < Start(gs, k)
    decreases k
  {
    NextStart(gs, k - 1);
    if j < k - 1 {
      StartsGrow(gs, j, k - 1);
    }
  }

  lemma {:induction false} IdOfGroup(gs: seq<ByAniDBId>, i: nat)
    requires AreRuns(gs) && i < |Concat(gs)|
    ensures exists k :: 0 <= k < |gs| && gs[k].aniDBId == Concat(gs)[i].aniDBId
  {
    var rest := gs[..|gs| - 1];
    if i < |Concat(rest)| {
      IdOfGroup(rest, i);
      var k :| 0 <= k < |rest| && rest[k].aniDBId == Concat(rest)[i].aniDBId;
      assert gs[k].aniDBId == Concat(gs)[i].aniDBId;
    } else {
      assert gs[|rest|].aniDBId == Concat(gs)[i].aniDBId;
    }
  }

  /** The group before group `k` lies between the first maps of groups `j` and `k`. */
  lemma GroupBetween(gs: seq<ByAniDBId>, j: nat, k: nat) returns (a: nat, b: nat, c: nat)
    requires AreRuns(gs) && j < k - 1 < |gs| - 1
    ensures a < b < c < |Concat(gs)|
    ensures Concat(gs)[a].aniDBId == gs[j].aniDBId
    ensures Concat(gs)[b].aniDBId == gs[k - 1].aniDBId
    ensures Concat(gs)[c].aniDBId == gs[k].aniDBId
  {
    a, b, c := Start(gs, j), Start(gs, k - 1), Start(gs, k);
    StartIs(gs, j);
    StartIs(gs, k - 1);
    StartIs(gs, k);
    StartsGrow(gs, j, k - 1);
    NextStart(gs, k - 1);
  }

  lemma ContiguousIsDistinct(gs: seq<ByAniDBId>)
    requires AreRuns(gs) && IsContiguous(Concat(gs))
    ensures AreDistinct(gs)
  {
    forall j, k | 0 <= j < k < |gs| ensures gs[j].aniDBId != gs[k].aniDBId {
      if j < k - 1 {
        var a, b, c := GroupBetween(gs, j, k);
      }
    }
  }

  lemma {:induction false} DistinctIsContiguous(gs: seq<ByAniDBId>)
    requires AreRuns(gs) && AreDistinct(gs)
    ensures IsContiguous(Concat(gs))
  {
    if gs != [] {
      var rest, g := gs[..|gs| - 1], gs[|gs| - 1];
      DistinctIsContiguous(rest);
      forall i | 0 <= i < |Concat(rest)| ensures Concat(rest)[i].aniDBId != g.aniDBId {
        IdOfGroup(rest, i);
      }
      RunBehind(Concat(rest), g);
    }
  }

  lemma RunBehind(maps: seq<EpisodeMap>, g: ByAniDBId)
    requires IsContiguous(maps) && IsRun(g)
    requires forall i :: 0 <= i < |maps| ==> maps[i].aniDBId != g.aniDBId
    ensures IsContiguous(maps + g.maps)
  {
    var all := maps + g.maps;
    forall i, j, k | 0 <= i < j < k < |all| && all[i].aniDBId == all[k].aniDBId
      ensures all[j].aniDBId == all[i].aniDBId
    {
      assert k >= |maps| ==> all[k] == g.maps[k - |maps|];
      assert i >= |maps| ==> all[j] == g.maps[j - |maps|];
    }
  }

  /** Each id has one group if and only if its maps stand together. */
  lemma OneGroupPerIdIff(maps: seq<EpisodeMap>)
    ensures AreDistinct(Grouped(maps)) <==> IsContiguous(maps)
  {
    GroupingConserves(maps);
    if IsContiguous(maps) {
      ContiguousIsDistinct(Grouped(maps));
    }
    if AreDistinct(Grouped(maps)) {
      DistinctIsContiguous(Grouped(maps));
    }
  }

  // ---------------------------------------------------------------- looking up an id

  /** The index of the last group of an id, or -1. */
  function LastGroup(gs: seq<ByAniDBId>, aniDBId: string): (k: int)
    ensures -1 <= k < |gs|
    ensures k >= 0 ==> gs[k].aniDBId == aniDBId
    ensures forall j :: k < j < |gs| ==> gs[j].aniDBId != aniDBId
  {
    var last := |gs| - 1;
    if gs == [] then -1 else if gs[last].aniDBId == aniDBId then last else LastGroup(gs[..last], aniDBId)
  }

  function LookUp(maps: seq<EpisodeMap>, aniDBId: string): Option<ByAniDBId> {
    var k := LastGroup(Grouped(maps), aniDBId);
    if k < 0 then None else Some(Grouped(maps)[k])
  }

  /** For maps that stand together, the index finds what a linear scan finds. */
  lemma LookUpIsScan(maps: seq<EpisodeMap>, aniDBId: string)
    requires IsContiguous(maps)
    ensures (if LookUp(maps, aniDBId).Some? then LookUp(maps, aniDBId).value.maps else []) == Select(maps, aniDBId)
    ensures LookUp(maps, aniDBId).Some? <==> Select(maps, aniDBId) != []
  {
    var gs := Grouped(maps);
    GroupingConserves(maps);
    OneGroupPerIdIff(maps);
    var k := LastGroup(gs, aniDBId);
    if k >= 0 {
      SelectGroups(gs, k, aniDBId);
    } else {
      SelectNone(gs, aniDBId);
    }
  }

  // ---------------------------------------------------------------- the memoising result

  ghost predicate CountsParts(gs: seq<ByAniDBId>, partByTVDBSeason: map<string, nat>) {
    forall season: Int :: season > 0 ==> CountsSeason(gs, partByTVDBSeason, season)
  }

  ghost predicate CountsSeason(gs: seq<ByAniDBId>, partByTVDBSeason: map<string, nat>, season: Int) {
    var key, parts := Itoa(season), Parts(gs, season);
    if parts == 0 then key !in partByTVDBSeason else key in partByTVDBSeason && partByTVDBSeason[key] == parts
  }

  function Counted(gs: seq<ByAniDBId>, partByTVDBSeason: map<string, nat>, m: EpisodeMap): map<string, nat> {
    if IsNumbered(m) then partByTVDBSeason[Itoa(m.tvdbSeason) := Parts(gs, m.tvdbSeason) + 1] else partByTVDBSeason
  }

  lemma CountNext(gs: seq<ByAniDBId>, partByTVDBSeason: map<string, nat>, m: EpisodeMap)
    requires CountsParts(gs, partByTVDBSeason)
    ensures CountsParts(gs + [NewGroup(gs, m)], Counted(gs, partByTVDBSeason, m))
  {
    var hs, counted := gs + [NewGroup(gs, m)], Counted(gs, partByTVDBSeason, m);
    forall season: Int | season > 0 ensures CountsSeason(hs, counted, season) {
      PartsSnoc(gs, NewGroup(gs, m), season);
      assert CountsSeason(gs, partByTVDBSeason, season);
      if Itoa(season) == Itoa(m.tvdbSeason) {
        ItoaInjective(season, m.tvdbSeason);
      }
    }
  }

  lemma CountSame(gs: seq<ByAniDBId>, partByTVDBSeason: map<string, nat>, m: EpisodeMap)
    requires gs != [] && gs[|gs| - 1].aniDBId == m.aniDBId && gs[|gs| - 1].maps != []
    requires CountsParts(gs, partByTVDBSeason)
    ensures CountsParts(WithMap(gs, m), partByTVDBSeason)
  {
    var front, last := gs[..|gs| - 1], gs[|gs| - 1];
    assert gs == front + [last];
    assert WithMap(gs, m) == front + [last.(maps := last.maps + [m])];
    forall season: Int | season > 0 ensures CountsSeason(WithMap(gs, m), partByTVDBSeason, season) {
      PartsSnoc(front, last, season);
      PartsSnoc(front, last.(maps := last.maps + [m]), season);
      assert CountsSeason(gs, partByTVDBSeason, season);
    }
  }

  /** The last group of every id. */
  ghost predicate IsIndex(gs: seq<ByAniDBId>, idx: map<string, nat>) {
    forall id :: if LastGroup(gs, id) < 0 then id !in idx else id in idx && idx[id] == LastGroup(gs, id)
  }

  lemma IndexSnoc(gs: seq<ByAniDBId>, g: ByAniDBId, idx: map<string, nat>)
    requires IsIndex(gs, idx)
    ensures IsIndex(gs + [g], idx[g.aniDBId := |gs|])
  {
    assert (gs + [g])[..|gs|] == gs;
  }

  class AniDBTVDBEpisodeMapsResult {
    const episodeMaps: seq<EpisodeMap>
    var groupedByAniDBId: Option<seq<ByAniDBId>>
    var idxByAniDBId: Option<map<string, nat>>

    /** What has been memoised is right. */
    ghost predicate Valid()
      reads this
    {
      && (groupedByAniDBId.Some? <==> idxByAniDBId.Some?)
      && (groupedByAniDBId.Some? ==>
            && groupedByAniDBId.value == Grouped(episodeMaps)
            && IsIndex(groupedByAniDBId.value, idxByAniDBId.value))
    }

    constructor (maps: seq<EpisodeMap>)
      ensures Valid() && episodeMaps == maps
    {
      episodeMaps := maps;
      groupedByAniDBId, idxByAniDBId := None, None;
    }

    method GroupByAniDBId() returns (gs: seq<ByAniDBId>)
      requires Valid()
      modifies this
      ensures Valid() && groupedByAniDBId == Some(gs) && gs == Grouped(episodeMaps)
    {
      if groupedByAniDBId.Some? {
        return groupedByAniDBId.value;
      }
      gs := Group(episodeMaps);
      var idx := Index(gs);
      groupedByAniDBId, idxByAniDBId := Some(gs), Some(idx);
    }

    static method Group(maps: seq<EpisodeMap>) returns (gs: seq<ByAniDBId>)
      ensures gs == Grouped(maps)
    {
      gs := [];
      var idx := -1;
      var partByTVDBSeason: map<string, nat> := map[];
      for i := 0 to |maps|
        invariant gs == Grouped(maps[..i]) && idx == |gs| - 1
        invariant CountsParts(gs, partByTVDBSeason)
      {
        assert maps[..i + 1] == maps[..i] + [maps[i]];
        GroupedSnoc(maps[..i], maps[i]);
        GroupingConserves(maps[..i]);
        gs, idx, partByTVDBSeason := Add(gs, idx, partByTVDBSeason, maps[i]);
      }
      assert maps[..|maps|] == maps;
    }

    static method Add(gs0: seq<ByAniDBId>, idx0: int, parts: map<string, nat>, m: EpisodeMap)
      returns (gs: seq<ByAniDBId>, idx: int, partByTVDBSeason: map<string, nat>)
      requires AreRuns(gs0) && CountsParts(gs0, parts) && idx0 == |gs0| - 1
      ensures gs == WithMap(gs0, m) && idx == |gs| - 1
      ensures CountsParts(gs, partByTVDBSeason)
    {
      gs, idx, partByTVDBSeason := gs0, idx0, parts;
      if idx == -1 || gs[idx].aniDBId != m.aniDBId {
        idx := idx + 1;
      }
      if |gs| == idx {
        var part: nat;
        CountNext(gs, parts, m);
        part, partByTVDBSeason := NextPart(gs, parts, m);
        gs := gs + [ByAniDBId(m.aniDBId, part, [])];
        assert gs[idx].maps + [m] == [m];
      } else {
        CountSame(gs, parts, m);
      }
      gs := gs[idx := gs[idx].(maps := gs[idx].maps + [m])];
    }

    static method NextPart(ghost gs: seq<ByAniDBId>, parts: map<string, nat>, m: EpisodeMap)
      returns (part: nat, partByTVDBSeason: map<string, nat>)
      requires CountsParts(gs, parts)
      ensures part == PartNumber(gs, m)
      ensures partByTVDBSeason == Counted(gs, parts, m)
    {
      part, partByTVDBSeason := 0, parts;
      var key := Itoa(m.tvdbSeason);
      if m.tvdbSeason > 0 && m.aniDBSeason > 0 {
        assert CountsSeason(gs, parts, m.tvdbSeason);
        if key in parts {
          partByTVDBSeason := parts[key := parts[key] + 1];
        } else {
          partByTVDBSeason := parts[key := 1];
        }
        part := partByTVDBSeason[key];
      }
    }

    static method Index(gs: seq<ByAniDBId>) returns (idx: map<string, nat>)
      ensures IsIndex(gs, idx)
    {
      idx := map[];
      for i := 0 to |gs|
        invariant IsIndex(gs[..i], idx)
      {
        assert gs[..i + 1] == gs[..i] + [gs[i]];
        IndexSnoc(gs[..i], gs[i], idx);
        idx := idx[gs[i].aniDBId := i];
      }
      assert gs[..|gs|] == gs;
    }

    method GetByAniDBId(aniDBId: string) returns (g: Option<ByAniDBId>)
      requires Valid()
      modifies this
      ensures Valid() && g == LookUp(episodeMaps, aniDBId)
    {
      if idxByAniDBId.None? {
        var gs := GroupByAniDBId();
      }
      if aniDBId in idxByAniDBId.value {
        g := Some(groupedByAniDBId.value[idxByAniDBId.value[aniDBId]]);
      } else {
        g := None;
      }
    }

    method HasJoinedTVSeasons() returns (joined: bool)
      requires Valid()
      modifies this
      ensures Valid() && (joined <==> ShareSeason(Grouped(episodeMaps)))
    {
      var gs := GroupByAniDBId();
      JoinedIff(episodeMaps);
      for i := 0 to |gs|
        invariant forall j :: 0 <= j < i ==> gs[j].part <= 1
      {
        if gs[i].part > 1 {
          return true;
        }
      }
      joined := false;
    }
  }
}
