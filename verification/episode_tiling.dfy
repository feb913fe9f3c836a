/**
 What the construction of the episode maps guarantees: an item's maps depend on itself and the next
 part of its season alone, parts tile their season, and every TVDB episode is in one part.
 */
module EpisodeTiling {
  import opened Wrappers
  import opened Decimal
  import opened EpisodeMaps
  import opened EpisodeParts

  /** The next part of the season of entry `j`, or the number of entries if it has the last one. */
  function PartAfter(entries: seq<Entry>, j: nat): (k: nat)
    requires j < |entries|
    ensures j < k <= |entries|
    ensures k < |entries| ==> IsTracked(entries[j].item.season) && entries[k].item.season == entries[j].item.season
    ensures IsTracked(entries[j].item.season) ==>
              forall i :: j < i < k ==> entries[i].item.season != entries[j].item.season
  {
    var n := |entries| - 1;
    if j == n then |entries|
    else
      var k := PartAfter(entries[..n], j);
      if k < n then k
      else if IsTracked(entries[j].item.season) && entries[n].item.season == entries[j].item.season then n
      else |entries|
  }

  predicate IsLater(entries: seq<Entry>, j: nat)
    requires j < |entries|
  {
    PartBefore(entries[..j], entries[j]) >= 0
  }

  /** What entry `j` contributes: its own maps, the first of which is bounded by the next part. */
  function Contribution(entries: seq<Entry>, j: nat): seq<EpisodeMap>
    requires j < |entries|
  {
    var own, next := ItemMaps(entries[j], IsLater(entries, j)), PartAfter(entries, j);
    if next < |entries| then own[0 := Bounded(own[0], entries[next].offset)] else own
  }

  /** The construction, which goes back to earlier maps, does nothing else to them. */
  lemma {:induction false} GroupsAreContributions(entries: seq<Entry>, j: nat)
    requires j < |entries|
    ensures Groups(entries)[j] == Contribution(entries, j)
    decreases |entries|
  {
    var rest, e := entries[..|entries| - 1], entries[|entries| - 1];
    assert entries == rest + [e];
    GroupsSnoc(rest, e);
    assert entries[..j] == rest[..j];
    if j < |rest| {
      GroupsAreContributions(rest, j);
      LastPartHasNoNext(rest, e, j);
    }
  }

  lemma LastPartHasNoNext(entries: seq<Entry>, e: Entry, j: nat)
    requires j < |entries|
    ensures PartBefore(entries, e) == j
       <==> && PartAfter(entries, j) == |entries|
            && IsTracked(entries[j].item.season) && e.item.season == entries[j].item.season
    ensures PartAfter(entries + [e], j)
         == if PartAfter(entries, j) < |entries| then PartAfter(entries, j)
            else if PartBefore(entries, e) == j then |entries| else |entries| + 1
  {
    assert (entries + [e])[..|entries|] == entries;
  }

  /** A mapping with numbers only. */
  predicate IsReadable(mapping: Mapping) {
    && Atoi(mapping.tvdbSeason).Some? && IsNumberOrEmpty(mapping.start)
    && IsNumberOrEmpty(mapping.end) && IsNumberOrEmpty(mapping.offset)
  }

  function EndOf(mapping: Mapping): Int {
    match Atoi(mapping.end) case None => 0 case Some(n) => n
  }

  lemma FillReadsAll(m: EpisodeMap, mapping: Mapping)
    ensures Fill(m, mapping).ok <==> IsReadable(mapping)
    ensures Fill(m, mapping).ok && EndOf(mapping) > 0 ==> Fill(m, mapping).m.end == EndOf(mapping)
  {
    assert Atoi("").None?;
  }

  /** The mapping list neither has the item's own season, nor a second season that would bound the
      first one, nor anything that would widen a season written as -1. */
  predicate LeavesDefault(e: Entry) {
    IsTracked(e.item.season) && forall i :: 0 <= i < |e.item.mappings| ==> IsAside(e.item, e.item.mappings[i])
  }

  predicate IsAside(item: Item, mapping: Mapping) {
    && KeyOf(mapping) != DefaultKey(item)
    && !(item.season == "1" && mapping.aniDBSeason == "1" && Atoi(mapping.tvdbSeason) == Some(2))
    && !(item.season == "-1" && IsReadable(mapping))
  }

  /** Nothing but the key of the item's own season points at its default map. */
  ghost predicate IsLeft(item: Item, g: Group, m: EpisodeMap) {
    && g.Valid() && g.maps[0] == m
    && DefaultKey(item) in g.seen && g.seen[DefaultKey(item)] == 0
    && forall key :: key in g.seen && key != DefaultKey(item) ==> g.seen[key] > 0
  }

  lemma FilledSeason(m: EpisodeMap, mapping: Mapping)
    requires Fill(m, mapping).ok
    ensures Atoi(mapping.tvdbSeason) == Some(Fill(m, mapping).m.tvdbSeason)
  {
  }

  lemma KeysDiffer(item: Item)
    requires IsTracked(item.season)
    ensures DefaultKey(item) == ABSOLUTE_KEY ==> item.season == "-1"
    ensures DefaultKey(item) == SEASON_ONE_KEY ==> item.season == "1"
  {
    assert DefaultKey(item)[2..] == item.season;
    assert ABSOLUTE_KEY[2..] == "-1" && SEASON_ONE_KEY[2..] == "1";
  }

  lemma WidenLeaves(item: Item, g: Group, wide: EpisodeMap, m: EpisodeMap)
    requires IsLeft(item, g, m) && DefaultKey(item) != ABSOLUTE_KEY
    ensures IsLeft(item, Widen(g, wide), m)
  {
  }

  lemma SeasonOneLeaves(item: Item, g: Group, two: EpisodeMap, m: EpisodeMap)
    requires IsLeft(item, g, m) && DefaultKey(item) != SEASON_ONE_KEY
    ensures IsLeft(item, WithSeasonOne(g, item, two), m)
  {
  }

  lemma MappingLeaves(item: Item, g: Group, mapping: Mapping, m: EpisodeMap)
    requires IsLeft(item, g, m) && IsAside(item, mapping)
    requires IsTracked(item.season)
    ensures IsLeft(item, WithMapping(g, item, mapping), m)
  {
    KeysDiffer(item);
    var key := KeyOf(mapping);
    if key in g.seen {
      var f := Fill(g.maps[g.seen[key]], mapping);
      FillReadsAll(g.maps[g.seen[key]], mapping);
      if f.ok {
        WidenLeaves(item, g.(maps := g.maps[g.seen[key] := f.m]), f.m, m);
      }
    } else {
      var f := Fill(Blank(item), mapping);
      FillReadsAll(Blank(item), mapping);
      if f.ok {
        FilledSeason(Blank(item), mapping);
        var g1 := g;
        if f.m.tvdbSeason == 2 && mapping.aniDBSeason == "1" {
          SeasonOneLeaves(item, g, f.m, m);
          g1 := WithSeasonOne(g, item, f.m);
        }
        WidenLeaves(item, Group(g1.maps + [f.m], g1.seen[key := |g1.maps|]), f.m, m);
      }
    }
  }

  lemma {:induction false} MappingsLeave(item: Item, g: Group, mappings: seq<Mapping>, m: EpisodeMap)
    requires IsLeft(item, g, m) && forall i :: 0 <= i < |mappings| ==> IsAside(item, mappings[i])
    requires IsTracked(item.season)
    ensures IsLeft(item, WithMappings(g, item, mappings), m)
  {
    if mappings != [] {
      var rest := mappings[..|mappings| - 1];
      MappingsLeave(item, g, rest, m);
      MappingLeaves(item, WithMappings(g, item, rest), mappings[|mappings| - 1], m);
    }
  }

  lemma DefaultIsLeft(e: Entry, isLater: bool)
    requires LeavesDefault(e)
    ensures ItemMaps(e, isLater)[0] == DefaultMap(e, isLater)
  {
    MappingsLeave(e.item, Started(e, isLater), e.item.mappings, DefaultMap(e, isLater));
  }

  /** An item without mapping list has its default map and no other, and leaves it. */
  lemma PlainItem(e: Entry, isLater: bool)
    requires e.item.mappings == []
    ensures ItemMaps(e, isLater) == [DefaultMap(e, isLater)]
    ensures LeavesDefault(e) <==> IsTracked(e.item.season)
  {
    assert WithMappings(Started(e, isLater), e.item, e.item.mappings) == Started(e, isLater);
  }

  // ---------------------------------------------------------------- parts tile

  /** The default map of an entry at the end of the construction, given the offset of the next part. */
  predicate IsPart(e: Entry, isLater: bool, next: Option<Int>, m: EpisodeMap) {
    m == if next.Some? then Bounded(DefaultMap(e, isLater), next.value) else DefaultMap(e, isLater)
  }

  function NextOffset(entries: seq<Entry>, j: nat): Option<Int>
    requires j < |entries|
  {
    var next := PartAfter(entries, j);
    if next < |entries| then Some(entries[next].offset) else None
  }

  /** The first of an entry's maps at the end of the construction. */
  function FirstOf(entries: seq<Entry>, j: nat): EpisodeMap
    requires j < |entries|
  {
    Groups(entries)[j][0]
  }

  lemma FirstIsPart(entries: seq<Entry>, j: nat)
    requires j < |entries| && LeavesDefault(entries[j])
    ensures IsPart(entries[j], IsLater(entries, j), NextOffset(entries, j), FirstOf(entries, j))
  {
    GroupsAreContributions(entries, j);
    DefaultIsLeft(entries[j], IsLater(entries, j));
  }

  lemma PartFields(e: Entry, isLater: bool, next: Option<Int>, m: EpisodeMap)
    requires e.item.season != "a" && IsPart(e, isLater, next, m)
    ensures m.aniDBSeason == 1 && m.tvdbSeason == e.tvdbSeason && m.offset == e.offset && m.episodes == map[]
    ensures m.start == if next.Some? || isLater then 1 else 0
    ensures m.end == if next.Some? then Wrap(next.value - e.offset) else 0
  {
  }

  lemma NextIsLater(entries: seq<Entry>, j: nat)
    requires j < |entries| && PartAfter(entries, j) < |entries|
    ensures IsLater(entries, PartAfter(entries, j))
  {
    var k := PartAfter(entries, j);
    assert entries[..k][j].item.season == entries[k].item.season;
  }

  /** The first map that an entry has of its own, before the next part bounds it. */
  function OwnFirst(entries: seq<Entry>, j: nat): EpisodeMap
    requires j < |entries|
  {
    ItemMaps(entries[j], IsLater(entries, j))[0]
  }

  /** The mapping list of a part sets no end. */
  predicate IsOpenEnded(entries: seq<Entry>, j: nat)
    requires j < |entries|
  {
    OwnFirst(entries, j).end == 0
  }

  /** The mapping list of a part leaves the start and the offset it came with. */
  predicate BeginsAtOffset(entries: seq<Entry>, j: nat)
    requires j < |entries|
  {
    OwnFirst(entries, j).start == 1 && OwnFirst(entries, j).offset == entries[j].offset
  }

  /** A map as it is, or bounded by the next part. */
  predicate IsBoundedBy(own: EpisodeMap, next: Option<Int>, m: EpisodeMap) {
    m == if next.Some? then Bounded(own, next.value) else own
  }

  lemma FirstIsBounded(entries: seq<Entry>, j: nat)
    requires j < |entries|
    ensures IsBoundedBy(OwnFirst(entries, j), NextOffset(entries, j), FirstOf(entries, j))
  {
    GroupsAreContributions(entries, j);
  }

  lemma BoundedEnd(own: EpisodeMap, nextOffset: Int)
    requires own.end == 0
    ensures TVDBEpisodeEnd(Bounded(own, nextOffset)) == nextOffset
  {
  }

  lemma BoundedStart(own: EpisodeMap, next: Option<Int>, m: EpisodeMap)
    requires own.start == 1 && IsBoundedBy(own, next, m)
    ensures TVDBEpisodeStart(m) == Wrap(own.offset + 1)
  {
  }

  lemma EndOfPart(entries: seq<Entry>, j: nat, m: EpisodeMap)
    requires j < |entries| && PartAfter(entries, j) < |entries| && IsOpenEnded(entries, j)
    requires IsBoundedBy(OwnFirst(entries, j), NextOffset(entries, j), m)
    ensures TVDBEpisodeEnd(m) == entries[PartAfter(entries, j)].offset
  {
    BoundedEnd(OwnFirst(entries, j), entries[PartAfter(entries, j)].offset);
  }

  lemma StartOfPart(entries: seq<Entry>, j: nat, m: EpisodeMap)
    requires j < |entries| && BeginsAtOffset(entries, j)
    requires IsBoundedBy(OwnFirst(entries, j), NextOffset(entries, j), m)
    ensures TVDBEpisodeStart(m) == Wrap(entries[j].offset + 1)
  {
    BoundedStart(OwnFirst(entries, j), NextOffset(entries, j), m);
  }

  /** A part whose mapping list sets no end, whatever its offset is made to be, ends with the TVDB
      episode that the offset of the next part names. */
  lemma PartEndsAtNext(entries: seq<Entry>, j: nat)
    requires j < |entries| && PartAfter(entries, j) < |entries| && IsOpenEnded(entries, j)
    ensures TVDBEpisodeEnd(FirstOf(entries, j)) == entries[PartAfter(entries, j)].offset
  {
    FirstIsBounded(entries, j);
    EndOfPart(entries, j, FirstOf(entries, j));
  }

  lemma PartBegins(entries: seq<Entry>, j: nat)
    requires j < |entries| && BeginsAtOffset(entries, j)
    ensures TVDBEpisodeStart(FirstOf(entries, j)) == Wrap(entries[j].offset + 1)
  {
    FirstIsBounded(entries, j);
    StartOfPart(entries, j, FirstOf(entries, j));
  }

  /** Each part ends where the next part of its season begins. */
  lemma PartsTile(entries: seq<Entry>, j: nat)
    requires j < |entries| && PartAfter(entries, j) < |entries|
    requires IsOpenEnded(entries, j) && BeginsAtOffset(entries, PartAfter(entries, j))
    ensures var one, two := FirstOf(entries, j), FirstOf(entries, PartAfter(entries, j));
            TVDBEpisodeStart(two) == Wrap(TVDBEpisodeEnd(one) + 1)
  {
    PartEndsAtNext(entries, j);
    PartBegins(entries, PartAfter(entries, j));
  }

  // ---------------------------------------------------------------- mapping lists that leave the range

  predicate SameRange(m: EpisodeMap, m': EpisodeMap) {
    m.start == m'.start && m.end == m'.end && m.offset == m'.offset
  }

  /** A mapping that brings episodes and no range. */
  predicate IsRangeless(mapping: Mapping) {
    mapping.start == "" && mapping.end == "" && mapping.offset == ""
  }

  /** Mappings for the item's own season bring no range, and the others are aside. */
  predicate LeavesRange(e: Entry) {
    IsTracked(e.item.season) && forall i :: 0 <= i < |e.item.mappings| ==> IsHarmless(e.item, e.item.mappings[i])
  }

  predicate IsHarmless(item: Item, mapping: Mapping) {
    if KeyOf(mapping) == DefaultKey(item) then IsRangeless(mapping) else IsAside(item, mapping)
  }

  lemma RangelessFill(m: EpisodeMap, mapping: Mapping)
    requires IsRangeless(mapping)
    ensures SameRange(Fill(m, mapping).m, m)
  {
  }

  /** Widening by the default map itself, which is how a season written as -1 is widened, does nothing. */
  lemma WidenLeavesRange(item: Item, g: Group)
    requires g.Valid() && IsLeft(item, g, g.maps[0])
    ensures IsLeft(item, Widen(g, g.maps[0]), g.maps[0])
  {
  }

  lemma HarmlessLeavesRange(item: Item, g: Group, mapping: Mapping, m: EpisodeMap)
    requires g.Valid() && IsLeft(item, g, g.maps[0]) && SameRange(g.maps[0], m)
    requires IsTracked(item.season) && IsHarmless(item, mapping)
    ensures var g' := WithMapping(g, item, mapping); IsLeft(item, g', g'.maps[0]) && SameRange(g'.maps[0], m)
  {
    if KeyOf(mapping) == DefaultKey(item) {
      var f := Fill(g.maps[0], mapping);
      RangelessFill(g.maps[0], mapping);
      if f.ok {
        WidenLeavesRange(item, g.(maps := g.maps[0 := f.m]));
      }
    } else {
      MappingLeaves(item, g, mapping, g.maps[0]);
    }
  }

  lemma {:induction false} MappingsLeaveRange(item: Item, g: Group, mappings: seq<Mapping>, m: EpisodeMap)
    requires g.Valid() && IsLeft(item, g, g.maps[0]) && SameRange(g.maps[0], m)
    requires IsTracked(item.season) && forall i :: 0 <= i < |mappings| ==> IsHarmless(item, mappings[i])
    ensures var g' := WithMappings(g, item, mappings); IsLeft(item, g', g'.maps[0]) && SameRange(g'.maps[0], m)
  {
    if mappings != [] {
      var rest := mappings[..|mappings| - 1];
      MappingsLeaveRange(item, g, rest, m);
      HarmlessLeavesRange(item, WithMappings(g, item, rest), mappings[|mappings| - 1], m);
    }
  }

  /** Parts with such mapping lists, and so all without one, meet the conditions for tiling. */
  lemma RangeIsLeft(entries: seq<Entry>, j: nat)
    requires j < |entries| && LeavesRange(entries[j])
    ensures IsOpenEnded(entries, j)
    ensures IsLater(entries, j) ==> BeginsAtOffset(entries, j)
  {
    var e, isLater := entries[j], IsLater(entries, j);
    MappingsLeaveRange(e.item, Started(e, isLater), e.item.mappings, DefaultMap(e, isLater));
  }

  lemma HarmlessPartsTile(entries: seq<Entry>, j: nat)
    requires j < |entries| && PartAfter(entries, j) < |entries|
    requires LeavesRange(entries[j]) && LeavesRange(entries[PartAfter(entries, j)])
    ensures var one, two := FirstOf(entries, j), FirstOf(entries, PartAfter(entries, j));
            TVDBEpisodeStart(two) == Wrap(TVDBEpisodeEnd(one) + 1)
  {
    RangeIsLeft(entries, j);
    RangeIsLeft(entries, PartAfter(entries, j));
    NextIsLater(entries, j);
    PartsTile(entries, j);
  }

  // ---------------------------------------------------------------- every episode is in one part

  /** Far from where 64 bits wrap. */
  predicate IsSmall(n: int) {
    -0x4000_0000_0000_0000 < n < 0x4000_0000_0000_0000
  }

  /** The last part of the season that begins before a TVDB episode, or -1. */
  function PartOf(entries: seq<Entry>, season: string, n: Int): (j: int)
    ensures -1 <= j < |entries|
    ensures j >= 0 ==> entries[j].item.season == season && entries[j].offset < n
    ensures forall k :: j < k < |entries| && entries[k].item.season == season ==> entries[k].offset >= n
  {
    var last := |entries| - 1;
    if entries == [] then -1
    else if entries[last].item.season == season && entries[last].offset < n then last
    else PartOf(entries[..last], season, n)
  }

  /** The entries of the season, which is not in absolute order, are parts with small and increasing
      offsets. */
  ghost predicate IsParted(entries: seq<Entry>, season: string) {
    && (forall j :: 0 <= j < |entries| && entries[j].item.season == season ==>
          LeavesDefault(entries[j]) && entries[j].tvdbSeason != -1 && IsSmall(entries[j].offset))
    && (forall j, k :: 0 <= j < k < |entries| && entries[j].item.season == entries[k].item.season == season ==>
          entries[j].offset < entries[k].offset)
  }

  /** Every TVDB episode behind the first offset comes from one episode of one part of its season. */
  lemma EveryEpisodeHasOnePart(entries: seq<Entry>, season: string, first: nat, n: Int)
    requires IsParted(entries, season)
    requires first < |entries| && entries[first].item.season == season
    requires entries[first].offset < n && IsSmall(n)
    ensures PartOf(entries, season, n) >= first
    ensures forall j, episode: Int :: 0 <= j < |entries| && entries[j].item.season == season && episode >= 1 ==>
              (ToTVDB(FirstOf(entries, j), episode) == [n]
               <==> j == PartOf(entries, season, n) && episode == n - entries[j].offset)
  {
    forall j, episode: Int | 0 <= j < |entries| && entries[j].item.season == season && episode >= 1
      ensures ToTVDB(FirstOf(entries, j), episode) == [n]
         <==> j == PartOf(entries, season, n) && episode == n - entries[j].offset
    {
      PartReaches(entries, season, j, episode, n);
    }
  }

  lemma Reaches(m: EpisodeMap, episode: Int, n: Int)
    requires m.episodes == map[] && m.tvdbSeason != -1 && 0 <= m.start <= 1 <= episode
    requires IsSmall(m.offset) && IsSmall(n)
    ensures ToTVDB(m, episode) == [n] <==> episode == n - m.offset && (m.end == 0 || episode <= m.end)
  {
  }

  lemma EndBefore(offset: Int, nextOffset: Int, n: Int)
    requires IsSmall(offset) && IsSmall(nextOffset) && offset < nextOffset
    ensures Wrap(nextOffset - offset) != 0 && (n - offset <= Wrap(nextOffset - offset) <==> n <= nextOffset)
  {
  }

  lemma OffsetsIncrease(entries: seq<Entry>, season: string, j: nat, k: nat)
    requires IsParted(entries, season)
    requires j < k < |entries| && entries[j].item.season == season && entries[k].item.season == season
    ensures entries[j].offset < entries[k].offset
    ensures IsSmall(entries[j].offset) && IsSmall(entries[k].offset)
  {
  }

  /** The part of entry `j` holds the TVDB episodes up to the next part. */
  lemma PartHolds(entries: seq<Entry>, season: string, j: nat, m: EpisodeMap, episode: Int, n: Int)
    requires IsParted(entries, season)
    requires j < |entries| && entries[j].item.season == season
    requires IsPart(entries[j], IsLater(entries, j), NextOffset(entries, j), m)
    requires episode >= 1 && IsSmall(n)
    ensures ToTVDB(m, episode) == [n]
       <==> && episode == n - entries[j].offset
            && (PartAfter(entries, j) < |entries| ==> n <= entries[PartAfter(entries, j)].offset)
  {
    assert LeavesDefault(entries[j]);
    PartFields(entries[j], IsLater(entries, j), NextOffset(entries, j), m);
    Reaches(m, episode, n);
    if PartAfter(entries, j) < |entries| {
      OffsetsIncrease(entries, season, j, PartAfter(entries, j));
      EndBefore(entries[j].offset, entries[PartAfter(entries, j)].offset, n);
    }
  }

  lemma IsPartOf(entries: seq<Entry>, season: string, j: nat, n: Int)
    requires IsParted(entries, season)
    requires j < |entries| && entries[j].item.season == season
    ensures j == PartOf(entries, season, n)
       <==> && entries[j].offset < n
            && (PartAfter(entries, j) < |entries| ==> n <= entries[PartAfter(entries, j)].offset)
  {
    assert LeavesDefault(entries[j]);
    var k := PartOf(entries, season, n);
    if j < k {
      assert PartAfter(entries, j) <= k;
    }
  }

  lemma PartReaches(entries: seq<Entry>, season: string, j: nat, episode: Int, n: Int)
    requires IsParted(entries, season)
    requires j < |entries| && entries[j].item.season == season && episode >= 1 && IsSmall(n)
    ensures ToTVDB(FirstOf(entries, j), episode) == [n]
       <==> j == PartOf(entries, season, n) && episode == n - entries[j].offset
  {
    FirstIsPart(entries, j);
    PartHolds(entries, season, j, FirstOf(entries, j), episode, n);
    IsPartOf(entries, season, j, n);
  }

  // ---------------------------------------------------------------- absolute order

  /** A mapping to another season, with an end. */
  predicate IsBounding(mapping: Mapping) {
    KeyOf(mapping) != ABSOLUTE_KEY && EndOf(mapping) > 0
  }

  /** The largest of some numbers and zero. */
  function Largest(ns: seq<Int>): (n: Int)
    ensures n >= 0 && (n > 0 ==> n in ns)
    ensures forall i :: 0 <= i < |ns| ==> ns[i] <= n
  {
    if ns == [] then 0
    else
      var rest, last := Largest(ns[..|ns| - 1]), ns[|ns| - 1];
      if rest < last then last else rest
  }

  /** The ends of the mappings that can be read. */
  function Ends(mappings: seq<Mapping>): seq<Int> {
    if mappings == [] then []
    else
      var rest, last := Ends(mappings[..|mappings| - 1]), mappings[|mappings| - 1];
      if IsReadable(last) then rest + [EndOf(last)] else rest
  }

  lemma LargestSnoc(ns: seq<Int>, n: Int)
    ensures Largest(ns + [n]) == if Largest(ns) < n then n else Largest(ns)
  {
    assert (ns + [n])[..|ns|] == ns;
  }

  ghost predicate IsAbsolute(g: Group, end: Int) {
    && g.Valid() && g.maps[0].end == end
    && ABSOLUTE_KEY in g.seen && g.seen[ABSOLUTE_KEY] == 0
    && forall key :: key in g.seen && key != ABSOLUTE_KEY ==> g.seen[key] > 0
  }

  lemma WidenReaches(g: Group, m: EpisodeMap, end: Int)
    requires IsAbsolute(g, end) && m.end > 0
    ensures IsAbsolute(Widen(g, m), if end < m.end then m.end else end)
  {
  }

  lemma SeasonOneKeepsEnd(g: Group, item: Item, two: EpisodeMap, end: Int)
    requires IsAbsolute(g, end)
    ensures IsAbsolute(WithSeasonOne(g, item, two), end)
  {
  }

  lemma MappingReaches(g: Group, item: Item, mapping: Mapping, end: Int)
    requires IsAbsolute(g, end) && IsBounding(mapping)
    ensures IsAbsolute(WithMapping(g, item, mapping),
                       if IsReadable(mapping) && end < EndOf(mapping) then EndOf(mapping) else end)
  {
    var key := KeyOf(mapping);
    if key in g.seen {
      var f := Fill(g.maps[g.seen[key]], mapping);
      FillReadsAll(g.maps[g.seen[key]], mapping);
      if f.ok {
        WidenReaches(g.(maps := g.maps[g.seen[key] := f.m]), f.m, end);
      }
    } else {
      var f := Fill(Blank(item), mapping);
      FillReadsAll(Blank(item), mapping);
      if f.ok {
        SeasonOneKeepsEnd(g, item, f.m, end);
        var g1 := if f.m.tvdbSeason == 2 && mapping.aniDBSeason == "1" then WithSeasonOne(g, item, f.m) else g;
        WidenReaches(Group(g1.maps + [f.m], g1.seen[key := |g1.maps|]), f.m, end);
      }
    }
  }

  lemma {:induction false} MappingsReach(g: Group, item: Item, mappings: seq<Mapping>)
    requires IsAbsolute(g, 0) && forall i :: 0 <= i < |mappings| ==> IsBounding(mappings[i])
    ensures IsAbsolute(WithMappings(g, item, mappings), Largest(Ends(mappings)))
  {
    if mappings != [] {
      var rest, last := mappings[..|mappings| - 1], mappings[|mappings| - 1];
      MappingsReach(g, item, rest);
      MappingReaches(WithMappings(g, item, rest), item, last, Largest(Ends(rest)));
      LargestSnoc(Ends(rest), EndOf(last));
    }
  }

  /** An item in absolute order, all of whose mappings have an end, reaches as far as they do. */
  lemma AbsoluteReachesFarthest(e: Entry, isLater: bool)
    requires e.item.season == "a"
    requires forall i :: 0 <= i < |e.item.mappings| ==> IsBounding(e.item.mappings[i])
    ensures ItemMaps(e, isLater)[0].end == Largest(Ends(e.item.mappings))
  {
    MappingsReach(Started(e, isLater), e.item, e.item.mappings);
  }
}
