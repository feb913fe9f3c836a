/**
 From the anime list to the groups of a series: every item of the list is a group, and two seasons
 are joined exactly when the list says so.
 */
module EpisodeSeries {
  import opened Wrappers
  import opened Decimal
  import opened EpisodeMaps
  import opened EpisodeParts
  import opened EpisodeTiling
  import opened EpisodeGroups

  // ---------------------------------------------------------------- the maps of an item are its own

  predicate AreOf(maps: seq<EpisodeMap>, item: Item) {
    forall i :: 0 <= i < |maps| ==> maps[i].aniDBId == item.aniDBId && maps[i].tvdbId == item.tvdbId
  }

  lemma FillKeepsIds(m: EpisodeMap, mapping: Mapping)
    ensures Fill(m, mapping).m.aniDBId == m.aniDBId && Fill(m, mapping).m.tvdbId == m.tvdbId
  {
  }

  lemma WidenKeepsIds(g: Group, m: EpisodeMap, item: Item)
    requires g.Valid() && AreOf(g.maps, item)
    ensures AreOf(Widen(g, m).maps, item)
  {
  }

  lemma SeasonOneKeepsIds(g: Group, item: Item, two: EpisodeMap)
    requires g.Valid() && AreOf(g.maps, item)
    ensures AreOf(WithSeasonOne(g, item, two).maps, item)
  {
  }

  lemma MappingKeepsIds(g: Group, item: Item, mapping: Mapping)
    requires g.Valid() && AreOf(g.maps, item)
    ensures AreOf(WithMapping(g, item, mapping).maps, item)
  {
    var key := KeyOf(mapping);
    if key in g.seen {
      var f := Fill(g.maps[g.seen[key]], mapping);
      FillKeepsIds(g.maps[g.seen[key]], mapping);
      WidenKeepsIds(g.(maps := g.maps[g.seen[key] := f.m]), f.m, item);
    } else {
      var f := Fill(Blank(item), mapping);
      FillKeepsIds(Blank(item), mapping);
      if f.ok {
        SeasonOneKeepsIds(g, item, f.m);
        var g1 := if f.m.tvdbSeason == 2 && mapping.aniDBSeason == "1" then WithSeasonOne(g, item, f.m) else g;
        WidenKeepsIds(Group(g1.maps + [f.m], g1.seen[key := |g1.maps|]), f.m, item);
      }
    }
  }

  lemma {:induction false} MappingsKeepIds(g: Group, item: Item, mappings: seq<Mapping>)
    requires g.Valid() && AreOf(g.maps, item)
    ensures AreOf(WithMappings(g, item, mappings).maps, item)
  {
    if mappings != [] {
      var rest := mappings[..|mappings| - 1];
      MappingsKeepIds(g, item, rest);
      MappingKeepsIds(WithMappings(g, item, rest), item, mappings[|mappings| - 1]);
    }
  }

  lemma ItemMapsAreOf(e: Entry, isLater: bool)
    ensures AreOf(ItemMaps(e, isLater), e.item)
  {
    MappingsKeepIds(Started(e, isLater), e.item, e.item.mappings);
  }

  lemma BoundedKeepsIds(maps: seq<EpisodeMap>, nextOffset: Int, item: Item)
    requires maps != [] && AreOf(maps, item)
    ensures AreOf(maps[0 := Bounded(maps[0], nextOffset)], item)
  {
  }

  /** Whatever the mapping lists do, the maps that an item contributes carry its ids. */
  lemma GroupIsOfItem(entries: seq<Entry>, j: nat)
    requires j < |entries|
    ensures AreOf(Groups(entries)[j], entries[j].item)
  {
    var own, next := ItemMaps(entries[j], IsLater(entries, j)), PartAfter(entries, j);
    GroupsAreContributions(entries, j);
    ItemMapsAreOf(entries[j], IsLater(entries, j));
    if next < |entries| {
      BoundedKeepsIds(own, entries[next].offset, entries[j].item);
    }
  }

  // ---------------------------------------------------------------- every item is a group

  lemma GroupStarts(maps: seq<EpisodeMap>, gs: seq<ByAniDBId>, m: EpisodeMap)
    requires Grouped(maps) == gs && (gs != [] ==> gs[|gs| - 1].aniDBId != m.aniDBId)
    ensures Grouped(maps + [m]) == gs + [ByAniDBId(m.aniDBId, PartNumber(gs, m), [m])]
  {
    GroupedSnoc(maps, m);
  }

  /** The last group takes up what follows of its id. */
  lemma {:induction false} GroupGrows(maps: seq<EpisodeMap>, gs: seq<ByAniDBId>, g: ByAniDBId, more: seq<EpisodeMap>)
    requires Grouped(maps) == gs + [g] && forall i :: 0 <= i < |more| ==> more[i].aniDBId == g.aniDBId
    ensures Grouped(maps + more) == gs + [g.(maps := g.maps + more)]
    decreases |more|
  {
    if more == [] {
      assert maps + more == maps && g.maps + more == g.maps;
    } else {
      var front, m := more[..|more| - 1], more[|more| - 1];
      GroupGrows(maps, gs, g, front);
      GroupedSnoc(maps + front, m);
      WithMapExtends(gs, g.(maps := g.maps + front), m);
      assert maps + more == (maps + front) + [m] && g.maps + more == (g.maps + front) + [m];
    }
  }

  lemma WithMapExtends(gs: seq<ByAniDBId>, g: ByAniDBId, m: EpisodeMap)
    requires g.aniDBId == m.aniDBId
    ensures WithMap(gs + [g], m) == gs + [g.(maps := g.maps + [m])]
  {
  }

  lemma GroupRun(maps: seq<EpisodeMap>, gs: seq<ByAniDBId>, run: seq<EpisodeMap>, id: string)
    requires IsRunOf(run, id) && Grouped(maps) == gs && (gs != [] ==> gs[|gs| - 1].aniDBId != id)
    ensures Grouped(maps + run) == gs + [ByAniDBId(id, PartNumber(gs, run[0]), run)]
  {
    GroupStarts(maps, gs, run[0]);
    GroupGrows(maps + [run[0]], gs, ByAniDBId(id, PartNumber(gs, run[0]), [run[0]]), run[1..]);
    assert maps + run == maps + [run[0]] + run[1..] && run == [run[0]] + run[1..];
  }

  predicate IsRunOf(run: seq<EpisodeMap>, id: string) {
    run != [] && forall i :: 0 <= i < |run| ==> run[i].aniDBId == id
  }

  /** Of runs and entries, one by one: the run has the entry's id, and is not empty. */
  predicate AreRunsOf(runs: seq<seq<EpisodeMap>>, entries: seq<Entry>) {
    |runs| == |entries| && forall k :: 0 <= k < |runs| ==> IsRunOf(runs[k], entries[k].item.aniDBId)
  }

  /** The entry goes on with the id of the one before it. */
  predicate GoesOn(entries: seq<Entry>, k: nat)
    requires k < |entries|
  {
    k > 0 && entries[k].item.aniDBId == entries[k - 1].item.aniDBId
  }

  /** The entries that do not go on with the id of the one before. */
  function Heads(entries: seq<Entry>): (heads: seq<Entry>)
    ensures entries != [] ==>
              heads != [] && heads[|heads| - 1].item.aniDBId == entries[|entries| - 1].item.aniDBId
  {
    if entries == [] then []
    else
      var n := |entries| - 1;
      if GoesOn(entries, n) then Heads(entries[..n]) else Heads(entries[..n]) + [entries[n]]
  }

  /** The maps of each head, and of those that go on with its id. */
  function Joined(runs: seq<seq<EpisodeMap>>, entries: seq<Entry>): (joined: seq<seq<EpisodeMap>>)
    requires |runs| == |entries|
    ensures |joined| == |Heads(entries)|
  {
    if entries == [] then []
    else
      var n := |entries| - 1;
      var front := Joined(runs[..n], entries[..n]);
      if GoesOn(entries, n) then front[|front| - 1 := front[|front| - 1] + runs[n]] else front + [runs[n]]
  }

  predicate AreGroupsOf(gs: seq<ByAniDBId>, runs: seq<seq<EpisodeMap>>, heads: seq<Entry>) {
    && |gs| == |runs| == |heads|
    && forall k :: 0 <= k < |gs| ==> gs[k].maps == runs[k] && gs[k].aniDBId == heads[k].item.aniDBId
  }

  lemma AreGroupsSnoc(gs: seq<ByAniDBId>, runs: seq<seq<EpisodeMap>>, heads: seq<Entry>, g: ByAniDBId, head: Entry)
    requires AreGroupsOf(gs, runs, heads) && g.aniDBId == head.item.aniDBId
    ensures AreGroupsOf(gs + [g], runs + [g.maps], heads + [head])
  {
  }

  /** A run of the last group's id makes that group longer, and nothing else. */
  lemma {:induction false} AreGroupsGrow(
    maps: seq<EpisodeMap>, runs: seq<seq<EpisodeMap>>, heads: seq<Entry>, more: seq<EpisodeMap>)
    requires AreGroupsOf(Grouped(maps), runs, heads) && heads != []
    requires IsRunOf(more, heads[|heads| - 1].item.aniDBId)
    ensures AreGroupsOf(Grouped(maps + more), runs[|runs| - 1 := runs[|runs| - 1] + more], heads)
  {
    var gs := Grouped(maps);
    var front, g := gs[..|gs| - 1], gs[|gs| - 1];
    assert gs == front + [g];
    GroupGrows(maps, front, g, more);
  }

  /** Items that go on with an id join the group before them; every other one begins a group. */
  lemma {:induction false} RunsAreGroups(runs: seq<seq<EpisodeMap>>, entries: seq<Entry>)
    requires AreRunsOf(runs, entries)
    ensures AreGroupsOf(Grouped(Flatten(runs)), Joined(runs, entries), Heads(entries))
    decreases |runs|
  {
    if runs != [] {
      var n := |runs| - 1;
      var maps, id := Flatten(runs[..n]), entries[n].item.aniDBId;
      var joined, heads := Joined(runs[..n], entries[..n]), Heads(entries[..n]);
      RunsAreGroups(runs[..n], entries[..n]);
      if GoesOn(entries, n) {
        AreGroupsGrow(maps, joined, heads, runs[n]);
      } else {
        GroupRun(maps, Grouped(maps), runs[n], id);
        AreGroupsSnoc(Grouped(maps), joined, heads, ByAniDBId(id, PartNumber(Grouped(maps), runs[n][0]), runs[n]),
                      entries[n]);
      }
    }
  }

  lemma GroupsAreRuns(entries: seq<Entry>)
    ensures AreRunsOf(Groups(entries), entries)
  {
    forall k | 0 <= k < |entries| ensures IsRunOf(Groups(entries)[k], entries[k].item.aniDBId) {
      GroupIsOfItem(entries, k);
    }
  }

  /** Grouping the maps by AniDB id gives back the items: there is one group for each accepted item
      that does not go on with the id before it, and its maps, as bounded by next parts, are those of
      that item and of the items that do go on with its id. */
  lemma ItemsAreGroups(entries: seq<Entry>)
    ensures AreGroupsOf(Grouped(Flatten(Groups(entries))), Joined(Groups(entries), entries), Heads(entries))
  {
    GroupsAreRuns(entries);
    RunsAreGroups(Groups(entries), entries);
  }

  /** Neighbouring items have different ids. */
  predicate AreApart(entries: seq<Entry>) {
    forall k :: 0 < k < |entries| ==> entries[k].item.aniDBId != entries[k - 1].item.aniDBId
  }

  lemma AppendLast<T>(s: seq<T>)
    requires s != []
    ensures s[..|s| - 1] + [s[|s| - 1]] == s
  {
  }

  /** Then every item is a group of its own. */
  lemma {:induction false} AllAreHeads(runs: seq<seq<EpisodeMap>>, entries: seq<Entry>)
    requires |runs| == |entries| && AreApart(entries)
    ensures Heads(entries) == entries && Joined(runs, entries) == runs
  {
    if entries != [] {
      AllAreHeads(runs[..|runs| - 1], entries[..|entries| - 1]);
      AppendLast(entries);
      AppendLast(runs);
    }
  }

  // ---------------------------------------------------------------- the first map of an item

  /** The season of the default map as it stands in its key. */
  function OwnSeason(item: Item): string {
    if item.season == "a" then "-1" else item.season
  }

  /** What is known of an entry that has been read. */
  predicate IsReadEntry(e: Entry) {
    ':' !in OwnSeason(e.item) && Atoi(OwnSeason(e.item)) == Some(e.tvdbSeason)
  }

  lemma ReadIsReadEntry(item: Item)
    requires Read(item).Some?
    ensures IsReadEntry(Read(item).value)
  {
    if item.season == "a" {
      AtoiItoa(-1);
      assert Itoa(-1) == "-1";
    }
    AtoiChars(OwnSeason(item), ':');
  }

  lemma {:induction false} AcceptedAreRead(items: seq<Item>)
    ensures forall j :: 0 <= j < |Accepted(items)| ==> IsReadEntry(Accepted(items)[j])
  {
    if items != [] {
      AcceptedAreRead(items[..|items| - 1]);
      if Read(items[|items| - 1]).Some? {
        ReadIsReadEntry(items[|items| - 1]);
      }
    }
  }

  /** A mapping with the key of the default map is for its season. */
  lemma OwnKeyIsOwnSeason(e: Entry, mapping: Mapping)
    requires IsReadEntry(e) && KeyOf(mapping) == DefaultKey(e.item)
    ensures mapping.aniDBSeason == "1" && mapping.tvdbSeason == OwnSeason(e.item)
  {
    SameHalves(mapping.aniDBSeason, mapping.tvdbSeason, OwnSeason(e.item));
  }

  lemma SameHalves(a: string, t: string, season: string)
    requires a + ":" + t == "1:" + season && ':' !in season
    ensures a == "1" && t == season
  {
    var s := a + ":" + t;
    assert s[|a|] == ':' && s[0] == '1' && s[2..] == season;
    assert forall i :: 2 <= i < |s| ==> s[i] == season[i - 2];
    assert |a| == 1;
    assert a == s[..1] && t == s[2..];
  }

  predicate SameSeasons(m: EpisodeMap, m': EpisodeMap) {
    m.aniDBSeason == m'.aniDBSeason && m.tvdbSeason == m'.tvdbSeason
  }

  lemma FillKeepsSeasons(f: Filling, text: string)
    ensures SameSeasons(FillStart(f, text).m, f.m) && SameSeasons(FillEnd(f, text).m, f.m)
    ensures SameSeasons(FillOffset(f, text).m, f.m) && SameSeasons(FillEpisodes(f, text).m, f.m)
  {
  }

  lemma FillOwnSeason(m: EpisodeMap, mapping: Mapping, n: Int)
    requires mapping.aniDBSeason == "1" && Atoi(mapping.tvdbSeason) == Some(n)
    ensures Fill(m, mapping).m.aniDBSeason == 1 && Fill(m, mapping).m.tvdbSeason == n
  {
    assert Atoi("").None?;
    var seasons := FillTVDBSeason(FillAniDBSeason(m, mapping.aniDBSeason), mapping);
    var start := FillStart(seasons, mapping.start);
    var end := FillEnd(start, mapping.end);
    FillKeepsSeasons(seasons, mapping.start);
    FillKeepsSeasons(start, mapping.end);
    FillKeepsSeasons(end, mapping.offset);
    FillKeepsSeasons(FillOffset(end, mapping.offset), mapping.value);
  }

  /** The first map is that of the entry's season, and nothing but its key points at it. */
  ghost predicate Opens(g: Group, e: Entry) {
    && g.Valid() && BeginsWith(g.maps, e)
    && DefaultKey(e.item) in g.seen && g.seen[DefaultKey(e.item)] == 0
    && forall key :: key in g.seen && key != DefaultKey(e.item) ==> g.seen[key] > 0
  }

  predicate BeginsWith(run: seq<EpisodeMap>, e: Entry) {
    run != [] && run[0].aniDBSeason == 1 && run[0].tvdbSeason == e.tvdbSeason
  }

  lemma WidenOpens(g: Group, m: EpisodeMap, e: Entry)
    requires Opens(g, e)
    ensures Opens(Widen(g, m), e)
  {
  }

  lemma SeasonOneOpens(g: Group, two: EpisodeMap, e: Entry)
    requires Opens(g, e)
    ensures Opens(WithSeasonOne(g, e.item, two), e)
  {
  }

  lemma FilledOpens(g: Group, mapping: Mapping, e: Entry)
    requires Opens(g, e) && IsReadEntry(e) && KeyOf(mapping) in g.seen
    ensures var i := g.seen[KeyOf(mapping)];
            Opens(g.(maps := g.maps[i := Fill(g.maps[i], mapping).m]), e)
  {
    if KeyOf(mapping) == DefaultKey(e.item) {
      OwnKeyIsOwnSeason(e, mapping);
      FillOwnSeason(g.maps[0], mapping, e.tvdbSeason);
    }
  }

  lemma AppendedOpens(g: Group, key: string, m: EpisodeMap, e: Entry)
    requires Opens(g, e) && key != DefaultKey(e.item)
    ensures Opens(Group(g.maps + [m], g.seen[key := |g.maps|]), e)
  {
  }

  lemma MappingOpens(g: Group, mapping: Mapping, e: Entry)
    requires Opens(g, e) && IsReadEntry(e)
    ensures Opens(WithMapping(g, e.item, mapping), e)
  {
    var key := KeyOf(mapping);
    if key in g.seen {
      var f := Fill(g.maps[g.seen[key]], mapping);
      FilledOpens(g, mapping, e);
      WidenOpens(g.(maps := g.maps[g.seen[key] := f.m]), f.m, e);
    } else {
      var f := Fill(Blank(e.item), mapping);
      SeasonOneOpens(g, f.m, e);
      var g1 := if f.m.tvdbSeason == 2 && mapping.aniDBSeason == "1" then WithSeasonOne(g, e.item, f.m) else g;
      AppendedOpens(g1, key, f.m, e);
      WidenOpens(Group(g1.maps + [f.m], g1.seen[key := |g1.maps|]), f.m, e);
    }
  }

  lemma {:induction false} MappingsOpen(g: Group, mappings: seq<Mapping>, e: Entry)
    requires Opens(g, e) && IsReadEntry(e)
    ensures Opens(WithMappings(g, e.item, mappings), e)
  {
    if mappings != [] {
      var rest := mappings[..|mappings| - 1];
      MappingsOpen(g, rest, e);
      MappingOpens(WithMappings(g, e.item, rest), mappings[|mappings| - 1], e);
    }
  }

  lemma ItemMapsOpen(e: Entry, isLater: bool)
    requires IsReadEntry(e)
    ensures BeginsWith(ItemMaps(e, isLater), e)
  {
    MappingsOpen(Started(e, isLater), e.item.mappings, e);
  }

  /** Whatever the mapping lists do, an item's maps begin with one of its own season. */
  lemma FirstMapIs(entries: seq<Entry>, j: nat)
    requires j < |entries| && IsReadEntry(entries[j])
    ensures BeginsWith(Groups(entries)[j], entries[j])
  {
    GroupsAreContributions(entries, j);
    ItemMapsOpen(entries[j], IsLater(entries, j));
  }

  // ---------------------------------------------------------------- joined seasons

  /** Of groups and entries, one by one: the group begins with a part of the entry's season. */
  predicate BeginEach(gs: seq<ByAniDBId>, heads: seq<Entry>) {
    |gs| == |heads| && forall k :: 0 <= k < |gs| ==> BeginsWith(gs[k].maps, heads[k])
  }

  lemma {:induction false} JoinedBegin(runs: seq<seq<EpisodeMap>>, entries: seq<Entry>)
    requires |runs| == |entries| && forall k :: 0 <= k < |runs| ==> BeginsWith(runs[k], entries[k])
    ensures forall k :: 0 <= k < |Heads(entries)| ==> BeginsWith(Joined(runs, entries)[k], Heads(entries)[k])
  {
    if entries != [] {
      JoinedBegin(runs[..|runs| - 1], entries[..|entries| - 1]);
    }
  }

  predicate AreTwoParts(e: Entry, e': Entry) {
    e.tvdbSeason == e'.tvdbSeason > 0
  }

  ghost predicate HaveTwoParts(entries: seq<Entry>) {
    exists j, k :: 0 <= j < k < |entries| && AreTwoParts(entries[j], entries[k])
  }

  lemma JoinedAreTwoParts(gs: seq<ByAniDBId>, heads: seq<Entry>)
    requires BeginEach(gs, heads)
    ensures ShareSeason(gs) <==> HaveTwoParts(heads)
  {
    forall j, k | 0 <= j < k < |gs| ensures IsJoined(gs[j], gs[k]) <==> AreTwoParts(heads[j], heads[k]) {
      assert BeginsWith(gs[j].maps, heads[j]) && BeginsWith(gs[k].maps, heads[k]);
    }
  }

  lemma GroupsBeginWithHeads(entries: seq<Entry>)
    requires forall j :: 0 <= j < |entries| ==> IsReadEntry(entries[j])
    ensures BeginEach(Grouped(Flatten(Groups(entries))), Heads(entries))
  {
    forall k | 0 <= k < |entries| ensures BeginsWith(Groups(entries)[k], entries[k]) {
      FirstMapIs(entries, k);
    }
    JoinedBegin(Groups(entries), entries);
    ItemsAreGroups(entries);
  }

  /** For every list of items, with whatever mapping lists: seasons are joined if and only if two of
      the accepted items, leaving out those that go on with the id before them, are parts of one
      positive season. */
  lemma JoinedIffTwoParts(items: seq<Item>)
    ensures ShareSeason(Grouped(Flatten(Groups(Accepted(items))))) <==> HaveTwoParts(Heads(Accepted(items)))
  {
    AcceptedAreRead(items);
    GroupsBeginWithHeads(Accepted(items));
    JoinedAreTwoParts(Grouped(Flatten(Groups(Accepted(items)))), Heads(Accepted(items)));
  }
}
