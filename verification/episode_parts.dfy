/**
 How the episode maps of one TVDB series are built from the items of the anime list. Items that
 continue a season are parts of it: each part ends where the next one begins.
 */
module EpisodeParts {
  import opened Wrappers
  import opened Strings
  import opened Decimal
  import opened EpisodeCodec
  import opened EpisodeMaps

  datatype Mapping = Mapping(
    aniDBSeason: string,
    tvdbSeason: string,
    tmdbSeason: string,
    start: string,
    end: string,
    offset: string,
    value: string)

  datatype Item = Item(
    aniDBId: string,
    tvdbId: string,
    season: string,
    episodeOffset: string,
    before: string,
    mappings: seq<Mapping>)

  // ---------------------------------------------------------------- the default map of an item

  function BeforeOf(item: Item): Before {
    if item.before == "" then map[] else WithBefores(map[], PartsOf(item.before))
  }

  /** An item whose offset and season are numbers; "a", for absolute order, counts as -1. */
  datatype Entry = Entry(item: Item, tvdbSeason: Int, offset: Int, before: Before)

  /** Other items are left out. */
  function Read(item: Item): Option<Entry> {
    var offset := if item.episodeOffset == "" then Some(0) else Atoi(item.episodeOffset);
    var season := if item.season == "a" then Some(-1) else Atoi(item.season);
    if offset.None? || season.None? then None else Some(Entry(item, season.value, offset.value, BeforeOf(item)))
  }

  function Accepted(items: seq<Item>): seq<Entry> {
    if items == [] then []
    else
      var rest, e := Accepted(items[..|items| - 1]), Read(items[|items| - 1]);
      if e.Some? then rest + [e.value] else rest
  }

  /** Seasons that are split into parts. */
  predicate IsTracked(season: string) {
    season != "a" && season != "0"
  }

  function DefaultMap(e: Entry, isLater: bool): EpisodeMap {
    EpisodeMap(e.item.aniDBId, e.item.tvdbId, 1, e.tvdbSeason,
               if e.item.season == "a" || isLater then 1 else 0, 0, e.offset, e.before, map[])
  }

  const ABSOLUTE_KEY := "1:-1"

  function DefaultKey(item: Item): string {
    if item.season == "a" then ABSOLUTE_KEY else "1:" + item.season
  }

  // ---------------------------------------------------------------- the mapping list of an item

  /** A map as far as a mapping could be read into it. */
  datatype Filling = Filling(m: EpisodeMap, ok: bool)

  function FillAniDBSeason(m: EpisodeMap, season: string): EpisodeMap {
    if season == "0" then m.(aniDBSeason := 0) else if season == "1" then m.(aniDBSeason := 1) else m
  }

  /** A mapping to TMDB alone is not handled. */
  function FillTVDBSeason(m: EpisodeMap, mapping: Mapping): Filling {
    if mapping.tvdbSeason == "" && mapping.tmdbSeason != "" then Filling(m, false)
    else
      match Atoi(mapping.tvdbSeason)
      case None => Filling(m, false)
      case Some(season) => Filling(m.(tvdbSeason := season), true)
  }

  function FillStart(f: Filling, text: string): Filling {
    if !f.ok || text == "" then f
    else match Atoi(text) case None => Filling(f.m, false) case Some(n) => Filling(f.m.(start := n), true)
  }

  function FillEnd(f: Filling, text: string): Filling {
    if !f.ok || text == "" then f
    else match Atoi(text) case None => Filling(f.m, false) case Some(n) => Filling(f.m.(end := n), true)
  }

  function FillOffset(f: Filling, text: string): Filling {
    if !f.ok || text == "" then f
    else match Atoi(text) case None => Filling(f.m, false) case Some(n) => Filling(f.m.(offset := n), true)
  }

  function FillEpisodes(f: Filling, text: string): Filling {
    if !f.ok || text == "" then f else Filling(f.m.(episodes := WithEpisodes(map[], PartsOf(text))), true)
  }

  function Fill(m: EpisodeMap, mapping: Mapping): Filling {
    var f := FillTVDBSeason(FillAniDBSeason(m, mapping.aniDBSeason), mapping);
    FillEpisodes(FillOffset(FillEnd(FillStart(f, mapping.start), mapping.end), mapping.offset), mapping.value)
  }

  /** The maps of one item, and where they are by season key. */
  datatype Group = Group(maps: seq<EpisodeMap>, seen: map<string, nat>) {
    predicate Valid() {
      && maps != []
      && forall key :: key in seen ==> seen[key] < |maps|
    }
  }

  function Blank(item: Item): EpisodeMap {
    EpisodeMap(item.aniDBId, item.tvdbId, 0, 0, 0, 0, 0, map[], map[])
  }

  /** The map in absolute order reaches as far as the farthest mapping. */
  function Widen(g: Group, m: EpisodeMap): (r: Group)
    requires g.Valid()
    ensures r.Valid() && r.seen == g.seen && |r.maps| == |g.maps|
  {
    if ABSOLUTE_KEY !in g.seen then g
    else
      var i := g.seen[ABSOLUTE_KEY];
      if m.end == 0 || g.maps[i].end < m.end then g.(maps := g.maps[i := g.maps[i].(end := m.end)]) else g
  }

  /** A first season that nothing bounds ends where the second one begins. */
  function BoundSeasonOne(one: EpisodeMap, two: EpisodeMap): EpisodeMap {
    if one.start == 0 && one.end == 0 then
      one.(offset := if one.offset == 0 then Wrap(two.start - 1 + two.offset) else one.offset,
           start := 1, end := Wrap(two.start - 1))
    else one
  }

  function SeasonOne(item: Item, two: EpisodeMap): EpisodeMap {
    EpisodeMap(item.aniDBId, item.tvdbId, two.aniDBSeason, 1,
               1, Wrap(two.start - 1), Wrap(two.start - 1 + two.offset), map[], map[])
  }

  const SEASON_ONE_KEY := "1:1"

  function WithSeasonOne(g: Group, item: Item, two: EpisodeMap): (r: Group)
    requires g.Valid()
    ensures r.Valid() && |g.maps| <= |r.maps|
  {
    if SEASON_ONE_KEY in g.seen then
      var i := g.seen[SEASON_ONE_KEY];
      g.(maps := g.maps[i := BoundSeasonOne(g.maps[i], two)])
    else Group(g.maps + [SeasonOne(item, two)], g.seen[SEASON_ONE_KEY := |g.maps|])
  }

  function KeyOf(mapping: Mapping): string {
    mapping.aniDBSeason + ":" + mapping.tvdbSeason
  }

  function WithMapping(g: Group, item: Item, mapping: Mapping): (r: Group)
    requires g.Valid()
    ensures r.Valid() && |g.maps| <= |r.maps|
  {
    var key := KeyOf(mapping);
    if key in g.seen then
      var f := Fill(g.maps[g.seen[key]], mapping);
      var filled := g.(maps := g.maps[g.seen[key] := f.m]);
      if f.ok then Widen(filled, f.m) else filled
    else
      var f := Fill(Blank(item), mapping);
      if !f.ok then g
      else
        var g1 := if f.m.tvdbSeason == 2 && mapping.aniDBSeason == "1" then WithSeasonOne(g, item, f.m) else g;
        Widen(Group(g1.maps + [f.m], g1.seen[key := |g1.maps|]), f.m)
  }

  function WithMappings(g: Group, item: Item, mappings: seq<Mapping>): (r: Group)
    requires g.Valid()
    ensures r.Valid() && |g.maps| <= |r.maps|
  {
    if mappings == [] then g
    else WithMapping(WithMappings(g, item, mappings[..|mappings| - 1]), item, mappings[|mappings| - 1])
  }

  function Started(e: Entry, isLater: bool): (g: Group)
    ensures g.Valid()
  {
    Group([DefaultMap(e, isLater)], map[DefaultKey(e.item) := 0])
  }

  function ItemMaps(e: Entry, isLater: bool): (maps: seq<EpisodeMap>)
    ensures maps != []
  {
    WithMappings(Started(e, isLater), e.item, e.item.mappings).maps
  }

  // ---------------------------------------------------------------- all items

  /** The last entry of a season, or -1. */
  function LastOf(entries: seq<Entry>, season: string): (j: int)
    ensures -1 <= j < |entries|
    ensures j >= 0 ==> entries[j].item.season == season
    ensures forall k :: j < k < |entries| ==> entries[k].item.season != season
  {
    if entries == [] then -1
    else if entries[|entries| - 1].item.season == season then |entries| - 1
    else LastOf(entries[..|entries| - 1], season)
  }

  /** The part before an entry that follows `entries`, or -1 if it is the first one. */
  function PartBefore(entries: seq<Entry>, e: Entry): (j: int)
    ensures -1 <= j < |entries|
  {
    if IsTracked(e.item.season) then LastOf(entries, e.item.season) else -1
  }

  /** A part that the next one starts behind. */
  function Bounded(m: EpisodeMap, nextOffset: Int): EpisodeMap {
    m.(start := if m.start == 0 then 1 else m.start,
       end := if m.end == 0 then Wrap(nextOffset - m.offset) else m.end)
  }

  function BoundedAt(gs: seq<seq<EpisodeMap>>, j: int, nextOffset: Int): (r: seq<seq<EpisodeMap>>)
    requires -1 <= j < |gs| && (j >= 0 ==> gs[j] != [])
    ensures |r| == |gs| && forall k :: 0 <= k < |gs| ==> |r[k]| == |gs[k]|
  {
    if j < 0 then gs else gs[j := gs[j][0 := Bounded(gs[j][0], nextOffset)]]
  }

  /** The maps item by item. */
  function Groups(entries: seq<Entry>): (gs: seq<seq<EpisodeMap>>)
    ensures |gs| == |entries| && forall j :: 0 <= j < |gs| ==> gs[j] != []
  {
    if entries == [] then []
    else
      var rest, e := entries[..|entries| - 1], entries[|entries| - 1];
      var j := PartBefore(rest, e);
      BoundedAt(Groups(rest), j, e.offset) + [ItemMaps(e, j >= 0)]
  }

  function Flatten(gs: seq<seq<EpisodeMap>>): seq<EpisodeMap> {
    if gs == [] then [] else Flatten(gs[..|gs| - 1]) + gs[|gs| - 1]
  }

  /** Where the maps of item `j` begin. */
  function Base(gs: seq<seq<EpisodeMap>>, j: nat): nat
    requires j <= |gs|
  {
    |Flatten(gs[..j])|
  }

  // ---------------------------------------------------------------- positions in the flat list

  lemma FlattenSnoc(gs: seq<seq<EpisodeMap>>, g: seq<EpisodeMap>)
    ensures Flatten(gs + [g]) == Flatten(gs) + g
    ensures forall k :: 0 <= k <= |gs| ==> Base(gs + [g], k) == Base(gs, k)
    ensures Base(gs + [g], |gs|) == |Flatten(gs)|
  {
    assert (gs + [g])[..|gs|] == gs && gs[..|gs|] == gs;
    assert forall k :: 0 <= k <= |gs| ==> (gs + [g])[..k] == gs[..k];
  }

  lemma {:induction false} SameLengths(gs: seq<seq<EpisodeMap>>, hs: seq<seq<EpisodeMap>>)
    requires |gs| == |hs| && forall k :: 0 <= k < |gs| ==> |gs[k]| == |hs[k]|
    ensures |Flatten(gs)| == |Flatten(hs)|
  {
    if gs != [] {
      SameLengths(gs[..|gs| - 1], hs[..|hs| - 1]);
    }
  }

  lemma BoundedKeepsBases(gs: seq<seq<EpisodeMap>>, j: int, nextOffset: Int)
    requires -1 <= j < |gs| && (j >= 0 ==> gs[j] != [])
    ensures forall k :: 0 <= k <= |gs| ==> Base(BoundedAt(gs, j, nextOffset), k) == Base(gs, k)
  {
    var hs := BoundedAt(gs, j, nextOffset);
    forall k | 0 <= k <= |gs| ensures Base(hs, k) == Base(gs, k) {
      SameLengths(gs[..k], hs[..k]);
    }
  }

  lemma {:induction false} FlattenBounded(gs: seq<seq<EpisodeMap>>, j: nat, nextOffset: Int)
    requires j < |gs| && gs[j] != []
    ensures Base(gs, j) < |Flatten(gs)| && Flatten(gs)[Base(gs, j)] == gs[j][0]
    ensures Flatten(BoundedAt(gs, j, nextOffset))
         == Flatten(gs)[Base(gs, j) := Bounded(gs[j][0], nextOffset)]
    decreases |gs|
  {
    var rest, last := gs[..|gs| - 1], gs[|gs| - 1];
    assert gs == rest + [last];
    FlattenSnoc(rest, last);
    if j < |rest| {
      FlattenBounded(rest, j, nextOffset);
      BoundedSnoc(rest, last, j, nextOffset);
      FlattenSnoc(BoundedAt(rest, j, nextOffset), last);
    } else {
      LastBounded(rest, last, nextOffset);
    }
  }

  lemma BoundedLast(gs: seq<seq<EpisodeMap>>, g: seq<EpisodeMap>, nextOffset: Int)
    requires g != []
    ensures BoundedAt(gs + [g], |gs|, nextOffset) == gs + [g[0 := Bounded(g[0], nextOffset)]]
  {
  }

  lemma LastBounded(gs: seq<seq<EpisodeMap>>, g: seq<EpisodeMap>, nextOffset: Int)
    requires g != []
    ensures Flatten(BoundedAt(gs + [g], |gs|, nextOffset)) == Flatten(gs) + g[0 := Bounded(g[0], nextOffset)]
  {
    BoundedLast(gs, g, nextOffset);
    FlattenSnoc(gs, g[0 := Bounded(g[0], nextOffset)]);
  }

  lemma BoundedSnoc(gs: seq<seq<EpisodeMap>>, g: seq<EpisodeMap>, j: nat, nextOffset: Int)
    requires j < |gs| && gs[j] != []
    ensures BoundedAt(gs + [g], j, nextOffset) == BoundedAt(gs, j, nextOffset) + [g]
  {
  }

  // ---------------------------------------------------------------- keeping track of the parts

  function PartKey(season: string, part: nat): string {
    season + ":" + Itoa(part)
  }

  predicate IsSeason(season: string) {
    IsTracked(season) && ':' !in season
  }

  lemma PartKeyInjective(s: string, p: nat, t: string, q: nat)
    requires ':' !in s && ':' !in t && PartKey(s, p) == PartKey(t, q)
    ensures s == t && p == q
  {
    CutAt(s, ':', Itoa(p));
    CutAt(t, ':', Itoa(q));
    ItoaInjective(p, q);
  }

  /** The last part of every season, its number, and where its default map is. */
  ghost predicate Tracks(entries: seq<Entry>, gs: seq<seq<EpisodeMap>>, lastPart: map<string, nat>,
                         seenPart: map<string, nat>)
    requires |gs| == |entries|
  {
    forall s :: IsSeason(s) ==> TracksSeason(entries, gs, lastPart, seenPart, s)
  }

  ghost predicate TracksSeason(entries: seq<Entry>, gs: seq<seq<EpisodeMap>>, lastPart: map<string, nat>,
                               seenPart: map<string, nat>, s: string)
    requires |gs| == |entries|
  {
    var j := LastOf(entries, s);
    if j < 0 then s !in lastPart
    else
      && s in lastPart && lastPart[s] > 0
      && PartKey(s, lastPart[s]) in seenPart && seenPart[PartKey(s, lastPart[s])] == Base(gs, j)
  }

  lemma LastOfSnoc(entries: seq<Entry>, e: Entry, s: string)
    ensures LastOf(entries + [e], s) == if e.item.season == s then |entries| else LastOf(entries, s)
  {
    assert (entries + [e])[..|entries|] == entries;
  }

  lemma TrackNext(entries: seq<Entry>, gs: seq<seq<EpisodeMap>>, hs: seq<seq<EpisodeMap>>, lastPart: map<string, nat>,
                  seenPart: map<string, nat>, e: Entry, g: seq<EpisodeMap>, part: nat)
    requires |gs| == |hs| == |entries| && Tracks(entries, gs, lastPart, seenPart) && IsSeason(e.item.season)
    requires part == if e.item.season in lastPart then lastPart[e.item.season] + 1 else 1
    requires forall k :: 0 <= k <= |gs| ==> Base(hs, k) == Base(gs, k)
    ensures Tracks(entries + [e], hs + [g], lastPart[e.item.season := part],
                   seenPart[PartKey(e.item.season, part) := |Flatten(gs)|])
  {
    FlattenSnoc(hs, g);
    assert gs[..|gs|] == gs;
    forall s | IsSeason(s)
      ensures TracksSeason(entries + [e], hs + [g], lastPart[e.item.season := part],
                           seenPart[PartKey(e.item.season, part) := |Flatten(gs)|], s)
    {
      LastOfSnoc(entries, e, s);
      assert TracksSeason(entries, gs, lastPart, seenPart, s);
      if s != e.item.season && LastOf(entries, s) >= 0 && PartKey(s, lastPart[s]) == PartKey(e.item.season, part) {
        PartKeyInjective(s, lastPart[s], e.item.season, part);
        assert false;
      }
    }
  }

  lemma TrackOther(entries: seq<Entry>, gs: seq<seq<EpisodeMap>>, lastPart: map<string, nat>,
                   seenPart: map<string, nat>, e: Entry, g: seq<EpisodeMap>)
    requires |gs| == |entries| && Tracks(entries, gs, lastPart, seenPart) && !IsTracked(e.item.season)
    ensures Tracks(entries + [e], gs + [g], lastPart, seenPart)
  {
    FlattenSnoc(gs, g);
    forall s | IsSeason(s)
      ensures TracksSeason(entries + [e], gs + [g], lastPart, seenPart, s)
    {
      LastOfSnoc(entries, e, s);
      assert TracksSeason(entries, gs, lastPart, seenPart, s);
    }
  }

  // ---------------------------------------------------------------- the construction

  lemma GroupsSnoc(entries: seq<Entry>, e: Entry)
    ensures var j := PartBefore(entries, e);
            Groups(entries + [e]) == BoundedAt(Groups(entries), j, e.offset) + [ItemMaps(e, j >= 0)]
  {
    assert (entries + [e])[..|entries|] == entries;
  }

  lemma TrackEntry(entries: seq<Entry>, lastPart: map<string, nat>, seenPart: map<string, nat>, e: Entry, part: nat)
    requires IsSeason(e.item.season) && Tracks(entries, Groups(entries), lastPart, seenPart)
    requires part == if e.item.season in lastPart then lastPart[e.item.season] + 1 else 1
    ensures Tracks(entries + [e], Groups(entries + [e]), lastPart[e.item.season := part],
                   seenPart[PartKey(e.item.season, part) := |Flatten(Groups(entries))|])
  {
    var gs, j := Groups(entries), PartBefore(entries, e);
    GroupsSnoc(entries, e);
    BoundedKeepsBases(gs, j, e.offset);
    TrackNext(entries, gs, BoundedAt(gs, j, e.offset), lastPart, seenPart, e, ItemMaps(e, j >= 0), part);
  }

  lemma BoundedFlat(gs: seq<seq<EpisodeMap>>, j: nat, m: EpisodeMap)
    requires j < |gs| && gs[j] != []
    ensures var i, n, maps := Base(gs, j), |Flatten(gs)|, Flatten(gs) + [m];
            && i < n && maps[i] == gs[j][0]
            && maps[n := m.(start := 1)][i := Bounded(maps[i], m.offset)]
               == Flatten(BoundedAt(gs, j, m.offset)) + [m.(start := 1)]
  {
    FlattenBounded(gs, j, m.offset);
  }

  /** The default map, which has just been appended, becomes the next part of its season. */
  method TrackPart(maps: seq<EpisodeMap>, lastPart: map<string, nat>, seenPart: map<string, nat>, e: Entry,
                   ghost entries: seq<Entry>)
    returns (tvdbMaps: seq<EpisodeMap>, lastPart': map<string, nat>, seenPart': map<string, nat>)
    requires IsSeason(e.item.season)
    requires maps == Flatten(Groups(entries)) + [DefaultMap(e, false).(before := map[])]
    requires Tracks(entries, Groups(entries), lastPart, seenPart)
    ensures tvdbMaps == Others(entries, e) + [DefaultMap(e, PartBefore(entries, e) >= 0).(before := map[])]
    ensures Tracks(entries + [e], Groups(entries + [e]), lastPart', seenPart')
  {
    var season := e.item.season;
    assert TracksSeason(entries, Groups(entries), lastPart, seenPart, season);
    tvdbMaps := maps;
    var part := 1;
    if season in lastPart {
      part := lastPart[season] + 1;
    }
    lastPart' := lastPart[season := part];
    seenPart' := seenPart[PartKey(season, part) := |tvdbMaps| - 1];
    TrackEntry(entries, lastPart, seenPart, e, part);
    if part > 1 {
      BoundedFlat(Groups(entries), PartBefore(entries, e), DefaultMap(e, false).(before := map[]));
      tvdbMaps := BoundLastPart(tvdbMaps, seenPart, season, part - 1);
    }
  }

  /** The part before the last map ends where that map begins. */
  method BoundLastPart(maps: seq<EpisodeMap>, seenPart: map<string, nat>, season: string, lastPart: nat)
    returns (tvdbMaps: seq<EpisodeMap>)
    requires PartKey(season, lastPart) in seenPart && seenPart[PartKey(season, lastPart)] < |maps| - 1
    ensures var i, n := seenPart[PartKey(season, lastPart)], |maps| - 1;
            tvdbMaps == maps[n := maps[n].(start := 1)][i := Bounded(maps[i], maps[n].offset)]
  {
    var n := |maps| - 1;
    tvdbMaps := maps[n := maps[n].(start := 1)];
    if PartKey(season, lastPart) in seenPart {
      var i := seenPart[PartKey(season, lastPart)];
      if tvdbMaps[i].start == 0 {
        tvdbMaps := tvdbMaps[i := tvdbMaps[i].(start := 1)];
      }
      if tvdbMaps[i].end == 0 {
        tvdbMaps := tvdbMaps[i := tvdbMaps[i].(end := Wrap(tvdbMaps[n].offset - tvdbMaps[i].offset))];
      }
    }
  }

  /** A mapping is read into a map field by field, up to the first field that is no number. */
  method FillFields(m: EpisodeMap, mapping: Mapping) returns (f: Filling)
    ensures f == Fill(m, mapping)
  {
    var tvdbMap := m;
    match mapping.aniDBSeason {
      case "0" => tvdbMap := tvdbMap.(aniDBSeason := 0);
      case "1" => tvdbMap := tvdbMap.(aniDBSeason := 1);
      case _ =>
    }
    if mapping.tvdbSeason == "" && mapping.tmdbSeason != "" {
      return Filling(tvdbMap, false);
    }
    var season := Atoi(mapping.tvdbSeason);
    if season.None? {
      return Filling(tvdbMap, false);
    }
    tvdbMap := tvdbMap.(tvdbSeason := season.value);
    if mapping.start != "" {
      var start := Atoi(mapping.start);
      if start.None? {
        return Filling(tvdbMap, false);
      }
      tvdbMap := tvdbMap.(start := start.value);
    }
    if mapping.end != "" {
      var end := Atoi(mapping.end);
      if end.None? {
        return Filling(tvdbMap, false);
      }
      tvdbMap := tvdbMap.(end := end.value);
    }
    if mapping.offset != "" {
      var offset := Atoi(mapping.offset);
      if offset.None? {
        return Filling(tvdbMap, false);
      }
      tvdbMap := tvdbMap.(offset := offset.value);
    }
    if mapping.value != "" {
      tvdbMap := tvdbMap.(episodes := WithEpisodes(map[], PartsOf(mapping.value)));
    }
    f := Filling(tvdbMap, true);
  }

  /** The maps of the item stand behind those of the items before it, where `seen` points. */
  ghost predicate Placed(tvdbMaps: seq<EpisodeMap>, seen: map<string, nat>, others: seq<EpisodeMap>, g: Group) {
    && tvdbMaps == others + g.maps
    && seen.Keys == g.seen.Keys
    && forall key :: key in seen ==> seen[key] == |others| + g.seen[key]
  }

  lemma PlacedUpdate(tvdbMaps: seq<EpisodeMap>, seen: map<string, nat>, others: seq<EpisodeMap>, g: Group,
                     key: string, m: EpisodeMap)
    requires g.Valid() && Placed(tvdbMaps, seen, others, g) && key in seen
    ensures seen[key] < |tvdbMaps| && tvdbMaps[seen[key]] == g.maps[g.seen[key]]
    ensures Placed(tvdbMaps[seen[key] := m], seen, others, g.(maps := g.maps[g.seen[key] := m]))
  {
  }

  lemma PlacedAppend(tvdbMaps: seq<EpisodeMap>, seen: map<string, nat>, others: seq<EpisodeMap>, g: Group,
                     key: string, m: EpisodeMap)
    requires g.Valid() && Placed(tvdbMaps, seen, others, g)
    ensures Placed(tvdbMaps + [m], seen[key := |tvdbMaps|], others, Group(g.maps + [m], g.seen[key := |g.maps|]))
  {
  }

  method WidenAbsolute(maps: seq<EpisodeMap>, seen: map<string, nat>, m: EpisodeMap,
                       ghost others: seq<EpisodeMap>, ghost g: Group)
    returns (tvdbMaps: seq<EpisodeMap>)
    requires g.Valid() && Placed(maps, seen, others, g)
    ensures Placed(tvdbMaps, seen, others, Widen(g, m))
  {
    tvdbMaps := maps;
    if ABSOLUTE_KEY in seen {
      var i := seen[ABSOLUTE_KEY];
      PlacedUpdate(maps, seen, others, g, ABSOLUTE_KEY, maps[i].(end := m.end));
      if m.end == 0 || maps[i].end < m.end {
        tvdbMaps := maps[i := maps[i].(end := m.end)];
      }
    }
  }

  method AddSeasonOne(maps: seq<EpisodeMap>, seen: map<string, nat>, item: Item, two: EpisodeMap,
                      ghost others: seq<EpisodeMap>, ghost g: Group)
    returns (tvdbMaps: seq<EpisodeMap>, seen': map<string, nat>)
    requires g.Valid() && Placed(maps, seen, others, g)
    ensures Placed(tvdbMaps, seen', others, WithSeasonOne(g, item, two))
  {
    tvdbMaps, seen' := maps, seen;
    if SEASON_ONE_KEY in seen {
      var i := seen[SEASON_ONE_KEY];
      PlacedUpdate(maps, seen, others, g, SEASON_ONE_KEY, BoundSeasonOne(maps[i], two));
      var one := maps[i];
      if one.start == 0 && one.end == 0 {
        if one.offset == 0 {
          one := one.(offset := Wrap(two.start - 1 + two.offset));
        }
        one := one.(start := 1);
        one := one.(end := Wrap(two.start - 1));
      }
      tvdbMaps := maps[i := one];
    } else {
      PlacedAppend(maps, seen, others, g, SEASON_ONE_KEY, SeasonOne(item, two));
      tvdbMaps := maps + [SeasonOne(item, two)];
      seen' := seen[SEASON_ONE_KEY := |tvdbMaps| - 1];
    }
  }

  method ApplyMapping(maps: seq<EpisodeMap>, seen: map<string, nat>, item: Item, mapping: Mapping,
                      ghost others: seq<EpisodeMap>, ghost g: Group)
    returns (tvdbMaps: seq<EpisodeMap>, seen': map<string, nat>)
    requires g.Valid() && Placed(maps, seen, others, g)
    ensures Placed(tvdbMaps, seen', others, WithMapping(g, item, mapping))
  {
    tvdbMaps, seen' := maps, seen;
    var key := KeyOf(mapping);
    if key in seen {
      var f := FillFields(maps[seen[key]], mapping);
      PlacedUpdate(maps, seen, others, g, key, f.m);
      tvdbMaps := maps[seen[key] := f.m];
      if f.ok {
        tvdbMaps := WidenAbsolute(tvdbMaps, seen, f.m, others, g.(maps := g.maps[g.seen[key] := f.m]));
      }
    } else {
      var f := FillFields(Blank(item), mapping);
      if f.ok {
        ghost var g1 := g;
        if f.m.tvdbSeason == 2 && mapping.aniDBSeason == "1" {
          tvdbMaps, seen' := AddSeasonOne(maps, seen, item, f.m, others, g);
          g1 := WithSeasonOne(g, item, f.m);
        }
        PlacedAppend(tvdbMaps, seen', others, g1, key, f.m);
        tvdbMaps := tvdbMaps + [f.m];
        seen' := seen'[key := |tvdbMaps| - 1];
        tvdbMaps := WidenAbsolute(tvdbMaps, seen', f.m, others, Group(g1.maps + [f.m], g1.seen[key := |g1.maps|]));
      }
    }
  }

  method ApplyMappings(maps: seq<EpisodeMap>, seen0: map<string, nat>, item: Item,
                       ghost others: seq<EpisodeMap>, ghost g: Group)
    returns (tvdbMaps: seq<EpisodeMap>)
    requires g.Valid() && Placed(maps, seen0, others, g)
    ensures tvdbMaps == others + WithMappings(g, item, item.mappings).maps
  {
    tvdbMaps := maps;
    var seen := seen0;
    for i := 0 to |item.mappings|
      invariant Placed(tvdbMaps, seen, others, WithMappings(g, item, item.mappings[..i]))
    {
      assert item.mappings[..i + 1][..i] == item.mappings[..i];
      tvdbMaps, seen := ApplyMapping(tvdbMaps, seen, item, item.mappings[i], others,
                                     WithMappings(g, item, item.mappings[..i]));
    }
    assert item.mappings[..|item.mappings|] == item.mappings;
  }

  ghost predicate Progress(entries: seq<Entry>, tvdbMaps: seq<EpisodeMap>, lastPart: map<string, nat>,
                           seenPart: map<string, nat>)
  {
    && tvdbMaps == Flatten(Groups(entries))
    && Tracks(entries, Groups(entries), lastPart, seenPart)
  }

  /** The maps of the items before an entry, once its part is known. */
  ghost function Others(entries: seq<Entry>, e: Entry): seq<EpisodeMap> {
    Flatten(BoundedAt(Groups(entries), PartBefore(entries, e), e.offset))
  }

  lemma OthersLength(entries: seq<Entry>, e: Entry)
    ensures |Others(entries, e)| == |Flatten(Groups(entries))|
  {
    SameLengths(BoundedAt(Groups(entries), PartBefore(entries, e), e.offset), Groups(entries));
  }

  lemma EntryAdded(entries: seq<Entry>, e: Entry)
    ensures Flatten(Groups(entries + [e])) == Others(entries, e) + ItemMaps(e, PartBefore(entries, e) >= 0)
  {
    var j := PartBefore(entries, e);
    GroupsSnoc(entries, e);
    FlattenSnoc(BoundedAt(Groups(entries), j, e.offset), ItemMaps(e, j >= 0));
  }

  lemma OtherAdded(entries: seq<Entry>, lastPart: map<string, nat>, seenPart: map<string, nat>, e: Entry)
    requires Tracks(entries, Groups(entries), lastPart, seenPart) && !IsTracked(e.item.season)
    ensures Others(entries, e) == Flatten(Groups(entries)) && PartBefore(entries, e) == -1
    ensures Tracks(entries + [e], Groups(entries + [e]), lastPart, seenPart)
  {
    GroupsSnoc(entries, e);
    TrackOther(entries, Groups(entries), lastPart, seenPart, e, ItemMaps(e, false));
  }

  predicate IsClear(e: Entry) {
    ':' !in e.item.season && e.before == BeforeOf(e.item)
  }

  method ReadItem(item: Item) returns (r: Option<Entry>)
    ensures r == Read(item)
    ensures r.Some? ==> IsClear(r.value)
  {
    var e := Entry(item, -1, 0, BeforeOf(item));
    if item.episodeOffset != "" {
      var offset := Atoi(item.episodeOffset);
      if offset.None? {
        return None;
      }
      e := e.(offset := offset.value);
    }
    if item.season != "a" {
      var season := Atoi(item.season);
      if season.None? {
        return None;
      }
      AtoiChars(item.season, ':');
      e := e.(tvdbSeason := season.value);
    }
    r := Some(e);
  }

  method AddDefault(maps: seq<EpisodeMap>, lastPart: map<string, nat>, seenPart: map<string, nat>, e: Entry,
                    ghost entries: seq<Entry>)
    returns (tvdbMaps: seq<EpisodeMap>, lastPart': map<string, nat>, seenPart': map<string, nat>)
    requires Progress(entries, maps, lastPart, seenPart) && IsClear(e)
    ensures tvdbMaps == Others(entries, e) + [DefaultMap(e, PartBefore(entries, e) >= 0).(before := map[])]
    ensures Tracks(entries + [e], Groups(entries + [e]), lastPart', seenPart')
  {
    var start := if e.item.season == "a" then 1 else 0;
    tvdbMaps := maps + [EpisodeMap(e.item.aniDBId, e.item.tvdbId, 1, e.tvdbSeason, start, 0, e.offset, map[], map[])];
    lastPart', seenPart' := lastPart, seenPart;
    if e.item.season != "a" && e.item.season != "0" {
      tvdbMaps, lastPart', seenPart' := TrackPart(tvdbMaps, lastPart, seenPart, e, entries);
    } else {
      OtherAdded(entries, lastPart, seenPart, e);
    }
  }

  method SetBefore(maps: seq<EpisodeMap>, e: Entry, ghost others: seq<EpisodeMap>, ghost isLater: bool)
    returns (tvdbMaps: seq<EpisodeMap>)
    requires IsClear(e) && maps == others + [DefaultMap(e, isLater).(before := map[])]
    ensures tvdbMaps == others + [DefaultMap(e, isLater)]
  {
    tvdbMaps := maps;
    if e.item.before != "" {
      var i := |maps| - 1;
      tvdbMaps := maps[i := maps[i].(before := WithBefores(map[], PartsOf(e.item.before)))];
    }
  }

  method AddEntry(maps: seq<EpisodeMap>, lastPart: map<string, nat>, seenPart: map<string, nat>, e: Entry,
                  ghost entries: seq<Entry>)
    returns (tvdbMaps: seq<EpisodeMap>, lastPart': map<string, nat>, seenPart': map<string, nat>)
    requires Progress(entries, maps, lastPart, seenPart) && IsClear(e)
    ensures Progress(entries + [e], tvdbMaps, lastPart', seenPart')
  {
    ghost var others, isLater := Others(entries, e), PartBefore(entries, e) >= 0;
    OthersLength(entries, e);
    var seen := map[DefaultKey(e.item) := |maps|];
    tvdbMaps, lastPart', seenPart' := AddDefault(maps, lastPart, seenPart, e, entries);
    tvdbMaps := SetBefore(tvdbMaps, e, others, isLater);
    tvdbMaps := ApplyMappings(tvdbMaps, seen, e.item, others, Started(e, isLater));
    EntryAdded(entries, e);
  }

  lemma AcceptedSnoc(items: seq<Item>, item: Item)
    ensures Accepted(items + [item])
         == if Read(item).Some? then Accepted(items) + [Read(item).value] else Accepted(items)
  {
    assert (items + [item])[..|items|] == items;
  }

  /** The maps of the accepted items, one item after the other. */
  method PrepareAniDBTVDBEpisodeMaps(items: seq<Item>) returns (tvdbMaps: seq<EpisodeMap>)
    ensures tvdbMaps == Flatten(Groups(Accepted(items)))
  {
    tvdbMaps := [];
    var lastPart: map<string, nat>, seenPart: map<string, nat> := map[], map[];
    for i := 0 to |items|
      invariant Progress(Accepted(items[..i]), tvdbMaps, lastPart, seenPart)
    {
      assert items[..i + 1] == items[..i] + [items[i]];
      AcceptedSnoc(items[..i], items[i]);
      var e := ReadItem(items[i]);
      if e.None? {
        continue;
      }
      tvdbMaps, lastPart, seenPart := AddEntry(tvdbMaps, lastPart, seenPart, e.value, Accepted(items[..i]));
    }
    assert items[..|items|] == items;
  }
}
