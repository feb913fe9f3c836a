/**
 What the mapping list of an item becomes: one map for each season key that can be read, with the
 season, the range and the offset that the texts of its mapping name, and a first season that a
 second one bounds or creates.
 */
module EpisodeMappings {
  import opened Wrappers
  import opened Decimal
  import opened EpisodeCodec
  import opened EpisodeMaps
  import opened EpisodeParts
  import opened EpisodeTiling
  import EpisodeSeries

  // ---------------------------------------------------------------- one map for each key

  function ReadableKeys(mappings: seq<Mapping>): set<string> {
    set i | 0 <= i < |mappings| && IsReadable(mappings[i]) :: KeyOf(mappings[i])
  }

  /** A second season, which needs a first one; not if it is the item's own. */
  predicate IsSecond(item: Item, mapping: Mapping) {
    && IsReadable(mapping) && mapping.aniDBSeason == "1" && Atoi(mapping.tvdbSeason) == Some(2)
    && KeyOf(mapping) != DefaultKey(item)
  }

  predicate HasSecond(item: Item, mappings: seq<Mapping>) {
    exists i :: 0 <= i < |mappings| && IsSecond(item, mappings[i])
  }

  function Keys(item: Item, mappings: seq<Mapping>): set<string> {
    {DefaultKey(item)} + ReadableKeys(mappings) + if HasSecond(item, mappings) then {"1:1"} else {}
  }

  /** Every map has one key, and every key a map of its own. */
  ghost predicate IsKeyed(g: Group) {
    && g.Valid() && |g.maps| == |g.seen|
    && forall key, key' :: key in g.seen && key' in g.seen && g.seen[key] == g.seen[key'] ==> key == key'
  }

  lemma {:induction false} WidenIsKeyed(g: Group, m: EpisodeMap)
    requires IsKeyed(g)
    ensures IsKeyed(Widen(g, m))
  {
  }

  lemma {:induction false} AppendIsKeyed(g: Group, key: string, m: EpisodeMap)
    requires IsKeyed(g) && key !in g.seen
    ensures IsKeyed(Group(g.maps + [m], g.seen[key := |g.maps|]))
  {
  }

  lemma {:induction false} SeasonOneIsKeyed(g: Group, item: Item, two: EpisodeMap)
    requires IsKeyed(g)
    ensures IsKeyed(WithSeasonOne(g, item, two))
    ensures WithSeasonOne(g, item, two).seen.Keys == g.seen.Keys + {"1:1"}
  {
    if SEASON_ONE_KEY !in g.seen {
      AppendIsKeyed(g, SEASON_ONE_KEY, SeasonOne(item, two));
    }
  }

  lemma {:induction false} OneIsNotTwo()
    ensures Atoi("1") == Some(1)
  {
    assert "1"[..0] == "" && ValueOf("1") == 1;
  }

  lemma {:induction false} SecondIsNotFirst(mapping: Mapping)
    requires Atoi(mapping.tvdbSeason) == Some(2) && mapping.aniDBSeason == "1"
    ensures KeyOf(mapping) != "1:1"
  {
    OneIsNotTwo();
    assert KeyOf(mapping)[2..] == mapping.tvdbSeason && "1:1"[2..] == "1";
  }

  lemma {:induction false} SeenAddsNothing(g: Group, item: Item, mapping: Mapping)
    requires IsKeyed(g) && KeyOf(mapping) in g.seen
    ensures IsKeyed(WithMapping(g, item, mapping)) && WithMapping(g, item, mapping).seen == g.seen
  {
    var f := Fill(g.maps[g.seen[KeyOf(mapping)]], mapping);
    WidenIsKeyed(g.(maps := g.maps[g.seen[KeyOf(mapping)] := f.m]), f.m);
  }

  /** The map of a new key, and what comes with it. */
  lemma {:induction false} AddedKeys(g: Group, item: Item, key: string, m: EpisodeMap, isSecond: bool)
    requires IsKeyed(g) && key !in g.seen && (isSecond ==> key != "1:1")
    ensures var g1 := if isSecond then WithSeasonOne(g, item, m) else g;
            var g' := Widen(Group(g1.maps + [m], g1.seen[key := |g1.maps|]), m);
            IsKeyed(g') && g'.seen.Keys == g.seen.Keys + {key} + if isSecond then {"1:1"} else {}
  {
    var g1 := if isSecond then WithSeasonOne(g, item, m) else g;
    if isSecond {
      SeasonOneIsKeyed(g, item, m);
    }
    AppendIsKeyed(g1, key, m);
    WidenIsKeyed(Group(g1.maps + [m], g1.seen[key := |g1.maps|]), m);
  }

  lemma {:induction false} NewAddsKeys(g: Group, item: Item, mapping: Mapping)
    requires IsKeyed(g) && DefaultKey(item) in g.seen && KeyOf(mapping) !in g.seen
    ensures var g' := WithMapping(g, item, mapping);
            && IsKeyed(g')
            && g'.seen.Keys == g.seen.Keys + (if IsReadable(mapping) then {KeyOf(mapping)} else {})
                               + (if IsSecond(item, mapping) then {"1:1"} else {})
  {
    var f := Fill(Blank(item), mapping);
    FillReadsAll(Blank(item), mapping);
    if f.ok {
      FilledSeason(Blank(item), mapping);
      if IsSecond(item, mapping) {
        SecondIsNotFirst(mapping);
      }
      AddedKeys(g, item, KeyOf(mapping), f.m, f.m.tvdbSeason == 2 && mapping.aniDBSeason == "1");
    }
  }

  lemma {:induction false} ReadableKeysSnoc(mappings: seq<Mapping>, mapping: Mapping)
    ensures ReadableKeys(mappings + [mapping])
         == ReadableKeys(mappings) + if IsReadable(mapping) then {KeyOf(mapping)} else {}
  {
    var all := mappings + [mapping];
    assert all[|mappings|] == mapping;
    assert forall i :: 0 <= i < |mappings| ==> all[i] == mappings[i];
    forall key | key in ReadableKeys(mappings) ensures key in ReadableKeys(all) {
      var i :| 0 <= i < |mappings| && IsReadable(mappings[i]) && KeyOf(mappings[i]) == key;
      assert IsReadable(all[i]) && KeyOf(all[i]) == key;
    }
  }

  lemma {:induction false} HasSecondSnoc(item: Item, mappings: seq<Mapping>, mapping: Mapping)
    ensures HasSecond(item, mappings + [mapping]) <==> HasSecond(item, mappings) || IsSecond(item, mapping)
  {
    var all := mappings + [mapping];
    assert all[|mappings|] == mapping;
    assert forall i :: 0 <= i < |mappings| ==> all[i] == mappings[i];
  }

  /** A mapping for a season that has been read before, and is a second one, was one then. */
  lemma {:induction false} SecondWasSecond(item: Item, mappings: seq<Mapping>, mapping: Mapping)
    requires IsSecond(item, mapping) && KeyOf(mapping) in Keys(item, mappings)
    ensures HasSecond(item, mappings)
  {
    SecondIsNotFirst(mapping);
    var i :| 0 <= i < |mappings| && IsReadable(mappings[i]) && KeyOf(mappings[i]) == KeyOf(mapping);
    SameKey(mappings[i], mapping);
  }

  lemma {:induction false} SameKey(a: Mapping, b: Mapping)
    requires KeyOf(a) == KeyOf(b) && b.aniDBSeason == "1" && IsReadable(b)
    ensures a.aniDBSeason == "1" && a.tvdbSeason == b.tvdbSeason
  {
    AtoiChars(b.tvdbSeason, ':');
    EpisodeSeries.SameHalves(a.aniDBSeason, a.tvdbSeason, b.tvdbSeason);
  }

  lemma {:induction false} KeysSnoc(item: Item, mappings: seq<Mapping>, mapping: Mapping)
    ensures Keys(item, mappings + [mapping])
         == Keys(item, mappings) + (if IsReadable(mapping) then {KeyOf(mapping)} else {})
            + (if IsSecond(item, mapping) then {"1:1"} else {})
  {
    ReadableKeysSnoc(mappings, mapping);
    HasSecondSnoc(item, mappings, mapping);
  }

  ghost predicate HasKeys(g: Group, item: Item, mappings: seq<Mapping>) {
    IsKeyed(g) && g.seen.Keys == Keys(item, mappings)
  }

  lemma {:induction false} MappingKeepsKeys(g: Group, item: Item, mappings: seq<Mapping>, mapping: Mapping)
    requires HasKeys(g, item, mappings)
    ensures HasKeys(WithMapping(g, item, mapping), item, mappings + [mapping])
  {
    KeysSnoc(item, mappings, mapping);
    if KeyOf(mapping) in g.seen {
      SeenAddsNothing(g, item, mapping);
      if IsSecond(item, mapping) {
        SecondWasSecond(item, mappings, mapping);
      }
    } else {
      NewAddsKeys(g, item, mapping);
    }
  }

  /** The keys are the item's own, those of the mappings that can be read, and that of a first season
      if there is a second one; and there is one map for each. */
  lemma {:induction false} KeysAre(e: Entry, isLater: bool, mappings: seq<Mapping>)
    ensures HasKeys(WithMappings(Started(e, isLater), e.item, mappings), e.item, mappings)
  {
    if mappings == [] {
      assert Started(e, isLater).seen.Keys == {DefaultKey(e.item)};
    } else {
      var rest, last := mappings[..|mappings| - 1], mappings[|mappings| - 1];
      assert mappings == rest + [last];
      KeysAre(e, isLater, rest);
      MappingKeepsKeys(WithMappings(Started(e, isLater), e.item, rest), e.item, rest, last);
    }
  }

  // ---------------------------------------------------------------- a map that no other mapping is for

  /** Other mappings widen a map in absolute order, whose range counts for nothing; others they leave. */
  predicate IsLike(m: EpisodeMap, was: EpisodeMap, key: string) {
    m == if key == "1:-1" then was.(end := m.end) else was
  }

  /** The map of the key, and of no other key. */
  ghost predicate Holds(g: Group, key: string, p: nat, m: EpisodeMap) {
    && g.Valid() && p < |g.maps| && IsLike(g.maps[p], m, key)
    && key in g.seen && g.seen[key] == p
    && forall other :: other in g.seen && other != key ==> g.seen[other] != p
  }

  lemma {:induction false} WidenHolds(g: Group, wide: EpisodeMap, key: string, p: nat, m: EpisodeMap)
    requires Holds(g, key, p, m)
    ensures Holds(Widen(g, wide), key, p, m)
  {
  }

  /** A first season that has a range is not bounded any more. */
  lemma {:induction false} SeasonOneHolds(g: Group, item: Item, two: EpisodeMap, key: string, p: nat, m: EpisodeMap)
    requires Holds(g, key, p, m) && (key == "1:1" ==> m.start != 0 || m.end != 0)
    ensures Holds(WithSeasonOne(g, item, two), key, p, m)
  {
  }

  lemma {:induction false} AppendHolds(g: Group, other: string, more: EpisodeMap, key: string, p: nat, m: EpisodeMap)
    requires Holds(g, key, p, m) && other != key
    ensures Holds(Group(g.maps + [more], g.seen[other := |g.maps|]), key, p, m)
  {
  }

  lemma {:induction false} MappingHolds(g: Group, item: Item, mapping: Mapping, key: string, p: nat, m: EpisodeMap)
    requires Holds(g, key, p, m) && KeyOf(mapping) != key
    requires key == "1:1" ==> m.start != 0 || m.end != 0 || !IsSecond(item, mapping)
    requires DefaultKey(item) in g.seen
    ensures Holds(WithMapping(g, item, mapping), key, p, m)
    ensures DefaultKey(item) in WithMapping(g, item, mapping).seen
  {
    if KeyOf(mapping) in g.seen {
      var q := g.seen[KeyOf(mapping)];
      var f := Fill(g.maps[q], mapping);
      WidenHolds(g.(maps := g.maps[q := f.m]), f.m, key, p, m);
    } else {
      var f := Fill(Blank(item), mapping);
      FillReadsAll(Blank(item), mapping);
      if f.ok {
        FilledSeason(Blank(item), mapping);
        var g1 := g;
        if f.m.tvdbSeason == 2 && mapping.aniDBSeason == "1" {
          SeasonOneHolds(g, item, f.m, key, p, m);
          g1 := WithSeasonOne(g, item, f.m);
        }
        AppendHolds(g1, KeyOf(mapping), f.m, key, p, m);
        WidenHolds(Group(g1.maps + [f.m], g1.seen[KeyOf(mapping) := |g1.maps|]), f.m, key, p, m);
      }
    }
  }

  lemma {:induction false} MappingsHold(
    g: Group, item: Item, mappings: seq<Mapping>, key: string, p: nat, m: EpisodeMap)
    requires Holds(g, key, p, m) && DefaultKey(item) in g.seen
    requires forall i :: 0 <= i < |mappings| ==> KeyOf(mappings[i]) != key
    requires key == "1:1" ==> m.start != 0 || m.end != 0 || !HasSecond(item, mappings)
    ensures Holds(WithMappings(g, item, mappings), key, p, m)
    ensures DefaultKey(item) in WithMappings(g, item, mappings).seen
  {
    if mappings != [] {
      var rest, last := mappings[..|mappings| - 1], mappings[|mappings| - 1];
      assert mappings == rest + [last];
      HasSecondSnoc(item, rest, last);
      MappingsHold(g, item, rest, key, p, m);
      MappingHolds(WithMappings(g, item, rest), item, last, key, p, m);
    }
  }

  lemma {:induction false} MappingsSnoc(g: Group, item: Item, mappings: seq<Mapping>, mapping: Mapping)
    requires g.Valid()
    ensures WithMappings(g, item, mappings + [mapping]) == WithMapping(WithMappings(g, item, mappings), item, mapping)
  {
    assert (mappings + [mapping])[..|mappings|] == mappings;
  }

  lemma {:induction false} MappingsInTwo(g: Group, item: Item, some: seq<Mapping>, more: seq<Mapping>)
    requires g.Valid()
    ensures WithMappings(g, item, some + more) == WithMappings(WithMappings(g, item, some), item, more)
    decreases |more|
  {
    if more == [] {
      assert some + more == some;
    } else {
      var rest, last := more[..|more| - 1], more[|more| - 1];
      assert more == rest + [last] && some + more == (some + rest) + [last];
      MappingsInTwo(g, item, some, rest);
      MappingsSnoc(g, item, some + rest, last);
    }
  }

  lemma {:induction false} SecondOfPart(item: Item, mappings: seq<Mapping>, i: nat, j: nat)
    requires i <= j <= |mappings|
    ensures HasSecond(item, mappings[i..j]) ==> HasSecond(item, mappings)
  {
    var part := mappings[i..j];
    if HasSecond(item, part) {
      var k :| 0 <= k < |part| && IsSecond(item, part[k]);
      assert part[k] == mappings[i + k];
    }
  }

  lemma {:induction false} AtOne(mappings: seq<Mapping>, i: nat)
    requires i < |mappings|
    ensures mappings == mappings[..i] + [mappings[i]] + mappings[i + 1..]
    ensures mappings[..i + 1] == mappings[..i] + [mappings[i]]
  {
  }

  // ---------------------------------------------------------------- what a mapping becomes

  /** The number that a text names, or zero. */
  function NumberOf(text: string): Int {
    match Atoi(text) case None => 0 case Some(n) => n
  }

  function EpisodesIn(text: string): Episodes {
    if text == "" then map[] else WithEpisodes(map[], PartsOf(text))
  }

  /** The map that the texts of a mapping name. */
  function MapOf(item: Item, mapping: Mapping): EpisodeMap {
    EpisodeMap(item.aniDBId, item.tvdbId, if mapping.aniDBSeason == "1" then 1 else 0, NumberOf(mapping.tvdbSeason),
               NumberOf(mapping.start), NumberOf(mapping.end), NumberOf(mapping.offset), map[],
               EpisodesIn(mapping.value))
  }

  lemma {:induction false} FillIsMapOf(item: Item, mapping: Mapping)
    requires IsReadable(mapping)
    ensures Fill(Blank(item), mapping) == Filling(MapOf(item, mapping), true)
  {
    assert Atoi("").None?;
  }

  /** No other mapping of the list is for the season: none that can be read before, and none after. */
  predicate IsOnly(mappings: seq<Mapping>, i: nat)
    requires i < |mappings|
  {
    && (forall k :: 0 <= k < i && KeyOf(mappings[k]) == KeyOf(mappings[i]) ==> !IsReadable(mappings[k]))
    && (forall k :: i < k < |mappings| ==> KeyOf(mappings[k]) != KeyOf(mappings[i]))
  }

  /** Nor does the item itself or a second season have a map for it. */
  predicate IsNew(item: Item, i: nat)
    requires i < |item.mappings|
  {
    && IsReadable(item.mappings[i]) && IsOnly(item.mappings, i)
    && KeyOf(item.mappings[i]) != DefaultKey(item)
    && (KeyOf(item.mappings[i]) == "1:1" ==> !HasSecond(item, item.mappings))
  }

  lemma {:induction false} NotAmongKeys(item: Item, i: nat)
    requires i < |item.mappings| && IsNew(item, i)
    ensures KeyOf(item.mappings[i]) !in Keys(item, item.mappings[..i])
  {
    SecondOfPart(item, item.mappings, 0, i);
  }

  lemma {:induction false} NotSeenBefore(e: Entry, isLater: bool, i: nat)
    requires i < |e.item.mappings| && IsNew(e.item, i)
    ensures var g := WithMappings(Started(e, isLater), e.item, e.item.mappings[..i]);
            KeyOf(e.item.mappings[i]) !in g.seen && DefaultKey(e.item) in g.seen
  {
    NotAmongKeys(e.item, i);
    KeysAre(e, isLater, e.item.mappings[..i]);
  }

  /** Taken up, it is the last map but for the widening. */
  lemma {:induction false} NewHolds(g: Group, item: Item, mapping: Mapping) returns (p: nat)
    requires g.Valid() && IsReadable(mapping) && KeyOf(mapping) !in g.seen && DefaultKey(item) in g.seen
    ensures p > 0 && Holds(WithMapping(g, item, mapping), KeyOf(mapping), p, MapOf(item, mapping))
    ensures DefaultKey(item) in WithMapping(g, item, mapping).seen
  {
    var f := Fill(Blank(item), mapping);
    FillIsMapOf(item, mapping);
    var g1 := if f.m.tvdbSeason == 2 && mapping.aniDBSeason == "1" then WithSeasonOne(g, item, f.m) else g;
    p := |g1.maps|;
    WidenHolds(Group(g1.maps + [f.m], g1.seen[KeyOf(mapping) := p]), f.m, KeyOf(mapping), p, f.m);
  }

  /** A mapping for a season that nothing else of the item is for becomes the map that it names. */
  lemma {:induction false} MappingBecomesMap(e: Entry, isLater: bool, i: nat) returns (p: nat)
    requires i < |e.item.mappings| && IsNew(e.item, i)
    ensures 0 < p < |ItemMaps(e, isLater)|
    ensures IsLike(ItemMaps(e, isLater)[p], MapOf(e.item, e.item.mappings[i]), KeyOf(e.item.mappings[i]))
  {
    var item, ms := e.item, e.item.mappings;
    var g := WithMappings(Started(e, isLater), item, ms[..i]);
    NotSeenBefore(e, isLater, i);
    p := NewHolds(g, item, ms[i]);
    AtOne(ms, i);
    MappingsInTwo(Started(e, isLater), item, ms[..i + 1], ms[i + 1..]);
    SecondOfPart(item, ms, i + 1, |ms|);
    MappingsHold(WithMapping(g, item, ms[i]), item, ms[i + 1..], KeyOf(ms[i]), p, MapOf(item, ms[i]));
  }

  lemma {:induction false} AbsoluteIsMinusOne(mapping: Mapping)
    requires IsReadable(mapping) && KeyOf(mapping) == "1:-1"
    ensures Atoi(mapping.tvdbSeason) == Some(-1)
  {
    EpisodeSeries.SameHalves(mapping.aniDBSeason, mapping.tvdbSeason, "-1");
    OneIsNotTwo();
    assert "-1"[1..] == "1";
  }

  /** The TVDB episodes of an AniDB episode, as the texts of a mapping say: the ones that are listed for
      it, or the one at the offset, in absolute order always, and else only within the range, which is
      open where the text is empty or zero. */
  ghost predicate FollowsTexts(m: EpisodeMap, item: Item, mapping: Mapping) {
    var season, start, end := NumberOf(mapping.tvdbSeason), NumberOf(mapping.start), NumberOf(mapping.end);
    && m.aniDBId == item.aniDBId && m.tvdbId == item.tvdbId
    && m.aniDBSeason == (if mapping.aniDBSeason == "1" then 1 else 0) && m.tvdbSeason == season
    && forall episode: Int ::
         ToTVDB(m, episode)
         == if episode in EpisodesIn(mapping.value) then EpisodesIn(mapping.value)[episode]
            else if season == -1 || ((start == 0 || start <= episode) && (end == 0 || episode <= end))
            then [Wrap(episode + NumberOf(mapping.offset))]
            else []
  }

  lemma {:induction false} MapFollowsTexts(m: EpisodeMap, item: Item, mapping: Mapping)
    requires IsReadable(mapping) && IsLike(m, MapOf(item, mapping), KeyOf(mapping))
    ensures FollowsTexts(m, item, mapping)
  {
    if KeyOf(mapping) == "1:-1" {
      AbsoluteIsMinusOne(mapping);
    }
  }

  lemma {:induction false} InFlatten(gs: seq<seq<EpisodeMap>>, j: nat, p: nat)
    requires j < |gs| && p < |gs[j]|
    ensures gs[j][p] in Flatten(gs)
  {
    if j < |gs| - 1 {
      InFlatten(gs[..|gs| - 1], j, p);
    }
  }

  /** What the construction yields for every list of items: a mapping that can be read, for a season
      that nothing else of its item is for, is a map of its item, and takes the episodes where its
      texts say. */
  lemma {:induction false} MappedEpisodes(entries: seq<Entry>, j: nat, i: nat) returns (p: nat)
    requires j < |entries| && i < |entries[j].item.mappings| && IsNew(entries[j].item, i)
    ensures 0 < p < |Groups(entries)[j]| && Groups(entries)[j][p] in Flatten(Groups(entries))
    ensures FollowsTexts(Groups(entries)[j][p], entries[j].item, entries[j].item.mappings[i])
  {
    p := MappingBecomesMap(entries[j], IsLater(entries, j), i);
    GroupsAreContributions(entries, j);
    MapFollowsTexts(Groups(entries)[j][p], entries[j].item, entries[j].item.mappings[i]);
    InFlatten(Groups(entries), j, p);
  }

  /** And there are no other maps than those of the keys. */
  lemma {:induction false} OneMapPerKey(entries: seq<Entry>, j: nat)
    requires j < |entries|
    ensures |Groups(entries)[j]| == |Keys(entries[j].item, entries[j].item.mappings)|
  {
    var e, isLater := entries[j], IsLater(entries, j);
    GroupsAreContributions(entries, j);
    KeysAre(e, isLater, e.item.mappings);
    var seen := WithMappings(Started(e, isLater), e.item, e.item.mappings).seen;
    assert seen.Keys == Keys(e.item, e.item.mappings) && |seen.Keys| == |seen|;
  }

  // ---------------------------------------------------------------- a first season before a second one

  /** A first season that has no range yet ends where the second one begins, and takes over what the
      second one's episodes are moved by, unless it has an offset of its own. */
  predicate IsFirstOf(m: EpisodeMap, was: EpisodeMap, second: Mapping) {
    var start, offset := NumberOf(second.start), NumberOf(second.offset);
    if was.start == 0 && was.end == 0 then
      && m == was.(start := m.start, end := m.end, offset := m.offset)
      && m.start == 1 && m.end == Wrap(start - 1)
      && m.offset == if was.offset == 0 then Wrap(start - 1 + offset) else was.offset
    else m == was
  }

  lemma {:induction false} SecondBounds(g: Group, item: Item, mapping: Mapping, p: nat, was: EpisodeMap)
    returns (m: EpisodeMap)
    requires Holds(g, "1:1", p, was) && IsSecond(item, mapping) && KeyOf(mapping) !in g.seen
    requires DefaultKey(item) in g.seen
    ensures IsFirstOf(m, was, mapping) && (m.start != 0 || m.end != 0)
    ensures Holds(WithMapping(g, item, mapping), "1:1", p, m) && DefaultKey(item) in WithMapping(g, item, mapping).seen
  {
    SecondIsNotFirst(mapping);
    FillIsMapOf(item, mapping);
    var two := MapOf(item, mapping);
    m := BoundSeasonOne(was, two);
    var g1 := WithSeasonOne(g, item, two);
    assert Holds(g1, "1:1", p, m);
    AppendHolds(g1, KeyOf(mapping), two, "1:1", p, m);
    WidenHolds(Group(g1.maps + [two], g1.seen[KeyOf(mapping) := |g1.maps|]), two, "1:1", p, m);
  }

  /** The first second season of a mapping list without another first season behind it. */
  predicate IsFirstSecond(item: Item, i: nat)
    requires i < |item.mappings|
  {
    && IsSecond(item, item.mappings[i])
    && (forall k :: 0 <= k < i ==> !IsSecond(item, item.mappings[k]))
    && (forall k :: i < k < |item.mappings| ==> KeyOf(item.mappings[k]) != "1:1")
  }

  lemma {:induction false} SecondIsNew(e: Entry, isLater: bool, i: nat)
    requires i < |e.item.mappings| && IsFirstSecond(e.item, i)
    ensures var g := WithMappings(Started(e, isLater), e.item, e.item.mappings[..i]);
            && g.Valid() && KeyOf(e.item.mappings[i]) !in g.seen && DefaultKey(e.item) in g.seen
            && !HasSecond(e.item, e.item.mappings[..i])
            && g.seen.Keys == {DefaultKey(e.item)} + ReadableKeys(e.item.mappings[..i])
  {
    var before := e.item.mappings[..i];
    KeysAre(e, isLater, before);
    if KeyOf(e.item.mappings[i]) in Keys(e.item, before) {
      SecondWasSecond(e.item, before, e.item.mappings[i]);
    }
  }

  lemma {:induction false} AfterSecond(e: Entry, isLater: bool, i: nat, p: nat, m: EpisodeMap)
    requires i < |e.item.mappings| && IsFirstSecond(e.item, i) && (m.start != 0 || m.end != 0)
    requires var before := WithMappings(Started(e, isLater), e.item, e.item.mappings[..i]);
             var g := WithMapping(before, e.item, e.item.mappings[i]);
             Holds(g, "1:1", p, m) && DefaultKey(e.item) in g.seen
    ensures p < |ItemMaps(e, isLater)| && ItemMaps(e, isLater)[p] == m
  {
    var item, ms := e.item, e.item.mappings;
    var g := WithMapping(WithMappings(Started(e, isLater), item, ms[..i]), item, ms[i]);
    AtOne(ms, i);
    MappingsInTwo(Started(e, isLater), item, ms[..i + 1], ms[i + 1..]);
    MappingsHold(g, item, ms[i + 1..], "1:1", p, m);
  }

  lemma {:induction false} OwnHolds(e: Entry, isLater: bool, before: seq<Mapping>)
    requires e.item.season == "1" && !HasSecond(e.item, before)
    requires forall k :: 0 <= k < |before| ==> KeyOf(before[k]) != "1:1"
    ensures Holds(WithMappings(Started(e, isLater), e.item, before), "1:1", 0, DefaultMap(e, isLater))
  {
    assert "1:" + "1" == "1:1";
    MappingsHold(Started(e, isLater), e.item, before, "1:1", 0, DefaultMap(e, isLater));
  }

  /** The item's own first season, when its mapping list goes on to a second one. */
  lemma {:induction false} OwnSeasonIsBounded(e: Entry, isLater: bool, i: nat)
    requires e.item.season == "1" && i < |e.item.mappings| && IsFirstSecond(e.item, i)
    requires forall k :: 0 <= k < i ==> KeyOf(e.item.mappings[k]) != "1:1"
    ensures IsFirstOf(ItemMaps(e, isLater)[0], DefaultMap(e, isLater), e.item.mappings[i])
  {
    var item, ms := e.item, e.item.mappings;
    SecondIsNew(e, isLater, i);
    OwnHolds(e, isLater, ms[..i]);
    var g := WithMappings(Started(e, isLater), item, ms[..i]);
    var m := SecondBounds(g, item, ms[i], 0, DefaultMap(e, isLater));
    AfterSecond(e, isLater, i, 0, m);
  }

  /** A first season that an earlier mapping is for. */
  lemma {:induction false} MappedSeasonIsBounded(e: Entry, isLater: bool, h: nat, i: nat) returns (p: nat)
    requires e.item.season != "1" && h < i < |e.item.mappings| && IsFirstSecond(e.item, i)
    requires KeyOf(e.item.mappings[h]) == "1:1" && IsReadable(e.item.mappings[h])
    requires forall k :: 0 <= k < i && k != h ==> KeyOf(e.item.mappings[k]) != "1:1"
    ensures 0 < p < |ItemMaps(e, isLater)|
    ensures IsFirstOf(ItemMaps(e, isLater)[p], MapOf(e.item, e.item.mappings[h]), e.item.mappings[i])
  {
    var item, ms := e.item, e.item.mappings;
    var before := ms[..i];
    SecondIsNew(e, isLater, i);
    p := FirstHolds(e, isLater, h, before);
    var m := SecondBounds(WithMappings(Started(e, isLater), item, before), item, ms[i], p, MapOf(item, ms[h]));
    AfterSecond(e, isLater, i, p, m);
  }

  lemma {:induction false} FirstIsNew(e: Entry, isLater: bool, before: seq<Mapping>)
    requires e.item.season != "1" && !HasSecond(e.item, before)
    requires forall k :: 0 <= k < |before| && IsReadable(before[k]) ==> KeyOf(before[k]) != "1:1"
    ensures var g := WithMappings(Started(e, isLater), e.item, before);
            g.Valid() && "1:1" !in g.seen && DefaultKey(e.item) in g.seen
  {
    KeysAre(e, isLater, before);
    OwnKeyIsNotFirst(e.item);
  }

  lemma {:induction false} FirstHolds(e: Entry, isLater: bool, h: nat, before: seq<Mapping>) returns (p: nat)
    requires e.item.season != "1" && h < |before| && KeyOf(before[h]) == "1:1" && IsReadable(before[h])
    requires !HasSecond(e.item, before)
    requires forall k :: 0 <= k < |before| && k != h ==> KeyOf(before[k]) != "1:1"
    ensures p > 0 && Holds(WithMappings(Started(e, isLater), e.item, before), "1:1", p, MapOf(e.item, before[h]))
  {
    var some, more := before[..h + 1], before[h + 1..];
    SecondOfPart(e.item, before, 0, h);
    SecondOfPart(e.item, before, h + 1, |before|);
    FirstIsNew(e, isLater, before[..h]);
    p := NewHolds(WithMappings(Started(e, isLater), e.item, before[..h]), e.item, before[h]);
    AtOne(before, h);
    FirstStays(e, isLater, some, more, p, MapOf(e.item, before[h]));
    assert some + more == before;
  }

  lemma {:induction false} FirstStays(
    e: Entry, isLater: bool, some: seq<Mapping>, more: seq<Mapping>, p: nat, m: EpisodeMap)
    requires var g := WithMappings(Started(e, isLater), e.item, some);
             Holds(g, "1:1", p, m) && DefaultKey(e.item) in g.seen
    requires !HasSecond(e.item, more) && forall k :: 0 <= k < |more| ==> KeyOf(more[k]) != "1:1"
    ensures Holds(WithMappings(Started(e, isLater), e.item, some + more), "1:1", p, m)
  {
    MappingsInTwo(Started(e, isLater), e.item, some, more);
    MappingsHold(WithMappings(Started(e, isLater), e.item, some), e.item, more, "1:1", p, m);
  }

  lemma {:induction false} OwnKeyIsNotFirst(item: Item)
    requires item.season != "1"
    ensures DefaultKey(item) != "1:1"
  {
    assert DefaultKey(item)[2..] == (if item.season == "a" then "-1" else item.season) && "1:1"[2..] == "1";
  }

  /** Without one, a second season brings a first one along. */
  lemma {:induction false} FirstSeasonIsMade(e: Entry, isLater: bool, i: nat) returns (p: nat)
    requires e.item.season != "1" && i < |e.item.mappings| && IsFirstSecond(e.item, i)
    requires forall k :: 0 <= k < i && IsReadable(e.item.mappings[k]) ==> KeyOf(e.item.mappings[k]) != "1:1"
    ensures 0 < p < |ItemMaps(e, isLater)|
    ensures var m, start := ItemMaps(e, isLater)[p], NumberOf(e.item.mappings[i].start);
            && m.aniDBId == e.item.aniDBId && m.tvdbId == e.item.tvdbId && m.aniDBSeason == 1 && m.tvdbSeason == 1
            && m.start == 1 && m.end == Wrap(start - 1) && m.before == map[] && m.episodes == map[]
            && m.offset == Wrap(start - 1 + NumberOf(e.item.mappings[i].offset))
  {
    var item, ms := e.item, e.item.mappings;
    SecondIsNew(e, isLater, i);
    FirstIsNew(e, isLater, ms[..i]);
    var g := WithMappings(Started(e, isLater), item, ms[..i]);
    var m;
    p, m := SecondMakes(g, item, ms[i]);
    AfterSecond(e, isLater, i, p, m);
  }

  lemma {:induction false} SecondMakes(g: Group, item: Item, mapping: Mapping) returns (p: nat, m: EpisodeMap)
    requires g.Valid() && "1:1" !in g.seen && IsSecond(item, mapping) && KeyOf(mapping) !in g.seen
    requires DefaultKey(item) in g.seen
    ensures p > 0 && m == SeasonOne(item, MapOf(item, mapping))
    ensures Holds(WithMapping(g, item, mapping), "1:1", p, m) && DefaultKey(item) in WithMapping(g, item, mapping).seen
  {
    SecondIsNotFirst(mapping);
    FillIsMapOf(item, mapping);
    var two := MapOf(item, mapping);
    p, m := |g.maps|, SeasonOne(item, two);
    var g1 := WithSeasonOne(g, item, two);
    AppendHolds(g1, KeyOf(mapping), two, "1:1", p, m);
    WidenHolds(Group(g1.maps + [two], g1.seen[KeyOf(mapping) := |g1.maps|]), two, "1:1", p, m);
  }

  /** AniDB episodes before `start` are moved by `shift`, and no others are there. */
  ghost predicate TakesBelow(m: EpisodeMap, start: Int, shift: Int) {
    forall episode: Int ::
      ToTVDB(m, episode)
      == if 1 <= episode && (start == 1 || episode <= Wrap(start - 1)) then [Wrap(episode + shift)] else []
  }

  lemma {:induction false} FirstTakesBelow(m: EpisodeMap, start: Int, shift: Int)
    requires m.tvdbSeason == 1 && m.start == 1 && m.end == Wrap(start - 1) && m.offset == shift && m.episodes == map[]
    ensures TakesBelow(m, start, shift)
  {
  }

  /** The item's own first season, if it is not a later part, takes the episodes before the second one. */
  lemma {:induction false} OwnSeasonTakes(e: Entry, i: nat)
    requires e.item.season == "1" && e.tvdbSeason == 1 && i < |e.item.mappings| && IsFirstSecond(e.item, i)
    requires forall k :: 0 <= k < i ==> KeyOf(e.item.mappings[k]) != "1:1"
    ensures var start, offset := NumberOf(e.item.mappings[i].start), NumberOf(e.item.mappings[i].offset);
            TakesBelow(ItemMaps(e, false)[0], start, if e.offset == 0 then Wrap(start - 1 + offset) else e.offset)
  {
    OwnSeasonIsBounded(e, false, i);
    var start, m := NumberOf(e.item.mappings[i].start), ItemMaps(e, false)[0];
    FirstTakesBelow(m, start, m.offset);
  }

  /** So does the one that is made. */
  lemma {:induction false} MadeSeasonTakes(e: Entry, isLater: bool, i: nat) returns (p: nat)
    requires e.item.season != "1" && i < |e.item.mappings| && IsFirstSecond(e.item, i)
    requires forall k :: 0 <= k < i && IsReadable(e.item.mappings[k]) ==> KeyOf(e.item.mappings[k]) != "1:1"
    ensures 0 < p < |ItemMaps(e, isLater)|
    ensures var start, offset := NumberOf(e.item.mappings[i].start), NumberOf(e.item.mappings[i].offset);
            TakesBelow(ItemMaps(e, isLater)[p], start, Wrap(start - 1 + offset))
  {
    p := FirstSeasonIsMade(e, isLater, i);
    var start, m := NumberOf(e.item.mappings[i].start), ItemMaps(e, isLater)[p];
    FirstTakesBelow(m, start, m.offset);
  }

  /** The maps of an item are its groups, but for the bound that the next part puts on the first one. */
  lemma {:induction false} GroupsAreItemMaps(entries: seq<Entry>, j: nat)
    requires j < |entries|
    ensures |Groups(entries)[j]| == |ItemMaps(entries[j], IsLater(entries, j))|
    ensures forall p :: 0 < p < |Groups(entries)[j]| ==>
              Groups(entries)[j][p] == ItemMaps(entries[j], IsLater(entries, j))[p]
    ensures PartAfter(entries, j) == |entries| ==> Groups(entries)[j] == ItemMaps(entries[j], IsLater(entries, j))
  {
    GroupsAreContributions(entries, j);
  }
}
