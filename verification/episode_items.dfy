/**
 What the construction makes of an item aside from its mapping list: which items are read and how,
 which of them are parts, and how far a map in absolute order reaches.
 */
module EpisodeItems {
  import opened Wrappers
  import opened Decimal
  import opened EpisodeCodec
  import opened EpisodeMaps
  import opened EpisodeParts
  import opened EpisodeTiling
  import opened EpisodeMappings

  // ---------------------------------------------------------------- reading

  /** An item is read if its offset is empty or a number, and its season "a" or a number. */
  lemma {:induction false} ReadIff(item: Item)
    ensures Read(item).Some? <==>
            (item.episodeOffset == "" || Atoi(item.episodeOffset).Some?)
            && (item.season == "a" || Atoi(item.season).Some?)
    ensures Read(item).Some? ==>
              && Read(item).value.item == item
              && Read(item).value.offset == NumberOf(item.episodeOffset)
              && Read(item).value.tvdbSeason == (if item.season == "a" then -1 else NumberOf(item.season))
              && Read(item).value.before
                 == if item.before == "" then map[] else WithBefores(map[], PartsOf(item.before))
  {
    assert Atoi("").None?;
  }

  /** The accepted items are those that are read, in their order. */
  lemma {:induction false} AcceptedOf(some: seq<Item>, more: seq<Item>)
    ensures Accepted(some + more) == Accepted(some) + Accepted(more)
    decreases |more|
  {
    if more == [] {
      assert some + more == some;
    } else {
      AcceptedOf(some, more[..|more| - 1]);
      assert (some + more)[..|some + more| - 1] == some + more[..|more| - 1];
    }
  }

  lemma {:induction false} AcceptedOne(item: Item)
    ensures Accepted([item]) == if Read(item).Some? then [Read(item).value] else []
  {
    assert [item][..0] == [];
  }

  /** What one field becomes, if the fields before it could be read. */
  function Taken(reached: bool, text: string, was: Int): Int {
    match Atoi(text) case None => was case Some(n) => if reached then n else was
  }

  lemma {:induction false} RangeFills(f: Filling, mapping: Mapping)
    ensures var toEnd := f.ok && IsNumberOrEmpty(mapping.start);
            var toOffset := toEnd && IsNumberOrEmpty(mapping.end);
            var r := FillOffset(FillEnd(FillStart(f, mapping.start), mapping.end), mapping.offset);
            && (r.ok <==> toOffset && IsNumberOrEmpty(mapping.offset))
            && r.m == f.m.(start := Taken(f.ok, mapping.start, f.m.start),
                           end := Taken(toEnd, mapping.end, f.m.end),
                           offset := Taken(toOffset, mapping.offset, f.m.offset))
  {
    assert Atoi("").None?;
  }

  /** A mapping is read field by field: those up to the first that is no number are taken over, an empty
      one leaves what was there, and the others stay. */
  lemma {:induction false} FillStops(m: EpisodeMap, mapping: Mapping)
    ensures var toStart := Atoi(mapping.tvdbSeason).Some?;
            var toEnd := toStart && IsNumberOrEmpty(mapping.start);
            var toOffset := toEnd && IsNumberOrEmpty(mapping.end);
            var f := Fill(m, mapping);
            && (f.ok <==> toOffset && IsNumberOrEmpty(mapping.offset))
            && f.m == m.(aniDBSeason := if mapping.aniDBSeason == "0" then 0
                                        else if mapping.aniDBSeason == "1" then 1 else m.aniDBSeason,
                         tvdbSeason := Taken(true, mapping.tvdbSeason, m.tvdbSeason),
                         start := Taken(toStart, mapping.start, m.start),
                         end := Taken(toEnd, mapping.end, m.end),
                         offset := Taken(toOffset, mapping.offset, m.offset),
                         episodes := if f.ok && mapping.value != "" then WithEpisodes(map[], PartsOf(mapping.value))
                                     else m.episodes)
  {
    assert Atoi("").None?;
    RangeFills(FillTVDBSeason(FillAniDBSeason(m, mapping.aniDBSeason), mapping), mapping);
  }

  // ---------------------------------------------------------------- parts

  /** Two entries are parts of one season: neither in absolute order nor specials. */
  predicate ArePartsOfOne(e: Entry, f: Entry) {
    e.item.season == f.item.season && e.item.season != "a" && e.item.season != "0"
  }

  ghost predicate HasPartBefore(entries: seq<Entry>, j: nat)
    requires j < |entries|
  {
    exists k :: 0 <= k < j && ArePartsOfOne(entries[k], entries[j])
  }

  predicate IsNextPart(entries: seq<Entry>, j: nat, k: nat)
    requires j < |entries|
  {
    && j < k < |entries| && ArePartsOfOne(entries[j], entries[k])
    && forall i :: j < i < k ==> !ArePartsOfOne(entries[j], entries[i])
  }

  lemma {:induction false} IsLaterIff(entries: seq<Entry>, j: nat)
    requires j < |entries|
    ensures IsLater(entries, j) <==> HasPartBefore(entries, j)
  {
    var before, e := entries[..j], entries[j];
    if HasPartBefore(entries, j) {
      var k :| 0 <= k < j && ArePartsOfOne(entries[k], entries[j]);
      assert before[k].item.season == e.item.season;
    }
    if IsLater(entries, j) {
      var k := PartBefore(before, e);
      assert before[k] == entries[k] && ArePartsOfOne(entries[k], entries[j]);
    }
  }

  lemma {:induction false} PartAfterIff(entries: seq<Entry>, j: nat, k: nat)
    requires j < |entries|
    ensures IsNextPart(entries, j, k) <==> k == PartAfter(entries, j) < |entries|
  {
    var next := PartAfter(entries, j);
    if next < |entries| {
      assert ArePartsOfOne(entries[j], entries[next]);
    }
  }

  lemma {:induction false} NextPartIs(entries: seq<Entry>, j: nat)
    requires j < |entries|
    ensures (exists k: nat :: IsNextPart(entries, j, k)) <==> PartAfter(entries, j) < |entries|
    ensures forall k: nat :: IsNextPart(entries, j, k) ==> k == PartAfter(entries, j)
  {
    PartAfterIff(entries, j, PartAfter(entries, j));
    forall k: nat | IsNextPart(entries, j, k) ensures k == PartAfter(entries, j) < |entries| {
      PartAfterIff(entries, j, k);
    }
  }

  /** The map of an item without mapping list. Items in absolute order and specials stand alone: theirs
      is open, whatever else is in the list. Any other is a part of its season; with another one before
      or behind it, it begins with episode 1, and it ends where the next one begins. */
  lemma {:induction false} PlainGroupIs(entries: seq<Entry>, j: nat)
    requires j < |entries| && entries[j].item.mappings == []
    ensures |Groups(entries)[j]| == 1
    ensures var m, e := Groups(entries)[j][0], entries[j];
            && m.aniDBId == e.item.aniDBId && m.tvdbId == e.item.tvdbId
            && m.aniDBSeason == 1 && m.tvdbSeason == e.tvdbSeason && m.offset == e.offset
            && m.before == e.before && m.episodes == map[]
            && m.start == (if e.item.season == "a" || HasPartBefore(entries, j)
                              || (exists k: nat :: IsNextPart(entries, j, k)) then 1 else 0)
    ensures forall k: nat :: IsNextPart(entries, j, k) ==>
              Groups(entries)[j][0].end == Wrap(entries[k].offset - entries[j].offset)
    ensures (forall k: nat :: !IsNextPart(entries, j, k)) ==> Groups(entries)[j][0].end == 0
  {
    GroupsAreContributions(entries, j);
    IsLaterIff(entries, j);
    PlainItem(entries[j], IsLater(entries, j));
    NextPartIs(entries, j);
    PlainBounded(entries, j, Groups(entries)[j]);
  }

  lemma {:induction false} PlainBounded(entries: seq<Entry>, j: nat, g: seq<EpisodeMap>)
    requires j < |entries| && g == Contribution(entries, j)
    requires ItemMaps(entries[j], IsLater(entries, j)) == [DefaultMap(entries[j], IsLater(entries, j))]
    ensures |g| == 1
    ensures var m, e, next := g[0], entries[j], PartAfter(entries, j);
            && m == DefaultMap(e, IsLater(entries, j)).(start := m.start, end := m.end)
            && m.start == (if e.item.season == "a" || IsLater(entries, j) || next < |entries| then 1 else 0)
            && m.end == if next < |entries| then Wrap(entries[next].offset - e.offset) else 0
  {
  }

  // ---------------------------------------------------------------- absolute order

  /** The mappings behind the last one that can be read and has no end, which opens the map. */
  function AfterOpen(mappings: seq<Mapping>): seq<Mapping> {
    if mappings == [] then []
    else
      var last := mappings[|mappings| - 1];
      if IsReadable(last) && EndOf(last) == 0 then [] else AfterOpen(mappings[..|mappings| - 1]) + [last]
  }

  /** Each mapping is for another season, with an end or without, or has an end at least. */
  predicate IsWidening(item: Item, mappings: seq<Mapping>, i: nat)
    requires i < |mappings|
  {
    && KeyOf(mappings[i]) != "1:-1"
    && (EndOf(mappings[i]) > 0
        || (KeyOf(mappings[i]) != "1:1"
            && forall k :: 0 <= k < i ==> KeyOf(mappings[k]) != KeyOf(mappings[i])))
  }

  lemma {:induction false} WidenTo(g: Group, m: EpisodeMap, end: Int)
    requires IsAbsolute(g, end) && end >= 0
    ensures IsAbsolute(Widen(g, m), if m.end == 0 then 0 else if end < m.end then m.end else end)
  {
  }

  lemma {:induction false} NewWidens(g: Group, item: Item, mapping: Mapping, end: Int)
    requires IsAbsolute(g, end) && end >= 0 && KeyOf(mapping) !in g.seen
    ensures IsAbsolute(WithMapping(g, item, mapping),
                       if !IsReadable(mapping) then end
                       else if EndOf(mapping) == 0 then 0
                       else if end < EndOf(mapping) then EndOf(mapping) else end)
  {
    FillReadsAll(Blank(item), mapping);
    if IsReadable(mapping) {
      FillIsMapOf(item, mapping);
      var two := MapOf(item, mapping);
      SeasonOneKeepsEnd(g, item, two, end);
      var g1 := if two.tvdbSeason == 2 && mapping.aniDBSeason == "1" then WithSeasonOne(g, item, two) else g;
      WidenTo(Group(g1.maps + [two], g1.seen[KeyOf(mapping) := |g1.maps|]), two, end);
    }
  }

  /** How far the map reaches with one more mapping. */
  lemma {:induction false} ReachSnoc(mappings: seq<Mapping>, mapping: Mapping)
    ensures Largest(Ends(AfterOpen(mappings + [mapping])))
         == var end := Largest(Ends(AfterOpen(mappings)));
            if !IsReadable(mapping) then end
            else if EndOf(mapping) == 0 then 0
            else if end < EndOf(mapping) then EndOf(mapping) else end
  {
    assert (mappings + [mapping])[..|mappings|] == mappings;
    var more := AfterOpen(mappings) + [mapping];
    assert more[..|more| - 1] == AfterOpen(mappings);
    if IsReadable(mapping) {
      LargestSnoc(Ends(AfterOpen(mappings)), EndOf(mapping));
    }
  }

  lemma {:induction false} KeyIsNew(e: Entry, isLater: bool, mappings: seq<Mapping>, key: string)
    requires e.item.season == "a" && key != "1:-1" && key != "1:1"
    requires forall k :: 0 <= k < |mappings| ==> KeyOf(mappings[k]) != key
    ensures key !in WithMappings(Started(e, isLater), e.item, mappings).seen
  {
    KeysAre(e, isLater, mappings);
  }

  lemma {:induction false} MappingsWiden(e: Entry, isLater: bool, mappings: seq<Mapping>)
    requires e.item.season == "a"
    requires forall i :: 0 <= i < |mappings| ==> IsWidening(e.item, mappings, i)
    ensures IsAbsolute(WithMappings(Started(e, isLater), e.item, mappings), Largest(Ends(AfterOpen(mappings))))
  {
    if mappings != [] {
      var rest, last := mappings[..|mappings| - 1], mappings[|mappings| - 1];
      assert mappings == rest + [last];
      assert forall i :: 0 <= i < |rest| ==> IsWidening(e.item, mappings, i) && rest[i] == mappings[i];
      MappingsWiden(e, isLater, rest);
      var g := WithMappings(Started(e, isLater), e.item, rest);
      assert IsWidening(e.item, mappings, |rest|);
      if EndOf(last) > 0 {
        MappingReaches(g, e.item, last, Largest(Ends(AfterOpen(rest))));
      } else {
        KeyIsNew(e, isLater, rest, KeyOf(last));
        NewWidens(g, e.item, last, Largest(Ends(AfterOpen(rest))));
      }
      ReachSnoc(rest, last);
    }
  }

  /** An item in absolute order reaches as far as the farthest of its mappings behind the last one
      without an end, and is open if there is none. */
  lemma {:induction false} AbsoluteReaches(e: Entry, isLater: bool)
    requires e.item.season == "a"
    requires forall i :: 0 <= i < |e.item.mappings| ==> IsWidening(e.item, e.item.mappings, i)
    ensures ItemMaps(e, isLater)[0].end == Largest(Ends(AfterOpen(e.item.mappings)))
  {
    MappingsWiden(e, isLater, e.item.mappings);
  }
}
