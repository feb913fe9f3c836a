/**
 The two map columns of an episode map: `;1-2;3-4;` for "special before regular episode", and
 `;1-2+3;4-5;` for "AniDB episode to TVDB episodes". Go yields the entries of a map in any order.
 */
module EpisodeCodec {
  import opened MapOrders
  import opened Columns
  import opened Strings
  import opened Decimal

  // ---------------------------------------------------------------- entries between semicolons

  function Closed(entries: seq<string>): string {
    if entries == [] then "" else Closed(entries[..|entries| - 1]) + entries[|entries| - 1] + ";"
  }

  /** The printing loop writes an entry piece by piece. */
  lemma AppendPieces(closed: string, a: string, b: string)
    ensures ";" + closed + a + "-" + b + ";" == ";" + (closed + (a + "-" + b) + ";")
  {
  }

  /** What the printing loop leaves for a number of entries. */
  function Rendered(entries: seq<string>): string {
    if entries == [] then "" else ";" + Closed(entries)
  }

  function PartsOf(text: string): seq<string> {
    Fields(Trim(text, ';'), ';')
  }

  lemma ClosedSnoc(entries: seq<string>, last: string)
    ensures Closed(entries + [last]) == Closed(entries) + last + ";"
  {
    assert (entries + [last])[..|entries|] == entries;
  }

  lemma {:induction false} ClosedIsJoin(entries: seq<string>)
    requires entries != []
    ensures Closed(entries) == Join(entries, ';') + ";"
  {
    var n := |entries| - 1;
    assert entries == entries[..n] + [entries[n]];
    if n == 0 {
      assert Closed(entries[..0]) == "";
    } else {
      ClosedIsJoin(entries[..n]);
      JoinSnoc(entries[..n], entries[n]);
    }
  }

  lemma {:induction false} JoinSnoc(entries: seq<string>, last: string)
    requires entries != []
    ensures Join(entries + [last], ';') == Join(entries, ';') + ";" + last
  {
    var all := entries + [last];
    if |entries| == 1 {
      assert all[1..] == [last];
    } else {
      JoinSnoc(entries[1..], last);
      assert all[1..] == entries[1..] + [last];
    }
  }

  /** Entries that survive the splitting. */
  predicate Clean(entries: seq<string>) {
    forall i :: 0 <= i < |entries| ==> entries[i] != "" && ';' !in entries[i]
  }

  lemma {:induction false} NonEmptyKeepsAll(parts: seq<string>)
    requires Clean(parts)
    ensures NonEmpty(parts) == parts
  {
    if parts != [] {
      NonEmptyKeepsAll(parts[1..]);
    }
  }

  lemma {:induction false} JoinEndsInParts(parts: seq<string>)
    requires parts != [] && Clean(parts)
    ensures var joined := Join(parts, ';'); joined != "" && joined[0] != ';' && joined[|joined| - 1] != ';'
  {
    assert parts[0][0] in parts[0] && parts[0][|parts[0]| - 1] in parts[0];
    if |parts| > 1 {
      JoinEndsInParts(parts[1..]);
    }
  }

  /** Scanning finds exactly the entries that were printed. */
  lemma PartsOfRendered(entries: seq<string>)
    requires Clean(entries)
    ensures PartsOf(Rendered(entries)) == entries
  {
    if entries != [] {
      ClosedIsJoin(entries);
      JoinEndsInParts(entries);
      TrimBetween(Join(entries, ';'), ';');
      assert Rendered(entries) == [';'] + Join(entries, ';') + [';'];
      SplitJoin(entries, ';');
      NonEmptyKeepsAll(entries);
    } else {
      assert Split("", ';') == [""];
      assert NonEmpty([""]) == NonEmpty([""][1..]);
    }
  }

  /** A printed key that is not negative is cut off where its entry says; a negative one is cut
      behind its sign, and nothing is left of it. */
  lemma CutEntry(k: Int, text: string)
    ensures k >= 0 ==> Cut(Itoa(k) + "-" + text, '-') == Halves(Itoa(k), text, true)
    ensures k < 0 ==> Atoi(Cut(Itoa(k) + "-" + text, '-').before).None?
  {
    ItoaChars(k);
    if k >= 0 {
      CutAt(Itoa(k), '-', text);
    } else {
      assert (Itoa(k) + "-" + text)[0] == '-';
      assert IndexOf(Itoa(k) + "-" + text, '-') == 0;
    }
  }

  // ---------------------------------------------------------------- "before" maps

  type Before = map<Int, Int>

  function BeforeEntry(k: Int, v: Int): string {
    Itoa(k) + "-" + Itoa(v)
  }

  function BeforeEntries(m: Before, order: seq<Int>): (entries: seq<string>)
    requires forall k :: k in order ==> k in m
    ensures |entries| == |order|
  {
    seq(|order|, i requires 0 <= i < |order| => BeforeEntry(order[i], m[order[i]]))
  }

  /** One part of the text enters the map if both its halves are numbers. */
  function WithBefore(m: Before, part: string): Before {
    var halves := Cut(part, '-');
    if halves.found && Atoi(halves.before).Some? && Atoi(halves.after).Some?
    then m[Atoi(halves.before).value := Atoi(halves.after).value]
    else m
  }

  function WithBefores(m: Before, parts: seq<string>): Before {
    if parts == [] then m else WithBefore(WithBefores(m, parts[..|parts| - 1]), parts[|parts| - 1])
  }

  /** The entries that survive. */
  function NonNegative<V>(m: map<Int, V>): map<Int, V> {
    map k | k in m && k >= 0 :: m[k]
  }

  lemma BeforeEntryParses(m: Before, k: Int, v: Int)
    ensures WithBefore(m, BeforeEntry(k, v)) == if k >= 0 then m[k := v] else m
  {
    CutEntry(k, Itoa(v));
    AtoiItoa(k);
    AtoiItoa(v);
  }

  lemma BeforeEntriesSnoc(m: Before, order: seq<Int>, k: Int)
    requires k in m && forall k :: k in order ==> k in m
    ensures BeforeEntries(m, order + [k]) == BeforeEntries(m, order) + [BeforeEntry(k, m[k])]
  {
  }

  lemma WithBeforesSnoc(m: Before, parts: seq<string>, part: string)
    ensures WithBefores(m, parts + [part]) == WithBefore(WithBefores(m, parts), part)
  {
    assert (parts + [part])[..|parts|] == parts;
  }

  /** The entries of the first keys that survive. */
  function BeforesOf(m: Before, order: seq<Int>): Before {
    map k | k in order && k in m && k >= 0 :: m[k]
  }

  lemma BeforesOfSnoc(m: Before, order: seq<Int>, k: Int)
    requires k in m
    ensures BeforesOf(m, order + [k]) == if k >= 0 then BeforesOf(m, order)[k := m[k]] else BeforesOf(m, order)
  {
  }

  lemma {:induction false} BeforePrefix(m: Before, order: seq<Int>)
    requires forall k :: k in order ==> k in m
    ensures WithBefores(map[], BeforeEntries(m, order)) == BeforesOf(m, order)
    decreases |order|
  {
    if order != [] {
      var rest, k := order[..|order| - 1], order[|order| - 1];
      assert order == rest + [k];
      BeforePrefix(m, rest);
      BeforeEntriesSnoc(m, rest, k);
      WithBeforesSnoc(map[], BeforeEntries(m, rest), BeforeEntry(k, m[k]));
      BeforeEntryParses(BeforesOf(m, rest), k, m[k]);
      BeforesOfSnoc(m, rest, k);
    }
  }

  lemma BeforeEntriesAreClean(m: Before, order: seq<Int>)
    requires forall k :: k in order ==> k in m
    ensures Clean(BeforeEntries(m, order))
  {
    forall i | 0 <= i < |order|
      ensures var e := BeforeEntries(m, order)[i]; e != "" && ';' !in e
    {
      ItoaChars(order[i]);
      ItoaChars(m[order[i]]);
    }
  }

  /** For every order, printing and scanning keeps the entries with non-negative keys, and so the
      whole map if and only if it has no negative key. */
  lemma BeforeRoundTrip(m: Before, order: seq<Int>)
    requires IsOrder(m, order)
    ensures var back := WithBefores(map[], PartsOf(Rendered(BeforeEntries(m, order))));
            && back == NonNegative(m)
            && (back == m <==> forall k :: k in m ==> k >= 0)
  {
    BeforeEntriesAreClean(m, order);
    PartsOfRendered(BeforeEntries(m, order));
    BeforePrefix(m, order);
    assert BeforesOf(m, order) == NonNegative(m);
    NonNegativeIsAll(m);
  }

  lemma NonNegativeIsAll<V>(m: map<Int, V>)
    ensures NonNegative(m) == m <==> forall k :: k in m ==> k >= 0
  {
    assert forall k :: k in m && k < 0 ==> k !in NonNegative(m);
  }

  // ---------------------------------------------------------------- episode maps

  type Episodes = map<Int, seq<Int>>

  function EpisodesEntry(k: Int, vs: seq<Int>): string {
    Itoa(k) + "-" + Join(Printed(vs), '+')
  }

  function EpisodesEntries(m: Episodes, order: seq<Int>): (entries: seq<string>)
    requires forall k :: k in order ==> k in m
    ensures |entries| == |order|
  {
    seq(|order|, i requires 0 <= i < |order| => EpisodesEntry(order[i], m[order[i]]))
  }

  /** A number is added to the list of its key, which is created when the first one comes. */
  function WithNumber(m: Episodes, k: Int, text: string): Episodes {
    match Atoi(text)
    case None => m
    case Some(v) => m[k := (if k in m then m[k] else []) + [v]]
  }

  function WithNumbers(m: Episodes, k: Int, texts: seq<string>): Episodes {
    if texts == [] then m else WithNumber(WithNumbers(m, k, texts[..|texts| - 1]), k, texts[|texts| - 1])
  }

  function WithEpisode(m: Episodes, part: string): Episodes {
    var halves := Cut(part, '-');
    if halves.found && Atoi(halves.before).Some?
    then WithNumbers(m, Atoi(halves.before).value, Split(halves.after, '+'))
    else m
  }

  function WithEpisodes(m: Episodes, parts: seq<string>): Episodes {
    if parts == [] then m else WithEpisode(WithEpisodes(m, parts[..|parts| - 1]), parts[|parts| - 1])
  }

  lemma WithNumbersSnoc(m: Episodes, k: Int, texts: seq<string>, text: string)
    ensures WithNumbers(m, k, texts + [text]) == WithNumber(WithNumbers(m, k, texts), k, text)
  {
    assert (texts + [text])[..|texts|] == texts;
  }

  lemma PrintedSnoc(vs: seq<Int>, v: Int)
    ensures Printed(vs + [v]) == Printed(vs) + [Itoa(v)]
  {
  }

  /** The numbers that have been read so far. */
  function Listed(m: Episodes, k: Int, vs: seq<Int>): Episodes {
    if vs == [] then m else m[k := vs]
  }

  lemma ListedSnoc(m: Episodes, k: Int, vs: seq<Int>, v: Int)
    requires k !in m
    ensures WithNumber(Listed(m, k, vs), k, Itoa(v)) == Listed(m, k, vs + [v])
  {
    AtoiItoa(v);
  }

  lemma {:induction false} NumbersAccumulate(m: Episodes, k: Int, vs: seq<Int>)
    requires k !in m
    ensures WithNumbers(m, k, Printed(vs)) == Listed(m, k, vs)
    decreases |vs|
  {
    if vs != [] {
      var rest, v := vs[..|vs| - 1], vs[|vs| - 1];
      assert vs == rest + [v];
      NumbersAccumulate(m, k, rest);
      PrintedSnoc(rest, v);
      WithNumbersSnoc(m, k, Printed(rest), Itoa(v));
      ListedSnoc(m, k, rest, v);
    }
  }

  lemma SplitPrinted(vs: seq<Int>)
    ensures Split(Join(Printed(vs), '+'), '+') == if vs == [] then [""] else Printed(vs)
  {
    if vs != [] {
      forall p | p in Printed(vs) ensures '+' !in p {
        var i :| 0 <= i < |vs| && p == Itoa(vs[i]);
        ItoaChars(vs[i]);
      }
      SplitJoin(Printed(vs), '+');
    }
  }

  lemma EpisodesEntryParses(m: Episodes, k: Int, vs: seq<Int>)
    requires k !in m
    ensures WithEpisode(m, EpisodesEntry(k, vs)) == if k >= 0 && vs != [] then m[k := vs] else m
  {
    CutEntry(k, Join(Printed(vs), '+'));
    AtoiItoa(k);
    SplitPrinted(vs);
    NumbersAccumulate(m, k, vs);
    if vs == [] {
      assert WithNumbers(m, k, [""]) == WithNumber(WithNumbers(m, k, []), k, "");
    }
  }

  /** The entries that survive. */
  function Kept(m: Episodes): Episodes {
    map k | k in m && k >= 0 && m[k] != [] :: m[k]
  }

  lemma EpisodesEntriesSnoc(m: Episodes, order: seq<Int>, k: Int)
    requires k in m && forall k :: k in order ==> k in m
    ensures EpisodesEntries(m, order + [k]) == EpisodesEntries(m, order) + [EpisodesEntry(k, m[k])]
  {
  }

  lemma WithEpisodesSnoc(m: Episodes, parts: seq<string>, part: string)
    ensures WithEpisodes(m, parts + [part]) == WithEpisode(WithEpisodes(m, parts), part)
  {
    assert (parts + [part])[..|parts|] == parts;
  }

  /** The entries of the first keys that survive. */
  function EpisodesOf(m: Episodes, order: seq<Int>): Episodes {
    map k | k in order && k in m && k >= 0 && m[k] != [] :: m[k]
  }

  lemma EpisodesOfSnoc(m: Episodes, order: seq<Int>, k: Int)
    requires k in m
    ensures EpisodesOf(m, order + [k])
         == if k >= 0 && m[k] != [] then EpisodesOf(m, order)[k := m[k]] else EpisodesOf(m, order)
  {
  }

  lemma {:induction false} EpisodesPrefix(m: Episodes, order: seq<Int>)
    requires forall k :: k in order ==> k in m
    requires forall i, j :: 0 <= i < j < |order| ==> order[i] != order[j]
    ensures WithEpisodes(map[], EpisodesEntries(m, order)) == EpisodesOf(m, order)
    decreases |order|
  {
    if order != [] {
      var rest, k := order[..|order| - 1], order[|order| - 1];
      assert order == rest + [k];
      EpisodesPrefix(m, rest);
      EpisodesEntriesSnoc(m, rest, k);
      WithEpisodesSnoc(map[], EpisodesEntries(m, rest), EpisodesEntry(k, m[k]));
      EpisodesEntryParses(EpisodesOf(m, rest), k, m[k]);
      EpisodesOfSnoc(m, rest, k);
    }
  }

  lemma EpisodesEntriesAreClean(m: Episodes, order: seq<Int>)
    requires forall k :: k in order ==> k in m
    ensures Clean(EpisodesEntries(m, order))
  {
    forall i | 0 <= i < |order|
      ensures var e := EpisodesEntries(m, order)[i]; e != "" && ';' !in e
    {
      ItoaChars(order[i]);
      JoinedNumbersAreClean(m[order[i]]);
    }
  }

  lemma {:induction false} JoinedNumbersAreClean(vs: seq<Int>)
    ensures ';' !in Join(Printed(vs), '+')
  {
    if vs != [] {
      ItoaChars(vs[0]);
      JoinedNumbersAreClean(vs[1..]);
      assert Printed(vs)[1..] == Printed(vs[1..]);
    }
  }

  /** For every order, printing and scanning keeps the non-empty lists of non-negative keys, and
      so the whole map if and only if there are no others. */
  lemma EpisodesRoundTrip(m: Episodes, order: seq<Int>)
    requires IsOrder(m, order)
    ensures var back := WithEpisodes(map[], PartsOf(Rendered(EpisodesEntries(m, order))));
            && back == Kept(m)
            && (back == m <==> forall k :: k in m ==> k >= 0 && m[k] != [])
  {
    EpisodesEntriesAreClean(m, order);
    PartsOfRendered(EpisodesEntries(m, order));
    EpisodesPrefix(m, order);
    assert EpisodesOf(m, order) == Kept(m);
    KeptIsAll(m);
  }

  lemma KeptIsAll(m: Episodes)
    ensures Kept(m) == m <==> forall k :: k in m ==> k >= 0 && m[k] != []
  {
    assert forall k :: k in m && (k < 0 || m[k] == []) ==> k !in Kept(m);
  }

  // ---------------------------------------------------------------- the methods

  class AniDBTVDBEpisodeMapBefore {
    var entries: Before

    /** Go yields the entries in some order. */
    method Value() returns (text: string)
      ensures exists order :: IsOrder(entries, order) && text == Rendered(BeforeEntries(entries, order))
    {
      ghost var order := [];
      text := "";
      var pending := entries.Keys;
      if pending != {} {
        text := ";";
      }
      while pending != {}
        invariant IsBegun(entries, order, pending)
        invariant text == (if entries == map[] then "" else ";" + Closed(BeforeEntries(entries, order)))
        decreases |pending|
      {
        var k :| k in pending;
        NextKey(entries, order, pending, k);
        pending := pending - {k};
        BeforeEntriesSnoc(entries, order, k);
        ClosedSnoc(BeforeEntries(entries, order), BeforeEntry(k, entries[k]));
        AppendPieces(Closed(BeforeEntries(entries, order)), Itoa(k), Itoa(entries[k]));
        order := order + [k];
        text := text + Itoa(k) + "-" + Itoa(entries[k]) + ";";
      }
      assert IsOrder(entries, order) && text == Rendered(BeforeEntries(entries, order));
    }

    method ScanPart(part: string)
      modifies this
      ensures entries == WithBefore(old(entries), part)
    {
      var halves := Cut(part, '-');
      if halves.found {
        var special := Atoi(halves.before);
        if special.None? {
          return;
        }
        var regular := Atoi(halves.after);
        if regular.None? {
          return;
        }
        entries := entries[special.value := regular.value];
      }
    }

    method ScanParts(parts: seq<string>)
      modifies this
      ensures entries == WithBefores(old(entries), parts)
    {
      ghost var start := entries;
      for i := 0 to |parts|
        invariant entries == WithBefores(start, parts[..i])
      {
        WithBeforesSnoc(start, parts[..i], parts[i]);
        assert parts[..i + 1] == parts[..i] + [parts[i]];
        ScanPart(parts[i]);
      }
      assert parts[..|parts|] == parts;
    }

    method Scan(column: Column) returns (ok: bool)
      modifies this
      ensures ok <==> column.Text?
      ensures entries == if ok then WithBefores(old(entries), PartsOf(column.text)) else old(entries)
    {
      if !column.Text? {
        return false;
      }
      ScanParts(PartsOf(column.text));
      ok := true;
    }
  }

  class AniDBTVDBEpisodeMapMap {
    var entries: Episodes

    method Value() returns (text: string)
      ensures exists order :: IsOrder(entries, order) && text == Rendered(EpisodesEntries(entries, order))
    {
      ghost var order := [];
      text := "";
      var pending := entries.Keys;
      if pending != {} {
        text := ";";
      }
      while pending != {}
        invariant IsBegun(entries, order, pending)
        invariant text == (if entries == map[] then "" else ";" + Closed(EpisodesEntries(entries, order)))
        decreases |pending|
      {
        var k :| k in pending;
        NextKey(entries, order, pending, k);
        pending := pending - {k};
        EpisodesEntriesSnoc(entries, order, k);
        ClosedSnoc(EpisodesEntries(entries, order), EpisodesEntry(k, entries[k]));
        AppendPieces(Closed(EpisodesEntries(entries, order)), Itoa(k), Join(Printed(entries[k]), '+'));
        order := order + [k];
        text := text + Itoa(k) + "-" + Join(Printed(entries[k]), '+') + ";";
      }
      assert IsOrder(entries, order) && text == Rendered(EpisodesEntries(entries, order));
    }

    method ScanNumbers(anidb: Int, texts: seq<string>)
      modifies this
      ensures entries == WithNumbers(old(entries), anidb, texts)
    {
      for j := 0 to |texts|
        invariant entries == WithNumbers(old(entries), anidb, texts[..j])
      {
        assert texts[..j + 1] == texts[..j] + [texts[j]];
        WithNumbersSnoc(old(entries), anidb, texts[..j], texts[j]);
        var tvdb := Atoi(texts[j]);
        if tvdb.None? {
          continue;
        }
        if anidb !in entries {
          entries := entries[anidb := []];
        }
        entries := entries[anidb := entries[anidb] + [tvdb.value]];
      }
      assert texts[..|texts|] == texts;
    }

    method ScanPart(part: string)
      modifies this
      ensures entries == WithEpisode(old(entries), part)
    {
      var halves := Cut(part, '-');
      if halves.found {
        var anidb := Atoi(halves.before);
        if anidb.Some? {
          ScanNumbers(anidb.value, Split(halves.after, '+'));
        }
      }
    }

    method ScanParts(parts: seq<string>)
      modifies this
      ensures entries == WithEpisodes(old(entries), parts)
    {
      ghost var start := entries;
      for i := 0 to |parts|
        invariant entries == WithEpisodes(start, parts[..i])
      {
        WithEpisodesSnoc(start, parts[..i], parts[i]);
        assert parts[..i + 1] == parts[..i] + [parts[i]];
        ScanPart(parts[i]);
      }
      assert parts[..|parts|] == parts;
    }

    method Scan(column: Column) returns (ok: bool)
      modifies this
      ensures ok <==> column.Text?
      ensures entries == if ok then WithEpisodes(old(entries), PartsOf(column.text)) else old(entries)
    {
      if !column.Text? {
        return false;
      }
      ScanParts(PartsOf(column.text));
      ok := true;
    }
  }
}
