/**
 What scanning makes of any text in the two map columns, not only of one that was printed: the parts
 between semicolons that read as an entry count, and the others do not.
 */
module EpisodeScan {
  import opened Wrappers
  import opened Strings
  import opened Decimal
  import opened EpisodeCodec

  // ---------------------------------------------------------------- the parts of a text

  lemma {:induction false} NonEmptyOf(some: seq<string>, more: seq<string>)
    ensures NonEmpty(some + more) == NonEmpty(some) + NonEmpty(more)
  {
    if some == [] {
      assert some + more == more;
    } else {
      assert (some + more)[1..] == some[1..] + more;
      NonEmptyOf(some[1..], more);
    }
  }

  lemma {:induction false} SeparatorInFront(s: string, sep: char)
    ensures NonEmpty(Split([sep] + s, sep)) == NonEmpty(Split(s, sep))
  {
    SplitAt("", sep, s);
    assert "" + [sep] + s == [sep] + s;
    assert ([""] + Split(s, sep))[1..] == Split(s, sep);
  }

  lemma {:induction false} FirstPart(s: string, sep: char, i: nat, a: string, b: string)
    requires i == IndexOf(s, sep) < |s| && a == s[..i] && b == s[i + 1..]
    ensures Split(s, sep) == [a] + Split(b, sep)
  {
    AroundIndex(s, i);
    SplitAt(a, sep, b);
  }

  lemma {:induction false} SameFirst(s: string, sep: char)
    requires IndexOf(s, sep) < |s|
    ensures var t, i := s + [sep], IndexOf(s, sep);
            IndexOf(t, sep) == i && t[..i] == s[..i] && t[i + 1..] == s[i + 1..] + [sep]
  {
    var i := IndexOf(s, sep);
    AroundIndex(s, i);
    assert s + [sep] == s[..i] + [sep] + (s[i + 1..] + [sep]);
    IndexOfFirst(s[..i], sep, s[i + 1..] + [sep]);
  }

  lemma {:induction false} NoneBut(s: string, sep: char)
    requires sep !in s
    ensures Split(s + [sep], sep) == [s, ""]
  {
    SplitAt(s, sep, "");
    assert s + [sep] + "" == s + [sep];
  }

  lemma {:induction false} Associates(a: seq<string>, b: seq<string>, c: seq<string>)
    ensures a + (b + c) == a + b + c
  {
  }

  /** The next part and the rest of it, with one more separator. */
  lemma {:induction false} BehindFirst(s: string, t: string, sep: char, i: nat, rest: seq<string>)
    requires i == IndexOf(s, sep) < |s| && t == s + [sep]
    requires Split(s[i + 1..], sep) == rest && Split(s[i + 1..] + [sep], sep) == rest + [""]
    ensures Split(t, sep) == Split(s, sep) + [""]
  {
    SameFirst(s, sep);
    FirstPart(s, sep, i, s[..i], s[i + 1..]);
    FirstPart(t, sep, i, s[..i], s[i + 1..] + [sep]);
    Associates([s[..i]], rest, [""]);
  }

  lemma {:induction false} SplitBehind(s: string, sep: char)
    ensures Split(s + [sep], sep) == Split(s, sep) + [""]
    decreases |s|
  {
    var i := IndexOf(s, sep);
    if i == |s| {
      NoneBut(s, sep);
    } else {
      SplitBehind(s[i + 1..], sep);
      BehindFirst(s, s + [sep], sep, i, Split(s[i + 1..], sep));
    }
  }

  lemma {:induction false} SeparatorBehind(s: string, sep: char)
    ensures NonEmpty(Split(s + [sep], sep)) == NonEmpty(Split(s, sep))
  {
    SplitBehind(s, sep);
    NonEmptyOf(Split(s, sep), [""]);
    assert NonEmpty([""]) == NonEmpty([""][1..]);
  }

  lemma {:induction false} TrimLeftKeepsParts(s: string, sep: char)
    ensures Fields(TrimLeft(s, sep), sep) == Fields(s, sep)
  {
    if s != "" && s[0] == sep {
      assert s == [sep] + s[1..];
      SeparatorInFront(s[1..], sep);
      TrimLeftKeepsParts(s[1..], sep);
    }
  }

  lemma {:induction false} TrimRightKeepsParts(s: string, sep: char)
    ensures Fields(TrimRight(s, sep), sep) == Fields(s, sep)
  {
    if s != "" && s[|s| - 1] == sep {
      assert s == s[..|s| - 1] + [sep];
      SeparatorBehind(s[..|s| - 1], sep);
      TrimRightKeepsParts(s[..|s| - 1], sep);
    }
  }

  /** The parts are all that is between semicolons, empty ones aside. */
  lemma {:induction false} PartsAreBetween(text: string)
    ensures PartsOf(text) == NonEmpty(Split(text, ';'))
  {
    TrimLeftKeepsParts(text, ';');
    TrimRightKeepsParts(TrimLeft(text, ';'), ';');
  }

  lemma {:induction false} CutsApart(part: string)
    ensures Cut(part, '-').found ==>
              var h := Cut(part, '-'); part == h.before + "-" + h.after && '-' !in h.before
  {
    var i := IndexOf(part, '-');
    if i < |part| {
      AroundIndex(part, i);
    }
  }

  // ---------------------------------------------------------------- "before" maps

  /** The text before the first dash and the text behind it, if both are numbers. */
  function PairOf(part: string): Option<(Int, Int)> {
    var h := Cut(part, '-');
    if !h.found || Atoi(h.before).None? || Atoi(h.after).None? then None
    else Some((Atoi(h.before).value, Atoi(h.after).value))
  }

  lemma {:induction false} PairIff(part: string, k: Int, v: Int)
    ensures PairOf(part) == Some((k, v)) <==>
            exists a, b :: IsCut(part, a, b) && Atoi(a) == Some(k) && Atoi(b) == Some(v)
  {
    CutsApart(part);
    if PairOf(part) == Some((k, v)) {
      assert IsCut(part, Cut(part, '-').before, Cut(part, '-').after);
    }
    if a, b :| IsCut(part, a, b) && Atoi(a) == Some(k) && Atoi(b) == Some(v) {
      CutAt(a, '-', b);
    }
  }

  predicate IsCut(part: string, a: string, b: string) {
    part == a + "-" + b && '-' !in a
  }

  /** What the last pair for a key says. */
  function LastFor(parts: seq<string>, k: Int): Option<Int> {
    if parts == [] then None
    else
      match PairOf(parts[|parts| - 1])
      case None => LastFor(parts[..|parts| - 1], k)
      case Some((q, v)) => if q == k then Some(v) else LastFor(parts[..|parts| - 1], k)
  }

  /** Scanning gives a key the value of the last pair for it, and leaves the others. */
  lemma {:induction false} BeforesAre(m: Before, parts: seq<string>, k: Int)
    ensures match LastFor(parts, k)
            case Some(v) => k in WithBefores(m, parts) && WithBefores(m, parts)[k] == v
            case None => (k in WithBefores(m, parts) <==> k in m) && (k in m ==> WithBefores(m, parts)[k] == m[k])
    decreases |parts|
  {
    if parts != [] {
      BeforesAre(m, parts[..|parts| - 1], k);
    }
  }

  // ---------------------------------------------------------------- episode maps

  /** The numbers among some texts, in their order. */
  function NumbersAmong(texts: seq<string>): seq<Int> {
    if texts == [] then []
    else
      NumbersAmong(texts[..|texts| - 1])
      + match Atoi(texts[|texts| - 1]) { case None => [] case Some(n) => [n] }
  }

  /** What a part lists for a key: the numbers behind the first dash, between plus signs. */
  function ListedIn(part: string, k: Int): seq<Int> {
    var h := Cut(part, '-');
    if h.found && Atoi(h.before) == Some(k) then NumbersAmong(Split(h.after, '+')) else []
  }

  function ListedFor(parts: seq<string>, k: Int): seq<Int> {
    if parts == [] then [] else ListedFor(parts[..|parts| - 1], k) + ListedIn(parts[|parts| - 1], k)
  }

  /** The list of a key is longer by some numbers; without any, nothing has changed for it. */
  predicate IsLonger(m: Episodes, m': Episodes, k: Int, more: seq<Int>) {
    if more == [] then (k in m' <==> k in m) && (k in m ==> m'[k] == m[k])
    else k in m' && m'[k] == (if k in m then m[k] else []) + more
  }

  lemma {:induction false} LongerTwice(m: Episodes, m': Episodes, m'': Episodes, k: Int, some: seq<Int>, more: seq<Int>)
    requires IsLonger(m, m', k, some) && IsLonger(m', m'', k, more)
    ensures IsLonger(m, m'', k, some + more)
  {
    if some != [] && more != [] {
      assert (if k in m then m[k] else []) + some + more == (if k in m then m[k] else []) + (some + more);
    }
    assert some == [] ==> some + more == more;
    assert more == [] ==> some + more == some;
  }

  lemma {:induction false} NumbersAdd(m: Episodes, q: Int, texts: seq<string>, k: Int)
    ensures IsLonger(m, WithNumbers(m, q, texts), k, if q == k then NumbersAmong(texts) else [])
    decreases |texts|
  {
    if texts != [] {
      var rest, last := texts[..|texts| - 1], texts[|texts| - 1];
      NumbersAdd(m, q, rest, k);
      var more := if q == k && Atoi(last).Some? then [Atoi(last).value] else [];
      assert IsLonger(WithNumbers(m, q, rest), WithNumber(WithNumbers(m, q, rest), q, last), k, more);
      LongerTwice(m, WithNumbers(m, q, rest), WithNumbers(m, q, texts), k,
                  if q == k then NumbersAmong(rest) else [], more);
    }
  }

  lemma {:induction false} PartAdds(m: Episodes, part: string, k: Int)
    ensures IsLonger(m, WithEpisode(m, part), k, ListedIn(part, k))
  {
    var h := Cut(part, '-');
    if h.found && Atoi(h.before).Some? {
      NumbersAdd(m, Atoi(h.before).value, Split(h.after, '+'), k);
    }
  }

  /** Scanning adds to the list of a key, in their order, all numbers that the parts list for it. */
  lemma {:induction false} EpisodesAre(m: Episodes, parts: seq<string>, k: Int)
    ensures IsLonger(m, WithEpisodes(m, parts), k, ListedFor(parts, k))
    decreases |parts|
  {
    if parts != [] {
      var rest, last := parts[..|parts| - 1], parts[|parts| - 1];
      EpisodesAre(m, rest, k);
      PartAdds(WithEpisodes(m, rest), last, k);
      LongerTwice(m, WithEpisodes(m, rest), WithEpisodes(m, parts), k, ListedFor(rest, k), ListedIn(last, k));
    }
  }

  // ---------------------------------------------------------------- the printed text

  /** A printed column, unless it is empty, has its entries between semicolons, and one at either end. */
  lemma {:induction false} PrintedColumn(entries: seq<string>)
    ensures Rendered(entries) == if entries == [] then "" else ";" + Join(entries, ';') + ";"
  {
    if entries != [] {
      ClosedIsJoin(entries);
    }
  }
}
