/**
 Lists in a database column, between commas: `,a,b,` for strings and `,1,2,` for integers.
 */
module CommaList {
  import opened Wrappers
  import opened Columns
  import opened Strings
  import opened Decimal

  // ---------------------------------------------------------------- strings

  function StringsValue(css: seq<string>): string {
    if css == [] then "" else "," + Join(css, ',') + ","
  }

  function ScanStrings(column: Column): Option<seq<string>> {
    match column
    case Null => Some([])
    case Unsupported => None
    case Text(str) => if str == "" then Some([]) else Some(Split(Trim(str, ','), ','))
  }

  /** The lists that a column can hold: commas would split an element, and an empty element at
      either end would be trimmed away with the outer commas, unless it is the only one. */
  predicate Storable(css: seq<string>) {
    css != [] ==>
      && (forall p :: p in css ==> ',' !in p)
      && (|css| == 1 || (css[0] != "" && css[|css| - 1] != ""))
  }

  /** A joined list begins and ends like its first and last element, or else with a separator. */
  lemma {:induction false} JoinEnds(parts: seq<string>, sep: char)
    requires |parts| >= 2
    ensures var joined, first, last := Join(parts, sep), parts[0], parts[|parts| - 1];
            && joined != ""
            && joined[0] == (if first == "" then sep else first[0])
            && joined[|joined| - 1] == (if last == "" then sep else last[|last| - 1])
  {
    if |parts| > 2 {
      JoinEnds(parts[1..], sep);
    } else {
      assert Join(parts[1..], sep) == parts[1];
    }
  }

  /** A list of strings survives the column if and only if it is storable. */
  lemma StringsRoundTripIff(css: seq<string>)
    ensures ScanStrings(Text(StringsValue(css))) == Some(css) <==> Storable(css)
  {
    if css != [] {
      var joined := Join(css, ',');
      if |css| > 1 {
        JoinEnds(css, ',');
      }
      if Storable(css) {
        assert joined != "" ==> joined[0] != ',' && joined[|joined| - 1] != ',' by {
          if |css| == 1 && joined != "" {
            assert joined[0] in css[0] && joined[|joined| - 1] in css[0];
          } else if |css| > 1 {
            assert css[0][0] in css[0] && css[|css| - 1] in css;
            assert css[|css| - 1][|css[|css| - 1]| - 1] in css[|css| - 1];
          }
        }
        TrimBetween(joined, ',');
        assert StringsValue(css) == [','] + joined + [','];
        SplitJoin(css, ',');
      }
      if ScanStrings(Text(StringsValue(css))) == Some(css) {
        var trimmed := Trim(StringsValue(css), ',');
        JoinSplit(trimmed, ',');
        assert trimmed == joined;
        TrimmedEnds(StringsValue(css), ',');
      }
    }
  }

  // ---------------------------------------------------------------- integers

  /** The loop that prints the elements one by one. */
  method IntsValue(csi: seq<Int>) returns (text: string)
    ensures text == StringsValue(Printed(csi))
  {
    var css := [];
    for i := 0 to |csi|
      invariant css == Printed(csi[..i])
    {
      css := css + [Itoa(csi[i])];
    }
    assert csi[..|csi|] == csi;
    text := StringsValue(css);
  }

  /** How many elements are numbers, from the front. */
  function Readable(css: seq<string>): (n: nat)
    ensures n <= |css|
    ensures forall i :: 0 <= i < n ==> Atoi(css[i]).Some?
    ensures n < |css| ==> Atoi(css[n]).None?
  {
    if css == [] || Atoi(css[0]).None? then 0 else 1 + Readable(css[1..])
  }

  /** The integers in front of the first element that is none, and zeros from there on. */
  function Filled(css: seq<string>): (csi: seq<Int>)
    ensures |csi| == |css|
  {
    var n := Readable(css);
    seq(|css|, i requires 0 <= i < |css| => if i < n then Atoi(css[i]).value else 0)
  }

  lemma AllReadable(css: seq<string>, csi: seq<Int>)
    requires |css| == |csi| && forall i :: 0 <= i < |css| ==> Atoi(css[i]) == Some(csi[i])
    ensures Readable(css) == |css| && Filled(css) == csi
  {
    FilledUpTo(css, csi, |css|);
  }

  /** A list that is filled up to the first element that is no number. */
  lemma FilledUpTo(css: seq<string>, csi: seq<Int>, n: nat)
    requires n <= |css| == |csi| && (n < |css| ==> Atoi(css[n]).None?)
    requires forall j :: 0 <= j < n ==> Atoi(css[j]) == Some(csi[j])
    requires forall j :: n <= j < |css| ==> csi[j] == 0
    ensures Readable(css) == n && Filled(css) == csi
  {
  }

  class CommaSeperatedInt {
    var list: seq<Int>

    /** An unreadable column leaves the list alone; an unreadable element stops the scan, and
        leaves the elements before it. */
    method Scan(column: Column) returns (ok: bool)
      modifies this
      ensures match ScanStrings(column)
              case None => !ok && list == old(list)
              case Some(css) => list == Filled(css) && (ok <==> Readable(css) == |css|)
      ensures column.Null? || column == Text("") ==> ok && list == []
      ensures column.Unsupported? ==> !ok && list == old(list)
    {
      var scanned := ScanStrings(column);
      if scanned.None? {
        return false;
      }
      var css := scanned.value;
      list := seq(|css|, _ => 0);
      for i := 0 to |css|
        invariant |list| == |css|
        invariant forall j :: 0 <= j < i ==> Atoi(css[j]) == Some(list[j])
        invariant forall j :: i <= j < |css| ==> list[j] == 0
      {
        var v := Atoi(css[i]);
        if v.None? {
          FilledUpTo(css, list, i);
          return false;
        }
        list := list[i := v.value];
      }
      FilledUpTo(css, list, |css|);
      ok := true;
    }
  }

  lemma PrintedIsStorable(csi: seq<Int>)
    ensures Storable(Printed(csi))
  {
    forall p | p in Printed(csi) ensures ',' !in p && p != "" {
      var i :| 0 <= i < |csi| && p == Itoa(csi[i]);
      ItoaChars(csi[i]);
    }
  }

  /** Every list of integers survives the column. */
  lemma IntsRoundTrip(csi: seq<Int>)
    ensures ScanStrings(Text(StringsValue(Printed(csi)))) == Some(Printed(csi))
    ensures Filled(Printed(csi)) == csi && Readable(Printed(csi)) == |csi|
  {
    PrintedIsStorable(csi);
    StringsRoundTripIff(Printed(csi));
    forall i | 0 <= i < |csi| ensures Atoi(Printed(csi)[i]) == Some(csi[i]) {
      AtoiItoa(csi[i]);
    }
    AllReadable(Printed(csi), csi);
  }
}
