/**
 The pieces of Go's `strings` package that the codecs use, on a single separator character.
 */
module Strings {

  /** The position of the first `c`, or the length. */
  function IndexOf(s: string, c: char): (i: nat)
    ensures i <= |s|
    ensures c !in s[..i]
    ensures i < |s| ==> s[i] == c
    ensures i == |s| <==> c !in s
  {
    if s == "" then 0 else if s[0] == c then 0 else 1 + IndexOf(s[1..], c)
  }

  function Join(parts: seq<string>, sep: char): string {
    if parts == [] then ""
    else if |parts| == 1 then parts[0]
    else parts[0] + [sep] + Join(parts[1..], sep)
  }

  function Split(s: string, sep: char): (parts: seq<string>)
    ensures parts != []
    ensures forall p :: p in parts ==> sep !in p
    decreases |s|
  {
    var i := IndexOf(s, sep);
    if i == |s| then [s] else [s[..i]] + Split(s[i + 1..], sep)
  }

  /** `strings.FieldsFunc`: the parts between separators, without the empty ones. */
  function Fields(s: string, sep: char): seq<string> {
    NonEmpty(Split(s, sep))
  }

  function NonEmpty(parts: seq<string>): seq<string> {
    if parts == [] then []
    else if parts[0] == "" then NonEmpty(parts[1..])
    else [parts[0]] + NonEmpty(parts[1..])
  }

  datatype Halves = Halves(before: string, after: string, found: bool)

  function Cut(s: string, sep: char): Halves {
    var i := IndexOf(s, sep);
    if i == |s| then Halves(s, "", false) else Halves(s[..i], s[i + 1..], true)
  }

  function TrimLeft(s: string, c: char): string {
    if s != "" && s[0] == c then TrimLeft(s[1..], c) else s
  }

  function TrimRight(s: string, c: char): string {
    if s != "" && s[|s| - 1] == c then TrimRight(s[..|s| - 1], c) else s
  }

  function Trim(s: string, c: char): string {
    TrimRight(TrimLeft(s, c), c)
  }

  // ---------------------------------------------------------------- laws

  lemma IndexOfFirst(a: string, c: char, b: string)
    requires c !in a
    ensures IndexOf(a + [c] + b, c) == |a|
  {
    var s := a + [c] + b;
    assert s[|a|] == c;
    assert s[..|a|] == a;
    assert forall i :: 0 <= i < |a| ==> s[i] == a[i];
    assert forall i :: 0 <= i < IndexOf(s, c) ==> s[i] in s[..IndexOf(s, c)];
  }

  lemma CutAt(a: string, c: char, b: string)
    requires c !in a
    ensures Cut(a + [c] + b, c) == Halves(a, b, true)
  {
    IndexOfFirst(a, c, b);
    assert (a + [c] + b)[..|a|] == a;
    assert (a + [c] + b)[|a| + 1..] == b;
  }

  lemma SplitAt(a: string, sep: char, b: string)
    requires sep !in a
    ensures Split(a + [sep] + b, sep) == [a] + Split(b, sep)
  {
    IndexOfFirst(a, sep, b);
    assert (a + [sep] + b)[..|a|] == a;
    assert (a + [sep] + b)[|a| + 1..] == b;
  }

  lemma {:induction false} SplitJoin(parts: seq<string>, sep: char)
    requires parts != [] && forall p :: p in parts ==> sep !in p
    ensures Split(Join(parts, sep), sep) == parts
  {
    if |parts| > 1 {
      SplitAt(parts[0], sep, Join(parts[1..], sep));
      SplitJoin(parts[1..], sep);
    }
  }

  lemma JoinCons(first: string, rest: seq<string>, sep: char)
    requires rest != []
    ensures Join([first] + rest, sep) == first + [sep] + Join(rest, sep)
  {
    assert ([first] + rest)[1..] == rest;
  }

  lemma AroundIndex(s: string, i: nat)
    requires i < |s|
    ensures s[..i] + [s[i]] + s[i + 1..] == s
  {
  }

  lemma {:induction false} JoinSplit(s: string, sep: char)
    ensures Join(Split(s, sep), sep) == s
    decreases |s|
  {
    var i := IndexOf(s, sep);
    if i < |s| {
      var rest := Split(s[i + 1..], sep);
      JoinSplit(s[i + 1..], sep);
      JoinCons(s[..i], rest, sep);
      AroundIndex(s, i);
    }
  }

  lemma TrimBetween(a: string, c: char)
    requires a != "" ==> a[0] != c && a[|a| - 1] != c
    ensures Trim([c] + a + [c], c) == a
  {
    var s := [c] + a + [c];
    assert s[1..] == a + [c];
    assert TrimLeft(s, c) == TrimLeft(a + [c], c);
    if a == "" {
      assert a + [c] == [c];
      assert [c][1..] == "";
      assert TrimLeft([c], c) == TrimLeft("", c) == "";
    } else {
      assert TrimLeft(a + [c], c) == a + [c];
      assert (a + [c])[..|a|] == a;
      assert TrimRight(a + [c], c) == TrimRight(a, c) == a;
    }
  }

  /** Nothing is left at either end of a trimmed string. */
  lemma {:induction false} TrimmedEnds(s: string, c: char)
    ensures var t := Trim(s, c); t != "" ==> t[0] != c && t[|t| - 1] != c
  {
    TrimLeftEnd(s, c);
    TrimRightEnd(TrimLeft(s, c), c);
  }

  lemma {:induction false} TrimLeftEnd(s: string, c: char)
    ensures var t := TrimLeft(s, c); t != "" ==> t[0] != c
  {
    if s != "" && s[0] == c {
      TrimLeftEnd(s[1..], c);
    }
  }

  lemma {:induction false} TrimRightEnd(s: string, c: char)
    ensures var t := TrimRight(s, c); t <= s && (t != "" ==> t[|t| - 1] != c)
  {
    if s != "" && s[|s| - 1] == c {
      TrimRightEnd(s[..|s| - 1], c);
    }
  }
}
