/**
 What a stream of tokens means without any dictionary of texts: every code is a stretch of the
 output, and a reference copies its stretch character by character. A code that is just being
 defined needs no case of its own then, because its stretch reaches into what the copying writes.
 The decoder is proved to produce that text.
 */
module LZCopies {
  import opened LZFormat
  import opened LZString
  import opened Powers

  datatype Stretch = Stretch(pos: nat, len: nat) {
    /** With the character behind it. */
    function Longer(): Stretch { Stretch(pos, len + 1) }
  }

  function CopyOn(out: Text, s: Stretch): (r: Text)
    requires s.pos < |out|
    ensures |r| == |out| + s.len && out <= r
    decreases s.len
  {
    if s.len == 0 then out else CopyOn(out + [out[s.pos]], Stretch(s.pos + 1, s.len - 1))
  }

  predicate IsBegun(out: Text, s: Stretch) {
    s.pos < |out| && s.len > 0
  }

  predicate AreBegun(out: Text, last: Stretch, defined: seq<Stretch>) {
    IsBegun(out, last) && forall k :: 0 <= k < |defined| ==> IsBegun(out, defined[k])
  }

  /** Each token defines the stretch of the token before it and one character more; a literal defines
      that one character first. */
  function CopyRest(tokens: seq<Token>, out: Text, last: Stretch, defined: seq<Stretch>, units: Unit -> Unit): Text
    requires WellFormedRest(tokens, 3 + |defined|) && AreBegun(out, last, defined)
    decreases |tokens|
  {
    match tokens[0]
    case End => out
    case Literal8(u) => CopyLiteral(tokens, u, out, last, defined, units)
    case Literal16(u) => CopyLiteral(tokens, u, out, last, defined, units)
    case Reference(c) =>
      var all := defined + [last.Longer()];
      CopyRest(tokens[1..], CopyOn(out, all[c - 3]), Stretch(|out|, all[c - 3].len), all, units)
  }

  function CopyLiteral(
    tokens: seq<Token>, u: Unit, out: Text, last: Stretch, defined: seq<Stretch>, units: Unit -> Unit): Text
    requires WellFormedRest(tokens, 3 + |defined|) && AreBegun(out, last, defined)
    requires tokens[0] == Literal8(u) || tokens[0] == Literal16(u)
    decreases |tokens|, 0
  {
    var now := Stretch(|out|, 1);
    CopyRest(tokens[1..], out + [units(u)], now, defined + [now, last.Longer()], units)
  }

  /** An opening reference stands for one replacement character. */
  function CopyAll(tokens: seq<Token>, units: Unit -> Unit): Text
    requires WellFormed(tokens)
  {
    var now := Stretch(0, 1);
    match tokens[0]
    case End => []
    case Literal8(u) => CopyRest(tokens[1..], [units(u)], now, [now], units)
    case Literal16(u) => CopyRest(tokens[1..], [units(u)], now, [now], units)
    case Reference(_) => CopyRest(tokens[1..], [0xFFFD], now, [], units)
  }

  // ---------------------------------------------------------------- stretches and entries

  predicate IsAt(s: Text, out: Text, at: Stretch) {
    at.len > 0 && at.pos + at.len <= |out| && out[at.pos..at.pos + at.len] == s
  }

  /** The entries of the dictionary are the texts of the stretches, and the last text ends the output. */
  predicate Mirrors(dict: seq<Text>, last: Text, out: Text, lastAt: Stretch, defined: seq<Stretch>) {
    && |dict| == 3 + |defined|
    && IsAt(last, out, lastAt) && lastAt.pos + lastAt.len == |out|
    && forall k :: 0 <= k < |defined| ==> IsAt(dict[3 + k], out, defined[k])
  }

  lemma StaysAt(s: Text, out: Text, more: Text, at: Stretch)
    requires IsAt(s, out, at)
    ensures IsAt(s, out + more, at)
  {
    assert (out + more)[at.pos..at.pos + at.len] == out[at.pos..at.pos + at.len];
  }

  lemma NextCharacter(s: Text, out: Text, at: Stretch)
    requires at.len > 0 && at.pos + at.len <= |out| && out[at.pos..at.pos + at.len] == s
    ensures out[at.pos] == s[0]
    ensures at.len > 1 ==> (out + [s[0]])[at.pos + 1..at.pos + at.len] == s[1..]
  {
    assert out[at.pos..at.pos + at.len][0] == out[at.pos];
    if at.len > 1 {
      assert (out + [s[0]])[at.pos + 1..at.pos + at.len] == out[at.pos + 1..at.pos + at.len];
      assert out[at.pos + 1..at.pos + at.len] == out[at.pos..at.pos + at.len][1..];
    }
  }

  /** A stretch that has been written is copied as it is. */
  lemma {:induction false} CopiesText(s: Text, out: Text, at: Stretch)
    requires IsAt(s, out, at)
    ensures CopyOn(out, at) == out + s
    decreases at.len
  {
    NextCharacter(s, out, at);
    var rest := Stretch(at.pos + 1, at.len - 1);
    if at.len > 1 {
      CopiesText(s[1..], out + [s[0]], rest);
      assert out + s == (out + [s[0]]) + s[1..];
    } else {
      assert CopyOn(out + [s[0]], rest) == out + [s[0]];
      assert s == [s[0]];
    }
  }

  /** One that reaches one character beyond the output ends with the character it began with. */
  lemma {:induction false} CopiesBeyond(s: Text, out: Text, at: Stretch)
    requires IsAt(s, out, at) && at.pos + at.len == |out|
    ensures CopyOn(out, at.Longer()) == out + (s + [s[0]])
  {
    NextCharacter(s, out, at);
    var longer := out + [s[0]];
    var tail := s[1..] + [s[0]];
    assert longer[at.pos + 1..|longer|] == tail by {
      assert longer[at.pos + 1..|longer|] == out[at.pos + 1..] + [s[0]];
      assert out[at.pos + 1..] == out[at.pos..at.pos + at.len][1..];
    }
    CopiesText(tail, longer, Stretch(at.pos + 1, at.len));
    assert out + (s + [s[0]]) == longer + tail;
  }

  /** The text and one character more: what the next token begins with. */
  lemma LongerIsAt(last: Text, out: Text, lastAt: Stretch, str: Text)
    requires IsAt(last, out, lastAt) && lastAt.pos + lastAt.len == |out| && str != []
    ensures IsAt(last + [str[0]], out + str, lastAt.Longer())
  {
    assert (out + str)[lastAt.pos..|out| + 1] == out[lastAt.pos..] + [str[0]];
  }

  lemma NewIsAt(out: Text, str: Text)
    requires str != []
    ensures IsAt(str, out + str, Stretch(|out|, |str|))
  {
    assert (out + str)[|out|..|out| + |str|] == str;
  }

  /** The stretches that a token defines. */
  function Defined(t: Token, out: Text, last: Stretch, defined: seq<Stretch>): seq<Stretch> {
    if t.IsLiteral() then defined + [Stretch(|out|, 1), last.Longer()] else defined + [last.Longer()]
  }

  lemma MirrorsOn(
    dict: seq<Text>, last: Text, out: Text, lastAt: Stretch, defined: seq<Stretch>, t: Token, str: Text)
    requires Mirrors(dict, last, out, lastAt, defined) && str != [] && (t.IsLiteral() ==> |str| == 1)
    ensures Mirrors(Grow(dict, last, t, str), str, out + str, Stretch(|out|, |str|), Defined(t, out, lastAt, defined))
  {
    var dict', defined' := Grow(dict, last, t, str), Defined(t, out, lastAt, defined);
    NewIsAt(out, str);
    LongerIsAt(last, out, lastAt, str);
    forall k | 0 <= k < |defined'| ensures IsAt(dict'[3 + k], out + str, defined'[k]) {
      if k < |defined| {
        StaysAt(dict[3 + k], out, str, defined[k]);
      }
    }
  }

  /** The text of a reference is what its stretch copies. */
  lemma ReferenceCopies(
    dict: seq<Text>, last: Text, out: Text, lastAt: Stretch, defined: seq<Stretch>, c: nat, units: Unit -> Unit)
    requires Mirrors(dict, last, out, lastAt, defined) && 3 <= c <= |dict|
    ensures var str, at := Resolve(dict, last, Reference(c), units), (defined + [lastAt.Longer()])[c - 3];
            str != [] && |str| == at.len && CopyOn(out, at) == out + str
  {
    if c < |dict| {
      assert IsAt(dict[3 + (c - 3)], out, defined[c - 3]);
      CopiesText(dict[c], out, defined[c - 3]);
    } else {
      CopiesBeyond(last, out, lastAt);
    }
  }

  lemma {:induction false} RestCopies(
    tokens: seq<Token>, dict: seq<Text>, last: Text, out: Text, lastAt: Stretch, defined: seq<Stretch>,
    units: Unit -> Unit)
    requires WellFormedRest(tokens, |dict|) && Mirrors(dict, last, out, lastAt, defined)
    ensures CopyRest(tokens, out, lastAt, defined, units) == out + RestMeaning(tokens, dict, last, units)
    decreases |tokens|
  {
    var t := tokens[0];
    if t.End? {
      assert out + [] == out;
    } else {
      var str := Resolve(dict, last, t, units);
      if t.Reference? {
        ReferenceCopies(dict, last, out, lastAt, defined, t.code, units);
      }
      MirrorsOn(dict, last, out, lastAt, defined, t, str);
      RestCopies(tokens[1..], Grow(dict, last, t, str), str, out + str, Stretch(|out|, |str|),
                 Defined(t, out, lastAt, defined), units);
      ConcatAssociates(out, str, RestMeaning(tokens[1..], Grow(dict, last, t, str), str, units));
    }
  }

  /** Copying stretches gives the text that the dictionary gives, for every stream. */
  lemma CopyingIsMeaning(tokens: seq<Token>, units: Unit -> Unit)
    requires WellFormed(tokens)
    ensures CopyAll(tokens, units) == MeaningWith(tokens, units)
  {
    var t := tokens[0];
    if !t.End? {
      var str := Resolve(BASE_DICTIONARY, [], t, units);
      NewIsAt([], str);
      assert [] + str == str;
      RestCopies(tokens[1..], FirstDictionary(t, str), str, str, Stretch(0, 1),
                 if t.IsLiteral() then [Stretch(0, 1)] else [], units);
    }
  }

  // ---------------------------------------------------------------- what the decoder returns

  /** The inputs that decode, and the text, which copying stretches of itself has made. */
  lemma DecodesByCopying(input: seq<Byte>, text: Text)
    requires input != []
    ensures Decode(input) == Decoded(text) <==>
            exists tokens :: WellFormed(tokens) && StreamBits(tokens) < Unpack(input) && text == CopyAll(tokens, Rune)
  {
    DecodesExactlyStreams(input, text);
    forall tokens | WellFormed(tokens) ensures Clean(Meaning(tokens)) == CopyAll(tokens, Rune) {
      CleanMeaning(tokens);
      CopyingIsMeaning(tokens, Rune);
    }
  }

  /** The text that is returned beside the error. */
  lemma RefusesByCopying(input: seq<Byte>, partial: Text)
    ensures Decode(input) == BadCode(partial) <==>
            exists tokens, code :: IsStreamBreak(tokens, code) && StreamBreakBits(tokens, code) < Unpack(input)
                                   && WellFormed(tokens + [End]) && partial == CopyAll(tokens + [End], Rune)
  {
    RefusesExactlyUnknownCodes(input, partial);
    forall tokens | WellFormed(tokens) ensures Clean(Meaning(tokens)) == CopyAll(tokens, Rune) {
      CleanMeaning(tokens);
      CopyingIsMeaning(tokens, Rune);
    }
  }

  /** What becomes of the text that an encoder was given: each surrogate is replaced, in its place. */
  lemma EncodedTextComesBack(tokens: seq<Token>, padding: seq<bool>) returns (text: Text)
    requires FromEncoder(tokens) && padding != []
    requires (|StreamBits(tokens)| + |padding|) % 6 == 0
    ensures Decode(Pack(StreamBits(tokens) + padding)) == Decoded(text)
    ensures var was := CopyAll(tokens, Raw);
            && |text| == |was|
            && forall i :: 0 <= i < |was| ==> text[i] == if 0xD800 <= was[i] <= 0xDFFF then 0xFFFD else was[i]
  {
    DecodeUndoesPacking(tokens, padding);
    CopyingIsMeaning(tokens, Raw);
    text := Clean(Meaning(tokens));
  }

  // ---------------------------------------------------------------- two examples

  /** Some characters that carry the bits of a stream and three more decode to what it copies. */
  lemma ExampleDecodes(input: seq<Byte>, tokens: seq<Token>, text: Text)
    requires FromEncoder(tokens) && CopyAll(tokens, Rune) == text
    requires (|StreamBits(tokens)| + 3) % 6 == 0 && Pack(StreamBits(tokens) + [false, false, false]) == input
    ensures Decode(input) == Decoded(text)
  {
    DecodeUndoesPacking(tokens, [false, false, false]);
    CleanMeaning(tokens);
    CopyingIsMeaning(tokens, Rune);
  }

  lemma FieldOfA()
    ensures Field(97, 8) == [true, false, false, false, false, true, true, false]
  {
    assert Field(0, 1) == [false];
    assert Field(1, 2) == [true, false];
    assert Field(3, 3) == [true, true, false];
    assert Field(6, 4) == [false, true, true, false];
    assert Field(12, 5) == [false, false, true, true, false];
    assert Field(24, 6) == [false, false, false, true, true, false];
    assert Field(48, 7) == [false, false, false, false, true, true, false];
    assert Field(97, 8) == [true, false, false, false, false, true, true, false];
  }

  lemma FieldOfB()
    ensures Field(98, 8) == [false, true, false, false, false, true, true, false]
  {
    assert Field(0, 1) == [false];
    assert Field(1, 2) == [true, false];
    assert Field(3, 3) == [true, true, false];
    assert Field(6, 4) == [false, true, true, false];
    assert Field(12, 5) == [false, false, true, true, false];
    assert Field(24, 6) == [false, false, false, true, true, false];
    assert Field(49, 7) == [true, false, false, false, true, true, false];
    assert Field(98, 8) == [false, true, false, false, false, true, true, false];
  }

  lemma FieldsOfCodes()
    ensures Field(0, 2) == [false, false] && Field(0, 3) == [false, false, false]
    ensures Field(2, 3) == [false, true, false] && Field(5, 3) == [true, false, true]
  {
  }

  /** The stream of "abab": two literals, and a reference to the entry that they have made. */
  lemma StreamOfAbab(tokens: seq<Token>)
    requires tokens == [Literal8(97), Literal8(98), Reference(5), End]
    ensures FromEncoder(tokens) && CopyAll(tokens, Rune) == [97, 98, 97, 98]
    ensures StreamBits(tokens)
         == Field(0, 2) + Field(97, 8) + (Field(0, 3) + Field(98, 8) + (Field(5, 3) + Field(2, 3)))
  {
    var rest := [Literal8(98), Reference(5), End];
    assert tokens[1..] == rest && rest[1..] == [Reference(5), End] && [Reference(5), End][1..] == [End];
  }

  lemma SixesOfAbab(a: seq<bool>, b: seq<bool>, bits: seq<bool>)
    requires a == [true, false, false, false, false, true, true, false]
    requires b == [false, true, false, false, false, true, true, false]
    requires bits == [false, false] + a + ([false, false, false] + b + ([true, false, true] + [false, true, false]))
    ensures |bits| == 27
    ensures (bits + [false, false, false])[..6] == [false, false, true, false, false, false]
    ensures (bits + [false, false, false])[6..12] == [false, true, true, false, false, false]
    ensures (bits + [false, false, false])[12..18] == [false, false, true, false, false, false]
    ensures (bits + [false, false, false])[18..24] == [true, true, false, true, false, true]
    ensures (bits + [false, false, false])[24..30] == [false, true, false, false, false, false]
  {
  }

  lemma BitsOfAbab(bits: seq<bool>)
    requires bits == Field(0, 2) + Field(97, 8) + (Field(0, 3) + Field(98, 8) + (Field(5, 3) + Field(2, 3)))
    ensures |bits| == 27
    ensures (bits + [false, false, false])[..6] == [false, false, true, false, false, false]
    ensures (bits + [false, false, false])[6..12] == [false, true, true, false, false, false]
    ensures (bits + [false, false, false])[12..18] == [false, false, true, false, false, false]
    ensures (bits + [false, false, false])[18..24] == [true, true, false, true, false, true]
    ensures (bits + [false, false, false])[24..30] == [false, true, false, false, false, false]
  {
    FieldOfA();
    FieldOfB();
    FieldsOfCodes();
    SixesOfAbab(Field(97, 8), Field(98, 8), bits);
  }

  lemma PackedAbab(bits: seq<bool>)
    requires |bits| == 30
    requires bits[..6] == [false, false, true, false, false, false]
    requires bits[6..12] == [false, true, true, false, false, false]
    requires bits[12..18] == [false, false, true, false, false, false]
    requires bits[18..24] == [true, true, false, true, false, true]
    requires bits[24..30] == [false, true, false, false, false, false]
    ensures Pack(bits) == [73, 89, 73, 49, 81]
  {
    var input := Pack(bits);
    assert input[0] == Alphabet(SixBits(bits[..6])) == 73;
    assert input[1] == Alphabet(SixBits(bits[6..12])) == 89;
    assert input[2] == Alphabet(SixBits(bits[12..18])) == 73;
    assert input[3] == Alphabet(SixBits(bits[18..24])) == 49;
    assert input[4] == Alphabet(SixBits(bits[24..30])) == 81;
  }

  /** The input "IYI1Q" reads "abab". */
  lemma AbabDecodes(input: seq<Byte>)
    requires input == [73, 89, 73, 49, 81]
    ensures Decode(input) == Decoded([97, 98, 97, 98])
  {
    var tokens := [Literal8(97), Literal8(98), Reference(5), End];
    var bits := StreamBits(tokens) + [false, false, false];
    StreamOfAbab(tokens);
    BitsOfAbab(StreamBits(tokens));
    PackedAbab(bits);
    ExampleDecodes(input, tokens, [97, 98, 97, 98]);
  }

  /** The field of a number is that of its low part and then that of its high part. */
  lemma {:induction false} FieldSplits(low: nat, high: nat, n: nat, m: nat)
    requires low < Pow2(n)
    ensures Field(low + Pow2(n) * high, n + m) == Field(low, n) + Field(high, m)
  {
    if n > 0 {
      FieldSplits(low / 2, high, n - 1, m);
      HalfOf(low, Pow2(n - 1), high);
    }
  }

  lemma HalfOf(low: nat, p: nat, high: nat)
    ensures (low + 2 * p * high) / 2 == low / 2 + p * high
    ensures (low + 2 * p * high) % 2 == low % 2
  {
    var q := p * high;
    assert 2 * p * high == 2 * q;
  }

  lemma LowHalfOfCat()
    ensures Field(43, 8) == [true, true, false, true, false, true, false, false]
  {
    assert Field(0, 1) == [false];
    assert Field(0, 2) == [false, false];
    assert Field(1, 3) == [true, false, false];
    assert Field(2, 4) == [false, true, false, false];
    assert Field(5, 5) == [true, false, true, false, false];
    assert Field(10, 6) == [false, true, false, true, false, false];
    assert Field(21, 7) == [true, false, true, false, true, false, false];
    assert Field(43, 8) == [true, true, false, true, false, true, false, false];
  }

  lemma HighHalfOfCat()
    ensures Field(115, 8) == [true, true, false, false, true, true, true, false]
  {
    assert Field(0, 1) == [false];
    assert Field(1, 2) == [true, false];
    assert Field(3, 3) == [true, true, false];
    assert Field(7, 4) == [true, true, true, false];
    assert Field(14, 5) == [false, true, true, true, false];
    assert Field(28, 6) == [false, false, true, true, true, false];
    assert Field(57, 7) == [true, false, false, true, true, true, false];
    assert Field(115, 8) == [true, true, false, false, true, true, true, false];
  }

  lemma FieldOfCat()
    ensures Field(0x732B, 16)
         == [true, true, false, true, false, true, false, false, true, true, false, false, true, true, true, false]
  {
    LowHalfOfCat();
    HighHalfOfCat();
    assert Pow2(8) == 256;
    FieldSplits(0x2B, 0x73, 8, 8);
  }

  lemma SixesOfCat(a: seq<bool>, bits: seq<bool>)
    requires a
          == [true, true, false, true, false, true, false, false, true, true, false, false, true, true, true, false]
    requires bits == [true, false] + a + [false, true, false]
    ensures |bits| == 21
    ensures (bits + [false, false, false])[..6] == [true, false, true, true, false, true]
    ensures (bits + [false, false, false])[6..12] == [false, true, false, false, true, true]
    ensures (bits + [false, false, false])[12..18] == [false, false, true, true, true, false]
    ensures (bits + [false, false, false])[18..24] == [false, true, false, false, false, false]
  {
  }

  lemma BitsOfCat(bits: seq<bool>)
    requires bits == Field(1, 2) + Field(0x732B, 16) + Field(2, 3)
    ensures |bits| == 21
    ensures (bits + [false, false, false])[..6] == [true, false, true, true, false, true]
    ensures (bits + [false, false, false])[6..12] == [false, true, false, false, true, true]
    ensures (bits + [false, false, false])[12..18] == [false, false, true, true, true, false]
    ensures (bits + [false, false, false])[18..24] == [false, true, false, false, false, false]
  {
    FieldOfCat();
    FieldsOfCodes();
    assert Field(1, 2) == [true, false];
    SixesOfCat(Field(0x732B, 16), bits);
  }

  lemma PackedCat(bits: seq<bool>)
    requires |bits| == 24
    requires bits[..6] == [true, false, true, true, false, true]
    requires bits[6..12] == [false, true, false, false, true, true]
    requires bits[12..18] == [false, false, true, true, true, false]
    requires bits[18..24] == [false, true, false, false, false, false]
    ensures Pack(bits) == [116, 84, 79, 81]
  {
    var input := Pack(bits);
    assert input[0] == Alphabet(SixBits(bits[..6])) == 116;
    assert input[1] == Alphabet(SixBits(bits[6..12])) == 84;
    assert input[2] == Alphabet(SixBits(bits[12..18])) == 79;
    assert input[3] == Alphabet(SixBits(bits[18..24])) == 81;
  }

  lemma StreamOfCat(tokens: seq<Token>)
    requires tokens == [Literal16(0x732B), End]
    ensures FromEncoder(tokens) && CopyAll(tokens, Rune) == [0x732B]
    ensures StreamBits(tokens) == Field(1, 2) + Field(0x732B, 16) + Field(2, 3)
  {
    assert tokens[1..] == [End];
    assert RestBits([End], 4) == Field(2, 3) + RestBits([End][1..], 5);
  }

  /** The input "tTOQ" reads as one character beyond eight bits, U+732B. */
  lemma CatDecodes(input: seq<Byte>)
    requires input == [116, 84, 79, 81]
    ensures Decode(input) == Decoded([0x732B])
  {
    var tokens: seq<Token> := [Literal16(0x732B), End];
    var bits := StreamBits(tokens) + [false, false, false];
    StreamOfCat(tokens);
    BitsOfCat(StreamBits(tokens));
    PackedCat(bits);
    ExampleDecodes(input, tokens, [0x732B]);
  }
}
