/**
 The decoder as the program runs it: one byte in a register, a mask that walks over it, a
 growing dictionary and a countdown to the next code width. Every method is proved to do what
 the function on the flat bit stream does.
 */
module LZDecoder {
  import opened LZFormat
  import opened Powers
  import opened LZString
  import opened Wrappers

  /** The countdown reaches zero when the dictionary has as many entries as codes of the current
      width can name, so the current width is always the one of the format. */
  predicate Balanced(size: nat, enlargeIn: int, numBits: nat) {
    && size >= BASE_SIZE
    && enlargeIn >= 1
    && size + enlargeIn == Pow2(numBits)
    && numBits == CodeWidth(size)
  }

  lemma AppendKeepsBalance(size: nat, enlargeIn: int, numBits: nat)
    requires Balanced(size, enlargeIn, numBits)
    ensures enlargeIn > 1 ==> Balanced(size + 1, enlargeIn - 1, numBits)
    ensures enlargeIn == 1 ==> Balanced(size + 1, Pow2(numBits), numBits + 1)
  {
    CodeWidthBounds(size);
    if enlargeIn > 1 {
      CodeWidthUnique(size + 1, numBits);
    } else {
      CodeWidthUnique(size + 1, numBits + 1);
    }
  }

  /** Every code the format allows fits in the current width. */
  lemma AllowedCodesFit(size: nat, enlargeIn: int, numBits: nat, code: nat)
    requires Balanced(size, enlargeIn, numBits) && code <= size
    ensures code < Pow2(numBits)
  {
  }

  /** What one call of `GetString` comes to. */
  datatype Fetched = Got(str: Text) | Ended | Bad | Panicked

  /** How far a mask has walked over a byte. */
  function Walked(position: nat): nat {
    if position == 32 then 0 else if position == 16 then 1 else if position == 8 then 2
    else if position == 4 then 3 else if position == 2 then 4 else 5
  }

  /** A literal is a UTF-16 unit. */
  lemma LiteralFits(bits: seq<bool>, size: nat)
    requires size <= 16 && ReadField(bits, size).Some?
    ensures ReadField(bits, size).value < 0x1_0000
  {
    FieldOfReadField(bits, size);
    Pow2Constants();
    Pow2Monotone(size, 16);
  }

  class Decoder {
    const input: seq<Byte>
    var val: nat
    var position: nat
    var index: nat
    var dictionary: seq<Text>
    var enlargeIn: int
    var numBits: nat

    /** The register holds the byte before `index`, and the mask is on one of its six bits. */
    ghost predicate Valid()
      reads this
    {
      && 1 <= index <= |input|
      && position in {32, 16, 8, 4, 2, 1}
      && val == BaseValue(input[index - 1])
    }

    /** How many bits have been used. */
    ghost function Used(): (n: nat)
      reads this
      requires Valid()
      ensures n < 6 * |input|
      ensures index == n / 6 + 1 && position == Mask(n % 6)
    {
      6 * (index - 1) + Walked(position)
    }

    /** The bits still to come. */
    ghost function Rest(): (bits: seq<bool>)
      reads this
      requires Valid()
      ensures |bits| == 6 * |input| - Used() && bits != []
    {
      Unpack(input)[Used()..]
    }

    ghost predicate InBalance()
      reads this
    {
      Balanced(|dictionary|, enlargeIn, numBits)
    }

    constructor (input: seq<Byte>)
      requires input != []
      ensures this.input == input && Valid() && Used() == 0
      ensures dictionary == BASE_DICTIONARY && enlargeIn == 5 && numBits == FIRST_WIDTH
    {
      this.input := input;
      val, position, index := BaseValue(input[0]), 32, 1;
      dictionary, enlargeIn, numBits := BASE_DICTIONARY, 5, FIRST_WIDTH;
    }

    /** The bit under the mask, and one step on; false when the next byte is beyond the input. */
    method NextBit() returns (bit: bool, inRange: bool)
      requires Valid()
      modifies this`val, this`position, this`index
      ensures bit == old(Rest())[0]
      ensures inRange <==> |old(Rest())| > 1
      ensures inRange ==> Valid() && Rest() == old(Rest())[1..]
    {
      ghost var n := Used();
      bit := BitOf(val, position);
      assert bit == Unpack(input)[n];
      position := position / 2;
      if position == 0 {
        position := 32;
        if index >= |input| {
          return bit, false;
        }
        val := BaseValue(input[index]);
        index := index + 1;
      }
      inRange := true;
      assert Used() == n + 1;
    }

    /** `nb` bits, least significant first; `None` is the panic at the end of the input. */
    method ReadBits(nb: nat) returns (r: Option<nat>)
      requires Valid()
      modifies this`val, this`position, this`index
      ensures r == ReadField(old(Rest()), nb)
      ensures r.Some? ==> Valid() && Rest() == old(Rest())[nb..]
    {
      ghost var bits := Rest();
      var result, power := 0, 1;
      for i := 0 to nb
        invariant Valid() && i < |bits| && Rest() == bits[i..]
        invariant power == Pow2(i) && result == FieldValue(bits[..i])
      {
        var bit, inRange := NextBit();
        if !inRange {
          return None;
        }
        FieldValueSnoc(bits[..i], bit);
        assert bits[..i + 1] == bits[..i] + [bit];
        if bit {
          // The accumulated bits are all below `power`, so the program's `|=` adds it.
          result := result + power;
        }
        power := power * 2;
      }
      return Some(result);
    }

    method AppendValue(str: Text)
      modifies this`dictionary, this`enlargeIn, this`numBits
      ensures dictionary == old(dictionary) + [str]
      ensures old(enlargeIn) != 1 ==> enlargeIn == old(enlargeIn) - 1 && numBits == old(numBits)
      ensures old(enlargeIn) == 1 ==> enlargeIn == Pow2(old(numBits)) && numBits == old(numBits) + 1
      ensures old(InBalance()) ==> InBalance()
    {
      if InBalance() {
        AppendKeepsBalance(|dictionary|, enlargeIn, numBits);
      }
      dictionary := dictionary + [str];
      enlargeIn := enlargeIn - 1;
      if enlargeIn == 0 {
        enlargeIn := Pow2(numBits);
        numBits := numBits + 1;
      }
    }

    method ConcatWithFirstRune(str: Text, getFirstRune: Text) returns (r: Text)
      ensures r == str + [First(getFirstRune)]
    {
      r := str + [if getFirstRune == [] then 0xFFFD else getFirstRune[0]];
    }

    /** A literal of `size` bits enters the dictionary as a string of one character. */
    method GetLiteral(size: nat) returns (g: Fetched)
      requires Valid() && enlargeIn >= 1 && size <= 16
      modifies this
      ensures match ReadField(old(Rest()), size)
              case None => g == Panicked
              case Some(u) =>
                && u < 0x1_0000
                && g == Got([Rune(u)])
                && Valid() && Rest() == old(Rest())[size..]
                && dictionary == old(dictionary) + [g.str]
                && (old(enlargeIn) > 1 ==> enlargeIn == old(enlargeIn) - 1 && numBits == old(numBits))
                && (old(InBalance()) ==> InBalance())
    {
      ghost var bits := Rest();
      var u := ReadBits(size);
      if u.None? {
        return Panicked;
      }
      LiteralFits(bits, size);
      var str: Text := [Rune(u.value)];
      AppendValue(str);
      g := Got(str);
    }

    /** The text of the next token, whose literal, if it is one, enters the dictionary at once. */
    method GetString(last: Text) returns (g: Fetched)
      requires Valid() && enlargeIn >= 1
      modifies this
      ensures match ParseToken(old(Rest()), old(numBits))
              case Dry => g == Panicked
              case Parsed(End, _) => g == Ended
              case Parsed(t, rest) =>
                if !Known(old(dictionary), t) then g == Bad
                else
                  && g == Got(Resolve(old(dictionary), last, t, Rune))
                  && Valid() && Rest() == rest
                  && dictionary == (if t.IsLiteral() then old(dictionary) + [g.str] else old(dictionary))
                  && (old(enlargeIn) > 1 ==>
                        enlargeIn == old(enlargeIn) - FirstGrowth(t) && numBits == old(numBits))
                  && (old(InBalance()) ==> InBalance())
    {
      var c := ReadBits(numBits);
      match c {
        case None => g := Panicked;
        case Some(0) => g := GetLiteral(8);
        case Some(1) => g := GetLiteral(16);
        case Some(2) => g := Ended;
        case Some(code) =>
          if code < |dictionary| {
            g := Got(dictionary[code]);
          } else if code == |dictionary| {
            var str := ConcatWithFirstRune(last, last);
            g := Got(str);
          } else {
            g := Bad;
          }
      }
    }

    /** One round of the main loop: a text, and the entry that the previous text and the first
        character of this one make. */
    method NextEntry(last: Text) returns (g: Fetched)
      requires Valid() && InBalance()
      modifies this
      ensures match ParseToken(old(Rest()), CodeWidth(|old(dictionary)|))
              case Dry => g == Panicked
              case Parsed(End, _) => g == Ended
              case Parsed(t, rest) =>
                if !Known(old(dictionary), t) then g == Bad
                else
                  && g == Got(Resolve(old(dictionary), last, t, Rune))
                  && Valid() && Rest() == rest && InBalance()
                  && dictionary == Grow(old(dictionary), last, t, g.str)
    {
      g := GetString(last);
      if g.Got? {
        var entry := ConcatWithFirstRune(last, g.str);
        AppendValue(entry);
      }
    }
  }

  /** The whole decoder computes the function of the format. Its main loop reads at most two codes
      for each input byte, keeps every code in the width of the format, and every dictionary entry it
      defines is a stretch of its own output. */
  method DecompressFromEncodedUriComponent(input: seq<Byte>) returns (outcome: Outcome, ghost codes: nat)
    ensures outcome == Decode(input)
    ensures outcome == EmptyInput <==> input == []
    ensures codes <= 2 * |input|
  {
    if input == [] {
      return EmptyInput, 0;
    }
    NotEmpty(input);
    var data, first := DecompressFirst(input);
    if first.Panicked? {
      return OutOfRange, 0;
    } else if !first.Got? {
      return Decoded([]), 0;
    }
    outcome, codes := DecompressRest(data, first.str);
  }

  lemma {:induction false} RestIsNotEmptyInput(bits: seq<bool>, dict: seq<Text>, last: Text, out: Text)
    requires |dict| >= BASE_SIZE
    ensures DecodeRest(bits, dict, last, out) != EmptyInput
    decreases |bits|
  {
    var p := ParseToken(bits, CodeWidth(|dict|));
    if p.Parsed? && Known(dict, p.token) {
      var str := Resolve(dict, last, p.token, Rune);
      RestIsNotEmptyInput(p.rest, Grow(dict, last, p.token, str), str, out + str);
    }
  }

  lemma NotEmpty(input: seq<Byte>)
    requires input != []
    ensures Decode(input) != EmptyInput
  {
    var p := ParseToken(Unpack(input), FIRST_WIDTH);
    if p.Parsed? && !p.token.End? {
      PrintParsed(Unpack(input), FIRST_WIDTH);
      Pow2Constants();
      var str := Resolve(BASE_DICTIONARY, [], p.token, Rune);
      RestIsNotEmptyInput(p.rest, FirstDictionary(p.token, str), str, str);
    }
  }

  /** The first token, which begins the text and the dictionary, and after which codes are wider. */
  method DecompressFirst(input: seq<Byte>) returns (data: Decoder, first: Fetched)
    requires input != []
    ensures fresh(data)
    ensures match first
            case Panicked => Decode(input) == OutOfRange
            case Ended => Decode(input) == Decoded([])
            case Bad => false
            case Got(str) =>
              && data.Valid() && data.InBalance() && Explained(data.dictionary, str, str)
              && |data.Rest()| <= 6 * |input|
              && Decode(input) == DecodeRest(data.Rest(), data.dictionary, str, str)
  {
    data := new Decoder(input);
    assert data.Rest() == Unpack(input);
    first := data.GetString([]);
    if first.Got? {
      ghost var t := FirstToken(input);
      data.numBits := data.numBits + 1;
    }
  }

  /** The first token of an input that has one and does not end at once. */
  lemma FirstToken(input: seq<Byte>) returns (t: Token)
    requires input != []
    requires var p := ParseToken(Unpack(input), FIRST_WIDTH); p.Parsed? && !p.token.End?
    ensures t == ParseToken(Unpack(input), FIRST_WIDTH).token
    ensures IsToken(t, BASE_SIZE)
    ensures Balanced(BASE_SIZE + FirstGrowth(t), 5 - FirstGrowth(t), FIRST_WIDTH + 1)
    ensures Explained(FirstDictionary(t, Resolve(BASE_DICTIONARY, [], t, Rune)),
                      Resolve(BASE_DICTIONARY, [], t, Rune), Resolve(BASE_DICTIONARY, [], t, Rune))
  {
    Pow2Constants();
    PrintParsed(Unpack(input), FIRST_WIDTH);
    t := ParseToken(Unpack(input), FIRST_WIDTH).token;
    FirstDictionaryExplained(t);
  }

  /** A round adds the stretch of the output that begins where the last text begins and is one
      character longer; and before it, if at all, the one character that it wrote. */
  predicate IsStepOf(dict: seq<Text>, last: Text, r: Text, str: Text, dict': seq<Text>) {
    && str != [] && |last| <= |r|
    && dict <= dict' && |dict| < |dict'| <= |dict| + 2
    && dict'[|dict'| - 1] == (r + str)[|r| - |last|..|r| + 1]
    && (|dict'| == |dict| + 2 ==> |str| == 1 && dict'[|dict|] == str)
  }

  lemma GrowIsStep(dict: seq<Text>, last: Text, r: Text, t: Token)
    requires Explained(dict, last, r) && IsToken(t, |dict|) && !t.End?
    ensures var str := Resolve(dict, last, t, Rune); IsStepOf(dict, last, r, str, Grow(dict, last, t, str))
  {
    var str := Resolve(dict, last, t, Rune);
    assert (r + str)[|r| - |last|..|r| + 1] == r[|r| - |last|..] + [str[0]];
  }

  /** One round of the loop: the outcome, or the next text, with the same outcome still to come. */
  method DecompressRound(data: Decoder, last: Text, r: Text) returns (outcome: Option<Outcome>, str: Text)
    requires data.Valid() && data.InBalance() && Explained(data.dictionary, last, r)
    modifies data
    ensures match outcome
            case Some(o) => o == old(DecodeRest(data.Rest(), data.dictionary, last, r))
            case None =>
              && data.Valid() && data.InBalance() && Explained(data.dictionary, str, r + str)
              && |data.Rest()| + 3 <= old(|data.Rest()|)
              && DecodeRest(data.Rest(), data.dictionary, str, r + str)
                 == old(DecodeRest(data.Rest(), data.dictionary, last, r))
    ensures outcome.None? ==> IsStepOf(old(data.dictionary), last, r, str, data.dictionary)
  {
    ghost var p, dict := ParseToken(data.Rest(), CodeWidth(|data.dictionary|)), data.dictionary;
    var next := data.NextEntry(last);
    match next {
      case Panicked => return Some(OutOfRange), [];
      case Ended => return Some(Decoded(r)), [];
      case Bad => return Some(BadCode(r)), [];
      case Got(text) =>
        GrowKeepsExplained(dict, last, r, p.token);
        GrowIsStep(dict, last, r, p.token);
        return None, text;
    }
  }

  /** The loop after the first token, with the number of codes it reads. */
  method DecompressRest(data: Decoder, first: Text) returns (outcome: Outcome, ghost codes: nat)
    requires data.Valid() && data.InBalance() && Explained(data.dictionary, first, first)
    modifies data
    ensures outcome == old(DecodeRest(data.Rest(), data.dictionary, first, first))
    ensures 3 * (codes - 1) < old(|data.Rest()|)
  {
    var r, last := first, first;
    codes := 0;
    while true
      invariant data.Valid() && data.InBalance() && Explained(data.dictionary, last, r)
      invariant 3 * codes + |data.Rest()| <= old(|data.Rest()|)
      invariant old(DecodeRest(data.Rest(), data.dictionary, first, first))
             == DecodeRest(data.Rest(), data.dictionary, last, r)
      decreases |data.Rest()|
    {
      var done, str := DecompressRound(data, last, r);
      codes := codes + 1;
      if done.Some? {
        return done.value, codes;
      }
      r, last := r + str, str;
    }
  }
}
