/**
 The lz-string decoder as a function on the flat bit stream, and the theorems that tie it to the
 format. The register machine of the program is in `LZDecoder`, proved equal to this function.
 */
module LZString {
  import opened LZFormat
  import opened Powers
  import opened Wrappers

  /** What a call of the decoder comes to. `BadCode` carries the text written so far, which the
      program returns beside its error; `OutOfRange` is the run-time panic of reading a byte
      beyond the input. */
  datatype Outcome = Decoded(text: Text) | EmptyInput | BadCode(partial: Text) | OutOfRange

  // ---------------------------------------------------------------- reading one token

  /** A token and the bits after it. `Dry` when the reader would fetch a byte that is not there:
      it fetches the next byte as soon as it has used the last bit of one, so some bit must be
      left over. */
  datatype Parsed = Parsed(token: Token, rest: seq<bool>) | Dry

  lemma Pow2Constants()
    ensures Pow2(2) == 4 && Pow2(3) == 8 && Pow2(8) == 0x100 && Pow2(16) == 0x1_0000
  {
    assert Pow2(4) == 16;
    assert Pow2(8) == 0x100;
    assert Pow2(12) == 0x1000;
  }

  /** The next `width` bits as an unsigned number, if one more bit follows them. */
  function ReadField(bits: seq<bool>, width: nat): (r: Option<nat>)
    ensures r.Some? ==> width < |bits| && r.value < Pow2(width)
  {
    if width >= |bits| then None
    else
      FieldOfFieldValue(bits[..width]);
      Some(FieldValue(bits[..width]))
  }

  function ParseToken(bits: seq<bool>, width: nat): (p: Parsed)
    ensures p.Parsed? ==> 0 < |p.rest| <= |bits| - width
  {
    Pow2Constants();
    match ReadField(bits, width)
    case None => Dry
    case Some(code) =>
      var rest := bits[width..];
      if code == 0 then
        match ReadField(rest, 8) { case None => Dry case Some(u) => Parsed(Literal8(u), rest[8..]) }
      else if code == 1 then
        match ReadField(rest, 16) { case None => Dry case Some(u) => Parsed(Literal16(u), rest[16..]) }
      else if code == 2 then Parsed(End, rest)
      else Parsed(Reference(code), rest)
  }

  /** The token can be written with codes of this width. */
  predicate Fits(t: Token, width: nat) {
    match t
    case Literal8(u) => u < 0x100
    case Literal16(_) => true
    case Reference(c) => BASE_SIZE <= c < Pow2(width)
    case End => true
  }

  lemma ReadFieldOfField(v: nat, width: nat, rest: seq<bool>)
    requires v < Pow2(width) && rest != []
    ensures ReadField(Field(v, width) + rest, width) == Some(v)
    ensures (Field(v, width) + rest)[width..] == rest
  {
    FieldValueOfField(v, width);
    assert (Field(v, width) + rest)[..width] == Field(v, width);
  }

  lemma FieldOfReadField(bits: seq<bool>, width: nat)
    requires ReadField(bits, width).Some?
    ensures bits == Field(ReadField(bits, width).value, width) + bits[width..]
  {
    FieldOfFieldValue(bits[..width]);
    assert bits == bits[..width] + bits[width..];
  }

  /** A field in front of a literal is read as the code it is. */
  lemma LiteralCode(code: nat, width: nat, u: Unit, size: nat, rest: seq<bool>)
    requires width >= 2 && code < 2 && u < Pow2(size) && rest != []
    ensures var bits := Field(code, width) + Field(u, size) + rest;
            && ReadField(bits, width) == Some(code)
            && ReadField(bits[width..], size) == Some(u)
            && bits[width..][size..] == rest
  {
    Pow2Constants();
    Pow2Monotone(2, width);
    var bits := Field(code, width) + Field(u, size) + rest;
    assert bits == Field(code, width) + (Field(u, size) + rest);
    ReadFieldOfField(code, width, Field(u, size) + rest);
    ReadFieldOfField(u, size, rest);
  }

  lemma ParsePrinted(t: Token, width: nat, rest: seq<bool>)
    requires width >= 2 && Fits(t, width) && rest != []
    ensures ParseToken(TokenBits(t, width) + rest, width) == Parsed(t, rest)
  {
    Pow2Constants();
    match t
    case Literal8(u) => LiteralCode(0, width, u, 8, rest);
    case Literal16(u) => LiteralCode(1, width, u, 16, rest);
    case Reference(c) => ReadFieldOfField(c, width, rest);
    case End =>
      Pow2Monotone(2, width);
      ReadFieldOfField(2, width, rest);
  }

  lemma PrintParsed(bits: seq<bool>, width: nat)
    requires ParseToken(bits, width).Parsed?
    ensures var Parsed(t, rest) := ParseToken(bits, width); Fits(t, width) && bits == TokenBits(t, width) + rest
  {
    Pow2Constants();
    var Parsed(t, rest) := ParseToken(bits, width);
    FieldOfReadField(bits, width);
    var tail := bits[width..];
    match t
    case Literal8(u) =>
      FieldOfReadField(tail, 8);
      assert bits == Field(0, width) + (Field(u, 8) + rest);
    case Literal16(u) =>
      FieldOfReadField(tail, 16);
      assert bits == Field(1, width) + (Field(u, 16) + rest);
    case Reference(c) =>
    case End =>
  }

  /** A reader that does not have all the bits of a token and one more runs dry. */
  lemma ParseCutOff(bits: seq<bool>, t: Token, width: nat)
    requires width >= 2 && Fits(t, width)
    requires bits <= TokenBits(t, width)
    ensures ParseToken(bits, width) == Dry
  {
    if ParseToken(bits, width).Parsed? {
      // Whatever was read would be the beginning of this token as well, and a longer one at that.
      var mine := TokenBits(t, width);
      var Parsed(t', rest) := ParseToken(bits, width);
      var more := mine[|bits|..] + [true];
      PrintParsed(bits, width);
      SameBits(mine, bits, TokenBits(t', width), rest, more);
      ParsePrinted(t', width, rest + more);
      ParsePrinted(t, width, [true]);
    }
  }

  lemma SameBits(mine: seq<bool>, bits: seq<bool>, other: seq<bool>, rest: seq<bool>, more: seq<bool>)
    requires bits <= mine && more == mine[|bits|..] + [true] && bits == other + rest
    ensures mine + [true] == other + (rest + more)
  {
    assert mine == bits + mine[|bits|..];
  }

  // ---------------------------------------------------------------- the decoder on bits

  predicate Known(dict: seq<Text>, t: Token) {
    !t.End? && (t.Reference? ==> t.code <= |dict|)
  }

  /** The loop of the decoder, after the first token. */
  function DecodeRest(bits: seq<bool>, dict: seq<Text>, last: Text, out: Text): Outcome
    requires |dict| >= BASE_SIZE
    decreases |bits|
  {
    match ParseToken(bits, CodeWidth(|dict|))
    case Dry => OutOfRange
    case Parsed(t, rest) =>
      if t.End? then Decoded(out)
      else if !Known(dict, t) then BadCode(out)
      else
        var str := Resolve(dict, last, t, Rune);
        DecodeRest(rest, Grow(dict, last, t, str), str, out + str)
  }

  function Decode(input: seq<Byte>): Outcome {
    if input == [] then EmptyInput
    else
      match ParseToken(Unpack(input), FIRST_WIDTH)
      case Dry => OutOfRange
      case Parsed(t, rest) =>
        PrintParsed(Unpack(input), FIRST_WIDTH);
        Pow2Constants();
        if t.End? then Decoded([])
        else
          var str := Resolve(BASE_DICTIONARY, [], t, Rune);
          DecodeRest(rest, FirstDictionary(t, str), str, str)
  }

  lemma KnownFits(dict: seq<Text>, t: Token)
    requires |dict| >= BASE_SIZE && IsToken(t, |dict|)
    ensures Fits(t, CodeWidth(|dict|))
  {
    CodeWidthBounds(|dict|);
  }

  /** A stream and the bits of an input, one of which continues the other. */
  predicate Comparable(bits: seq<bool>, stream: seq<bool>) {
    bits <= stream || stream <= bits
  }

  /** The first token of a stream is read off an input if the input goes on beyond it. */
  lemma ParseHead(bits: seq<bool>, t: Token, width: nat, others: seq<bool>)
    requires width >= 2 && Fits(t, width)
    requires Comparable(bits, TokenBits(t, width) + others)
    ensures |bits| <= |TokenBits(t, width)| ==> ParseToken(bits, width) == Dry
    ensures |bits| > |TokenBits(t, width)| ==>
              && ParseToken(bits, width) == Parsed(t, bits[|TokenBits(t, width)|..])
              && Comparable(bits[|TokenBits(t, width)|..], others)
  {
    var mine := TokenBits(t, width);
    if |bits| <= |mine| {
      assert bits <= mine;
      ParseCutOff(bits, t, width);
    } else {
      var rest := bits[|mine|..];
      assert bits == mine + rest;
      ParsePrinted(t, width, rest);
      ComparableBehind(mine, rest, others);
    }
  }

  lemma ComparableBehind(mine: seq<bool>, rest: seq<bool>, others: seq<bool>)
    requires Comparable(mine + rest, mine + others)
    ensures Comparable(rest, others)
  {
    if mine + rest <= mine + others {
      assert rest == (mine + rest)[|mine|..] == others[..|rest|];
    } else {
      assert others == (mine + others)[|mine|..] == rest[..|others|];
    }
  }

  lemma ConcatAssociates(a: Text, b: Text, c: Text)
    ensures a + b + c == a + (b + c)
  {
  }

  /** One round of the loop on the first token of a stream. */
  lemma DecodeHead(bits: seq<bool>, t: Token, others: seq<bool>, dict: seq<Text>, last: Text, out: Text)
    requires |dict| >= BASE_SIZE && IsToken(t, |dict|)
    requires Comparable(bits, TokenBits(t, CodeWidth(|dict|)) + others)
    ensures var mine := |TokenBits(t, CodeWidth(|dict|))|;
            if |bits| <= mine then DecodeRest(bits, dict, last, out) == OutOfRange
            else if t.End? then DecodeRest(bits, dict, last, out) == Decoded(out)
            else
              var str := Resolve(dict, last, t, Rune);
              && Comparable(bits[mine..], others)
              && DecodeRest(bits, dict, last, out)
              == DecodeRest(bits[mine..], Grow(dict, last, t, str), str, out + str)
  {
    KnownFits(dict, t);
    ParseHead(bits, t, CodeWidth(|dict|), others);
  }

  /** Decoding the tokens of a stream gives their meaning if a bit is left after them, and runs
      out of input if not, however little of the stream is there. */
  lemma {:induction false} DecodeRestOfStream(
    bits: seq<bool>, tokens: seq<Token>, dict: seq<Text>, last: Text, out: Text)
    requires |dict| >= BASE_SIZE && WellFormedRest(tokens, |dict|)
    requires Comparable(bits, RestBits(tokens, |dict|))
    ensures DecodeRest(bits, dict, last, out)
         == if |RestBits(tokens, |dict|)| < |bits| then Decoded(out + RestMeaning(tokens, dict, last, Rune))
            else OutOfRange
    decreases |tokens|
  {
    var t, mine := tokens[0], |TokenBits(tokens[0], CodeWidth(|dict|))|;
    DecodeHead(bits, t, RestBits(tokens[1..], |dict| + Growth(t)), dict, last, out);
    if t.End? {
      assert out + [] == out;
    } else if |bits| > mine {
      var str := Resolve(dict, last, t, Rune);
      var dict' := Grow(dict, last, t, str);
      DecodeRestOfStream(bits[mine..], tokens[1..], dict', str, out + str);
      ConcatAssociates(out, str, RestMeaning(tokens[1..], dict', str, Rune));
    }
  }

  /** The same for a whole input, with the cleaning of surrogates pulled out of the decoder. */
  lemma DecodeStream(input: seq<Byte>, tokens: seq<Token>)
    requires input != [] && WellFormed(tokens)
    requires Comparable(Unpack(input), StreamBits(tokens))
    ensures Decode(input)
         == if |StreamBits(tokens)| < 6 * |input| then Decoded(Clean(Meaning(tokens))) else OutOfRange
  {
    Pow2Constants();
    CleanMeaning(tokens);
    var bits, t := Unpack(input), tokens[0];
    var mine, others := TokenBits(t, FIRST_WIDTH), RestBits(tokens[1..], BASE_SIZE + FirstGrowth(t));
    ParseHead(bits, t, FIRST_WIDTH, others);
    if |bits| > |mine| && !t.End? {
      var str := Resolve(BASE_DICTIONARY, [], t, Rune);
      DecodeRestOfStream(bits[|mine|..], tokens[1..], FirstDictionary(t, str), str, str);
    }
  }

  lemma ProperPrefix(mine: seq<bool>, others: seq<bool>, rest: seq<bool>)
    requires others < rest
    ensures mine + others < mine + rest
  {
    assert mine + others == (mine + rest)[..|mine + others|];
  }

  lemma ConsRest(t: Token, more: seq<Token>, n: nat, bits: seq<bool>, rest: seq<bool>)
    requires n >= BASE_SIZE && IsToken(t, n) && !t.End?
    requires WellFormedRest(more, n + Growth(t)) && RestBits(more, n + Growth(t)) < rest
    requires bits == TokenBits(t, CodeWidth(n)) + rest
    ensures WellFormedRest([t] + more, n) && RestBits([t] + more, n) < bits
  {
    assert ([t] + more)[1..] == more;
    ProperPrefix(TokenBits(t, CodeWidth(n)), RestBits(more, n + Growth(t)), rest);
  }

  lemma ConsFirst(t: Token, more: seq<Token>, bits: seq<bool>, rest: seq<bool>)
    requires IsToken(t, BASE_SIZE) && !t.End?
    requires WellFormedRest(more, BASE_SIZE + FirstGrowth(t)) && RestBits(more, BASE_SIZE + FirstGrowth(t)) < rest
    requires bits == TokenBits(t, FIRST_WIDTH) + rest
    ensures WellFormed([t] + more) && StreamBits([t] + more) < bits
  {
    assert ([t] + more)[1..] == more;
    ProperPrefix(TokenBits(t, FIRST_WIDTH), RestBits(more, BASE_SIZE + FirstGrowth(t)), rest);
  }

  /** The end token alone. */
  lemma EndAlone(n: nat, rest: seq<bool>)
    requires n >= BASE_SIZE && rest != []
    ensures WellFormedRest([End], n) && RestBits([End], n) < TokenBits(End, CodeWidth(n)) + rest
    ensures WellFormed([End]) && StreamBits([End]) < TokenBits(End, FIRST_WIDTH) + rest
  {
    ProperPrefix(TokenBits(End, CodeWidth(n)), [], rest);
    ProperPrefix(TokenBits(End, FIRST_WIDTH), [], rest);
  }

  /** What the loop accepts begins with a token it knows, and goes on with what the loop accepts. */
  lemma AcceptedStep(bits: seq<bool>, dict: seq<Text>, last: Text, out: Text)
    returns (t: Token, rest: seq<bool>, dict': seq<Text>, str: Text)
    requires |dict| >= BASE_SIZE && DecodeRest(bits, dict, last, out).Decoded?
    ensures rest != [] && IsToken(t, |dict|) && bits == TokenBits(t, CodeWidth(|dict|)) + rest
    ensures |rest| < |bits|
    ensures !t.End? ==> |dict'| == |dict| + Growth(t) && DecodeRest(rest, dict', str, out + str).Decoded?
  {
    var p := ParseToken(bits, CodeWidth(|dict|));
    PrintParsed(bits, CodeWidth(|dict|));
    t, rest, dict', str := p.token, p.rest, dict, last;
    if !t.End? {
      str := Resolve(dict, last, t, Rune);
      dict' := Grow(dict, last, t, str);
    }
  }

  predicate IsRestOf(tokens: seq<Token>, n: nat, bits: seq<bool>)
    requires n >= BASE_SIZE
  {
    WellFormedRest(tokens, n) && RestBits(tokens, n) < bits
  }

  lemma EndIsRest(n: nat, rest: seq<bool>, bits: seq<bool>)
    requires n >= BASE_SIZE && rest != [] && bits == TokenBits(End, CodeWidth(n)) + rest
    ensures IsRestOf([End], n, bits)
  {
    EndAlone(n, rest);
  }

  lemma ThenRest(t: Token, more: seq<Token>, n: nat, bits: seq<bool>, rest: seq<bool>)
    requires n >= BASE_SIZE && IsToken(t, n) && !t.End? && bits == TokenBits(t, CodeWidth(n)) + rest
    requires IsRestOf(more, n + Growth(t), rest)
    ensures IsRestOf([t] + more, n, bits)
  {
    ConsRest(t, more, n, bits, rest);
  }

  /** Whatever the loop accepts is a stream. */
  lemma {:induction false} AcceptedRestIsStream(bits: seq<bool>, dict: seq<Text>, last: Text, out: Text)
    returns (tokens: seq<Token>)
    requires |dict| >= BASE_SIZE && DecodeRest(bits, dict, last, out).Decoded?
    ensures IsRestOf(tokens, |dict|, bits)
    decreases |bits|, 1
  {
    var t, rest, dict', str := AcceptedStep(bits, dict, last, out);
    if t.End? {
      tokens := [End];
      EndIsRest(|dict|, rest, bits);
    } else {
      tokens := AcceptedMore(bits, |dict|, t, rest, dict', str, out + str);
    }
  }

  lemma {:induction false} AcceptedMore(
    bits: seq<bool>, n: nat, t: Token, rest: seq<bool>, dict: seq<Text>, last: Text, out: Text)
    returns (tokens: seq<Token>)
    requires n >= BASE_SIZE && IsToken(t, n) && !t.End? && bits == TokenBits(t, CodeWidth(n)) + rest
    requires |rest| < |bits| && |dict| == n + Growth(t) && DecodeRest(rest, dict, last, out).Decoded?
    ensures IsRestOf(tokens, n, bits)
    decreases |bits|, 0
  {
    var more := AcceptedRestIsStream(rest, dict, last, out);
    tokens := [t] + more;
    ThenRest(t, more, n, bits, rest);
  }

  lemma AcceptedIsStream(input: seq<Byte>) returns (tokens: seq<Token>)
    requires Decode(input).Decoded?
    ensures WellFormed(tokens) && StreamBits(tokens) < Unpack(input)
    ensures Decode(input) == Decoded(Clean(Meaning(tokens)))
  {
    Pow2Constants();
    var bits := Unpack(input);
    var Parsed(t, rest) := ParseToken(bits, FIRST_WIDTH);
    PrintParsed(bits, FIRST_WIDTH);
    if t.End? {
      tokens := [End];
      EndAlone(BASE_SIZE, rest);
    } else {
      var str := Resolve(BASE_DICTIONARY, [], t, Rune);
      var more := AcceptedRestIsStream(rest, FirstDictionary(t, str), str, str);
      tokens := [t] + more;
      ConsFirst(t, more, bits, rest);
    }
    DecodeStream(input, tokens);
  }

  // ---------------------------------------------------------------- main theorems

  /** Exactly which inputs decode, and to what: the bits of the input begin with the bits of a
      well-formed stream and go on for at least one more bit. */
  lemma DecodesExactlyStreams(input: seq<Byte>, text: Text)
    requires input != []
    ensures Decode(input) == Decoded(text) <==>
            exists tokens :: WellFormed(tokens) && StreamBits(tokens) < Unpack(input) && text == Clean(Meaning(tokens))
  {
    if Decode(input) == Decoded(text) {
      var tokens := AcceptedIsStream(input);
      assert WellFormed(tokens) && StreamBits(tokens) < Unpack(input) && text == Clean(Meaning(tokens));
    }
    if tokens :| WellFormed(tokens) && StreamBits(tokens) < Unpack(input) && text == Clean(Meaning(tokens)) {
      DecodeStream(input, tokens);
    }
  }

  /** Decoding undoes packing, for every encoder: its tokens, its padding. Without padding, which
      leaves the last bit of the stream in the last bit of a character, the decoder panics. */
  lemma DecodeUndoesPacking(tokens: seq<Token>, padding: seq<bool>)
    requires FromEncoder(tokens)
    requires (|StreamBits(tokens)| + |padding|) % 6 == 0
    ensures Decode(Pack(StreamBits(tokens) + padding))
         == if padding == [] then OutOfRange else Decoded(Clean(Meaning(tokens)))
  {
    var bits := StreamBits(tokens) + padding;
    UnpackPack(bits);
    assert |Pack(bits)| * 6 == |bits|;
    assert |bits| >= FIRST_WIDTH;
    DecodeStream(Pack(bits), tokens);
  }

  // ---------------------------------------------------------------- unknown codes

  /** The dictionary after some tokens. */
  function SizeAfter(tokens: seq<Token>, n: nat): (m: nat)
    ensures m >= n
  {
    if tokens == [] then n else SizeAfter(tokens[1..], n + Growth(tokens[0]))
  }

  /** Tokens that a stream may go on with, and a code beyond the dictionary after them. */
  predicate IsBreak(tokens: seq<Token>, code: nat, n: nat)
    requires n >= BASE_SIZE
  {
    WellFormedRest(tokens + [End], n) && SizeAfter(tokens, n) < code < Pow2(CodeWidth(SizeAfter(tokens, n)))
  }

  function BreakBits(tokens: seq<Token>, code: nat, n: nat): seq<bool>
    requires n >= BASE_SIZE
  {
    RestBits(tokens, n) + Field(code, CodeWidth(SizeAfter(tokens, n)))
  }

  lemma BreakNow(code: nat, n: nat)
    requires n >= BASE_SIZE
    ensures IsBreak([], code, n) <==> n < code < Pow2(CodeWidth(n))
    ensures BreakBits([], code, n) == Field(code, CodeWidth(n))
  {
    assert [] + [End] == [End];
  }

  lemma ConsEnd(t: Token, more: seq<Token>, n: nat)
    requires IsToken(t, n) && !t.End?
    ensures WellFormedRest([t] + more + [End], n) <==> WellFormedRest(more + [End], n + Growth(t))
  {
    assert ([t] + more + [End])[1..] == more + [End];
  }

  lemma SizeLater(t: Token, more: seq<Token>, n: nat)
    ensures SizeAfter([t] + more, n) == SizeAfter(more, n + Growth(t))
  {
    assert ([t] + more)[1..] == more;
  }

  lemma RestBitsHead(tokens: seq<Token>, n: nat)
    requires n >= BASE_SIZE && tokens != []
    ensures RestBits(tokens, n) == TokenBits(tokens[0], CodeWidth(n)) + RestBits(tokens[1..], n + Growth(tokens[0]))
  {
  }

  lemma RestBitsCons(t: Token, more: seq<Token>, n: nat)
    requires n >= BASE_SIZE
    ensures RestBits([t] + more, n) == TokenBits(t, CodeWidth(n)) + RestBits(more, n + Growth(t))
  {
    RestBitsHead([t] + more, n);
    assert ([t] + more)[1..] == more;
  }

  lemma BitsAssociate(a: seq<bool>, b: seq<bool>, c: seq<bool>)
    ensures a + b + c == a + (b + c)
  {
  }

  lemma BreakLater(t: Token, more: seq<Token>, code: nat, n: nat)
    requires n >= BASE_SIZE && IsToken(t, n) && !t.End?
    ensures IsBreak([t] + more, code, n) <==> IsBreak(more, code, n + Growth(t))
    ensures BreakBits([t] + more, code, n) == TokenBits(t, CodeWidth(n)) + BreakBits(more, code, n + Growth(t))
  {
    ConsEnd(t, more, n);
    SizeLater(t, more, n);
    RestBitsCons(t, more, n);
    BitsAssociate(TokenBits(t, CodeWidth(n)), RestBits(more, n + Growth(t)),
                  Field(code, CodeWidth(SizeAfter(more, n + Growth(t)))));
  }

  /** The first of the tokens, and what breaks behind it. */
  lemma BreakHead(tokens: seq<Token>, code: nat, n: nat)
    requires n >= BASE_SIZE && IsBreak(tokens, code, n) && tokens != []
    ensures IsToken(tokens[0], n) && !tokens[0].End? && IsBreak(tokens[1..], code, n + Growth(tokens[0]))
    ensures BreakBits(tokens, code, n)
         == TokenBits(tokens[0], CodeWidth(n)) + BreakBits(tokens[1..], code, n + Growth(tokens[0]))
  {
    assert (tokens + [End])[0] == tokens[0];
    assert tokens == [tokens[0]] + tokens[1..];
    BreakLater(tokens[0], tokens[1..], code, n);
  }

  lemma SplitBits(mine: seq<bool>, others: seq<bool>, bits: seq<bool>) returns (rest: seq<bool>)
    requires mine + others < bits
    ensures bits == mine + rest && others < rest
  {
    rest := bits[|mine|..];
    assert bits == mine + rest;
    SamePrefix(mine, others, rest);
  }

  lemma KnownStep(bits: seq<bool>, t: Token, rest: seq<bool>, dict: seq<Text>, last: Text, out: Text)
    requires |dict| >= BASE_SIZE && IsToken(t, |dict|) && !t.End?
    requires rest != [] && bits == TokenBits(t, CodeWidth(|dict|)) + rest
    ensures var str := Resolve(dict, last, t, Rune);
            DecodeRest(bits, dict, last, out) == DecodeRest(rest, Grow(dict, last, t, str), str, out + str)
  {
    KnownFits(dict, t);
    ParsePrinted(t, CodeWidth(|dict|), rest);
  }

  lemma UnknownStep(bits: seq<bool>, code: nat, dict: seq<Text>, last: Text, out: Text)
    requires |dict| >= BASE_SIZE && |dict| < code < Pow2(CodeWidth(|dict|)) && Field(code, CodeWidth(|dict|)) < bits
    ensures DecodeRest(bits, dict, last, out) == BadCode(out)
  {
    var w := CodeWidth(|dict|);
    assert bits == Field(code, w) + bits[w..];
    ReadFieldOfField(code, w, bits[w..]);
  }

  lemma MeaningStep(t: Token, more: seq<Token>, dict: seq<Text>, last: Text, out: Text)
    requires |dict| >= BASE_SIZE && IsToken(t, |dict|) && !t.End?
    requires WellFormedRest(more + [End], |dict| + Growth(t))
    ensures WellFormedRest([t] + more + [End], |dict|)
    ensures var str := Resolve(dict, last, t, Rune);
            out + RestMeaning([t] + more + [End], dict, last, Rune)
            == out + str + RestMeaning(more + [End], Grow(dict, last, t, str), str, Rune)
  {
    ConsEnd(t, more, |dict|);
    assert ([t] + more + [End])[1..] == more + [End];
    var str := Resolve(dict, last, t, Rune);
    ConcatAssociates(out, str, RestMeaning(more + [End], Grow(dict, last, t, str), str, Rune));
  }

  lemma SamePrefix(mine: seq<bool>, others: seq<bool>, rest: seq<bool>)
    ensures mine + others < mine + rest <==> others < rest
  {
    if others < rest {
      ProperPrefix(mine, others, rest);
    }
    if mine + others < mine + rest {
      assert others == (mine + others)[|mine|..] == (mine + rest)[|mine|..|mine + others|] == rest[..|others|];
    }
  }

  lemma BreakingNow(bits: seq<bool>, code: nat, dict: seq<Text>, last: Text, out: Text)
    requires |dict| >= BASE_SIZE && IsBreak([], code, |dict|) && BreakBits([], code, |dict|) < bits
    ensures [] + [End] == [End]
    ensures DecodeRest(bits, dict, last, out) == BadCode(out + RestMeaning([End], dict, last, Rune))
  {
    BreakNow(code, |dict|);
    UnknownStep(bits, code, dict, last, out);
    assert out + [] == out;
  }

  lemma BreakingStep(
    bits: seq<bool>, t: Token, more: seq<Token>, rest: seq<bool>, dict: seq<Text>, last: Text, out: Text)
    requires |dict| >= BASE_SIZE && IsToken(t, |dict|) && !t.End?
    requires rest != [] && bits == TokenBits(t, CodeWidth(|dict|)) + rest
    requires WellFormedRest(more + [End], |dict| + Growth(t))
    requires var str := Resolve(dict, last, t, Rune);
             var dict' := Grow(dict, last, t, str);
             DecodeRest(rest, dict', str, out + str) == BadCode(out + str + RestMeaning(more + [End], dict', str, Rune))
    ensures WellFormedRest([t] + more + [End], |dict|)
    ensures DecodeRest(bits, dict, last, out) == BadCode(out + RestMeaning([t] + more + [End], dict, last, Rune))
  {
    KnownStep(bits, t, rest, dict, last, out);
    MeaningStep(t, more, dict, last, out);
  }

  /** Bits that break off like that end the loop with the meaning of the tokens before. */
  lemma {:induction false} BreakingRestIsBad(
    bits: seq<bool>, tokens: seq<Token>, code: nat, dict: seq<Text>, last: Text, out: Text)
    requires |dict| >= BASE_SIZE && IsBreak(tokens, code, |dict|) && BreakBits(tokens, code, |dict|) < bits
    ensures DecodeRest(bits, dict, last, out) == BadCode(out + RestMeaning(tokens + [End], dict, last, Rune))
    decreases |tokens|
  {
    if tokens == [] {
      BreakingNow(bits, code, dict, last, out);
    } else {
      var t, more := tokens[0], tokens[1..];
      BreakHead(tokens, code, |dict|);
      var rest := SplitBits(TokenBits(t, CodeWidth(|dict|)), BreakBits(more, code, |dict| + Growth(t)), bits);
      var str := Resolve(dict, last, t, Rune);
      BreakingRestIsBad(rest, more, code, Grow(dict, last, t, str), str, out + str);
      BreakingStep(bits, t, more, rest, dict, last, out);
      assert tokens == [t] + more;
    }
  }

  /** One round of a loop that ends in the error. */
  lemma BadStep(bits: seq<bool>, dict: seq<Text>, last: Text, out: Text)
    returns (t: Token, rest: seq<bool>, dict': seq<Text>, str: Text)
    requires |dict| >= BASE_SIZE && DecodeRest(bits, dict, last, out).BadCode?
    ensures rest != [] && !t.End? && bits == TokenBits(t, CodeWidth(|dict|)) + rest && |rest| < |bits|
    ensures Known(dict, t) ==>
              && IsToken(t, |dict|) && |dict'| == |dict| + Growth(t)
              && DecodeRest(bits, dict, last, out) == DecodeRest(rest, dict', str, out + str)
    ensures !Known(dict, t) ==>
              && t.Reference? && |dict| < t.code < Pow2(CodeWidth(|dict|))
              && DecodeRest(bits, dict, last, out) == BadCode(out)
  {
    var p := ParseToken(bits, CodeWidth(|dict|));
    PrintParsed(bits, CodeWidth(|dict|));
    t, rest, dict', str := p.token, p.rest, dict, last;
    if Known(dict, t) {
      str := Resolve(dict, last, t, Rune);
      dict' := Grow(dict, last, t, str);
    }
  }

  lemma ThenBreak(t: Token, more: seq<Token>, code: nat, rest: seq<bool>, bits: seq<bool>, n: nat)
    requires n >= BASE_SIZE && IsToken(t, n) && !t.End? && bits == TokenBits(t, CodeWidth(n)) + rest
    requires IsBreak(more, code, n + Growth(t)) && BreakBits(more, code, n + Growth(t)) < rest
    ensures IsBreak([t] + more, code, n) && BreakBits([t] + more, code, n) < bits
  {
    BreakLater(t, more, code, n);
    ProperPrefix(TokenBits(t, CodeWidth(n)), BreakBits(more, code, n + Growth(t)), rest);
  }

  /** And the loop ends in the error in no other way. */
  lemma {:induction false} BadRestBreaks(bits: seq<bool>, dict: seq<Text>, last: Text, out: Text)
    returns (tokens: seq<Token>, code: nat)
    requires |dict| >= BASE_SIZE && DecodeRest(bits, dict, last, out).BadCode?
    ensures IsBreak(tokens, code, |dict|) && BreakBits(tokens, code, |dict|) < bits
    decreases |bits|
  {
    var t, rest, dict', str := BadStep(bits, dict, last, out);
    if Known(dict, t) {
      var more;
      more, code := BadRestBreaks(rest, dict', str, out + str);
      tokens := [t] + more;
      ThenBreak(t, more, code, rest, bits, |dict|);
    } else {
      tokens, code := [], t.code;
      BreakNow(code, |dict|);
    }
  }

  /** The same for a whole input; the first code is never unknown. */
  predicate IsStreamBreak(tokens: seq<Token>, code: nat) {
    && tokens != [] && IsToken(tokens[0], BASE_SIZE) && !tokens[0].End?
    && IsBreak(tokens[1..], code, BASE_SIZE + FirstGrowth(tokens[0]))
  }

  function StreamBreakBits(tokens: seq<Token>, code: nat): seq<bool>
    requires tokens != []
  {
    TokenBits(tokens[0], FIRST_WIDTH) + BreakBits(tokens[1..], code, BASE_SIZE + FirstGrowth(tokens[0]))
  }

  /** The tokens would be a stream if it ended after them. */
  lemma BreakWasStream(tokens: seq<Token>, code: nat)
    requires IsStreamBreak(tokens, code)
    ensures WellFormed(tokens + [End])
    ensures var m := SizeAfter(tokens[1..], BASE_SIZE + FirstGrowth(tokens[0]));
            m < code && StreamBreakBits(tokens, code) == StreamBits(tokens) + Field(code, CodeWidth(m))
  {
    assert (tokens + [End])[1..] == tokens[1..] + [End];
  }

  lemma FirstStep(input: seq<Byte>, t: Token, rest: seq<bool>)
    requires IsToken(t, BASE_SIZE) && !t.End? && rest != [] && Unpack(input) == TokenBits(t, FIRST_WIDTH) + rest
    ensures var str := Resolve(BASE_DICTIONARY, [], t, Rune);
            Decode(input) == DecodeRest(rest, FirstDictionary(t, str), str, str)
  {
    Pow2Constants();
    assert t.Reference? ==> t.code == 3;
    ParsePrinted(t, FIRST_WIDTH, rest);
  }

  lemma FirstMeaning(tokens: seq<Token>, code: nat)
    requires IsStreamBreak(tokens, code)
    ensures WellFormed(tokens + [End])
    ensures var str := Resolve(BASE_DICTIONARY, [], tokens[0], Rune);
            Clean(Meaning(tokens + [End]))
            == str + RestMeaning(tokens[1..] + [End], FirstDictionary(tokens[0], str), str, Rune)
  {
    BreakWasStream(tokens, code);
    CleanMeaning(tokens + [End]);
    assert (tokens + [End])[1..] == tokens[1..] + [End];
  }

  lemma BreakingIsBad(input: seq<Byte>, tokens: seq<Token>, code: nat)
    requires IsStreamBreak(tokens, code) && StreamBreakBits(tokens, code) < Unpack(input)
    ensures WellFormed(tokens + [End])
    ensures Decode(input) == BadCode(Clean(Meaning(tokens + [End])))
  {
    var t, more := tokens[0], tokens[1..];
    var rest := SplitBits(TokenBits(t, FIRST_WIDTH), BreakBits(more, code, BASE_SIZE + FirstGrowth(t)), Unpack(input));
    FirstStep(input, t, rest);
    var str := Resolve(BASE_DICTIONARY, [], t, Rune);
    BreakingRestIsBad(rest, more, code, FirstDictionary(t, str), str, str);
    FirstMeaning(tokens, code);
  }

  /** The first token of an input that is refused, and the rest of it, which is refused. */
  lemma BadFirstStep(input: seq<Byte>) returns (t: Token, rest: seq<bool>)
    requires Decode(input).BadCode?
    ensures IsToken(t, BASE_SIZE) && !t.End? && Unpack(input) == TokenBits(t, FIRST_WIDTH) + rest
    ensures var str := Resolve(BASE_DICTIONARY, [], t, Rune);
            DecodeRest(rest, FirstDictionary(t, str), str, str).BadCode?
  {
    Pow2Constants();
    PrintParsed(Unpack(input), FIRST_WIDTH);
    var p := ParseToken(Unpack(input), FIRST_WIDTH);
    t, rest := p.token, p.rest;
  }

  lemma FirstThenBreak(t: Token, more: seq<Token>, code: nat, rest: seq<bool>, bits: seq<bool>)
    requires IsToken(t, BASE_SIZE) && !t.End? && bits == TokenBits(t, FIRST_WIDTH) + rest
    requires IsBreak(more, code, BASE_SIZE + FirstGrowth(t)) && BreakBits(more, code, BASE_SIZE + FirstGrowth(t)) < rest
    ensures IsStreamBreak([t] + more, code) && StreamBreakBits([t] + more, code) < bits
  {
    assert ([t] + more)[1..] == more;
    ProperPrefix(TokenBits(t, FIRST_WIDTH), BreakBits(more, code, BASE_SIZE + FirstGrowth(t)), rest);
  }

  lemma BadBreaks(input: seq<Byte>) returns (tokens: seq<Token>, code: nat)
    requires Decode(input).BadCode?
    ensures IsStreamBreak(tokens, code) && StreamBreakBits(tokens, code) < Unpack(input)
  {
    var t, rest := BadFirstStep(input);
    var str := Resolve(BASE_DICTIONARY, [], t, Rune);
    var more;
    more, code := BadRestBreaks(rest, FirstDictionary(t, str), str, str);
    FirstThenBreak(t, more, code, rest, Unpack(input));
    tokens := [t] + more;
  }

  /** Exactly which inputs are refused, and what is returned beside the error: the bits begin with
      tokens that a stream may go on with, whose meaning is returned, and go on with a code beyond
      the dictionary and at least one more bit. */
  lemma RefusesExactlyUnknownCodes(input: seq<Byte>, partial: Text)
    ensures Decode(input) == BadCode(partial) <==>
            exists tokens, code :: IsStreamBreak(tokens, code) && StreamBreakBits(tokens, code) < Unpack(input)
                                   && WellFormed(tokens + [End]) && partial == Clean(Meaning(tokens + [End]))
  {
    if Decode(input) == BadCode(partial) {
      var tokens, code := BadBreaks(input);
      BreakingIsBad(input, tokens, code);
      assert IsStreamBreak(tokens, code) && StreamBreakBits(tokens, code) < Unpack(input)
          && WellFormed(tokens + [End]) && partial == Clean(Meaning(tokens + [End]));
    }
    if tokens, code :| IsStreamBreak(tokens, code) && StreamBreakBits(tokens, code) < Unpack(input)
                       && WellFormed(tokens + [End]) && partial == Clean(Meaning(tokens + [End])) {
      BreakingIsBad(input, tokens, code);
    }
  }

  // ---------------------------------------------------------------- every text has a stream

  lemma {:induction false} LiteralRest(text: Text, dict: seq<Text>, last: Text) returns (tokens: seq<Token>)
    ensures WellFormedRest(tokens, |dict|) && RestMeaning(tokens, dict, last, Raw) == text
    decreases |text|
  {
    if text == [] {
      tokens := [End];
    } else {
      var t: Token := Literal16(text[0]);
      var more := LiteralRest(text[1..], Grow(dict, last, t, [text[0]]), [text[0]]);
      tokens := [t] + more;
      assert tokens[1..] == more;
      assert [text[0]] + text[1..] == text;
    }
  }

  /** Every text can be written, so the theorems above speak of all texts. */
  lemma EveryTextHasStream(text: Text) returns (tokens: seq<Token>)
    ensures FromEncoder(tokens) && Meaning(tokens) == text
  {
    if text == [] {
      tokens := [End];
    } else {
      var t: Token := Literal16(text[0]);
      var more := LiteralRest(text[1..], FirstDictionary(t, [text[0]]), [text[0]]);
      tokens := [t] + more;
      assert tokens[1..] == more;
      assert [text[0]] + text[1..] == text;
    }
  }

  /** The round trip holds for exactly the texts without UTF-16 surrogates. */
  lemma RoundTripIffNoSurrogates(tokens: seq<Token>, padding: seq<bool>)
    requires FromEncoder(tokens) && padding != []
    requires (|StreamBits(tokens)| + |padding|) % 6 == 0
    ensures Decode(Pack(StreamBits(tokens) + padding)) == Decoded(Meaning(tokens)) <==> !HasSurrogate(Meaning(tokens))
  {
    DecodeUndoesPacking(tokens, padding);
    CleanIsIdentity(Meaning(tokens));
  }

  // ---------------------------------------------------------------- the dictionary explains itself

  predicate IsFactorAt(s: Text, of: Text, i: nat) {
    i + |s| <= |of| && of[i..i + |s|] == s
  }

  predicate IsFactor(s: Text, of: Text) {
    exists i: nat :: i <= |of| && IsFactorAt(s, of, i)
  }

  predicate IsSuffix(s: Text, of: Text) {
    |s| <= |of| && of[|of| - |s|..] == s
  }

  /** Every entry a token defined is a non-empty stretch of what has been written. */
  predicate Explained(dict: seq<Text>, last: Text, out: Text) {
    && |dict| >= BASE_SIZE
    && last != [] && IsSuffix(last, out)
    && forall k :: BASE_SIZE <= k < |dict| ==> dict[k] != [] && IsFactor(dict[k], out)
  }

  lemma FactorGrows(s: Text, out: Text, more: Text)
    requires IsFactor(s, out)
    ensures IsFactor(s, out + more)
  {
    var i: nat :| i <= |out| && IsFactorAt(s, out, i);
    assert IsFactorAt(s, out + more, i);
  }

  /** One round of the loop keeps that, and a code equal to the size of the dictionary stands for
      the entry which the same round then adds. */
  lemma GrowKeepsExplained(dict: seq<Text>, last: Text, out: Text, t: Token)
    requires Explained(dict, last, out) && IsToken(t, |dict|) && !t.End?
    ensures var str := Resolve(dict, last, t, Rune);
            t.Reference? && t.code == |dict| ==> Grow(dict, last, t, str)[t.code] == str
    ensures var str := Resolve(dict, last, t, Rune); Explained(Grow(dict, last, t, str), str, out + str)
  {
    var str := Resolve(dict, last, t, Rune);
    var dict', out' := Grow(dict, last, t, str), out + str;
    assert out'[|out'| - |str|..] == str;
    forall k | BASE_SIZE <= k < |dict'| ensures dict'[k] != [] && IsFactor(dict'[k], out') {
      if k < |dict| {
        FactorGrows(dict[k], out, str);
      } else if k < |dict'| - 1 {
        assert IsFactorAt(dict'[k], out', |out|);
      } else {
        var i := |out| - |last|;
        assert dict'[k] == last + [str[0]];
        assert IsFactorAt(dict'[k], out', i);
      }
    }
  }

  lemma FirstDictionaryExplained(t: Token)
    requires IsToken(t, BASE_SIZE) && !t.End?
    ensures var str := Resolve(BASE_DICTIONARY, [], t, Rune);
            Explained(FirstDictionary(t, str), str, str)
  {
    var str := Resolve(BASE_DICTIONARY, [], t, Rune);
    assert IsFactorAt(str, str, 0);
  }
}
