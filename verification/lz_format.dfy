/**
 The LZ-string "encoded URI component" format, as a specification.

 Three layers are defined here, none of which mentions the decoder's registers:
 - characters of the URI-safe alphabet carry six bits each, most significant bit first;
 - the bit stream is a sequence of tokens, whose fields are least significant bit first and
   whose code width grows with the dictionary;
 - a sequence of tokens denotes a text.
 */
module LZFormat {
  import opened Powers

  /** A byte of the input string. */
  type Byte = b: int | 0 <= b < 0x100

  /** A UTF-16 code unit. Every character the decoder emits fits in one. */
  type Unit = u: int | 0 <= u < 0x1_0000

  type Text = seq<Unit>

  // ---------------------------------------------------------------- characters and bits

  /** The alphabet "A-Za-z0-9+-$"; any other byte reads as 0, like a missing Go map entry. */
  function BaseValue(c: Byte): (v: nat)
    ensures v <= 64
  {
    if 65 <= c <= 90 then c - 65
    else if 97 <= c <= 122 then c - 71
    else if 48 <= c <= 57 then c + 4
    else if c == 43 then 62
    else if c == 45 then 63
    else if c == 36 then 64
    else 0
  }

  /** The character an encoder writes for six bits. */
  function Alphabet(v: nat): (c: Byte)
    requires v < 64
    ensures BaseValue(c) == v
  {
    if v < 26 then v + 65
    else if v < 52 then v + 71
    else if v < 62 then v - 4
    else if v == 62 then 43
    else 45
  }

  const UPPER := "ABCDEFGHIJKLMNOPQRSTUVWXYZ"
  const LOWER := "abcdefghijklmnopqrstuvwxyz"
  const FIGURES := "0123456789+-$"

  lemma UpperValue(i: nat)
    requires i < 26
    ensures |UPPER| == 26 && UPPER[i] as int == 65 + i
  {
  }

  lemma LowerValue(i: nat)
    requires i < 26
    ensures |LOWER| == 26 && LOWER[i] as int == 97 + i
  {
  }

  lemma FigureValue(i: nat)
    requires i < 13
    ensures |FIGURES| == 13 && FIGURES[i] as int == if i < 10 then 48 + i else [43, 45, 36][i - 10]
  {
  }

  lemma ConcatAt(a: string, b: string, c: string, i: nat)
    requires i < |a| + |b| + |c|
    ensures (a + b + c)[i] == if i < |a| then a[i] else if i < |a| + |b| then b[i - |a|] else c[i - |a| - |b|]
  {
  }

  lemma PlaceHasValue(v: nat, letters: string)
    requires v < 65 && letters == UPPER + LOWER + FIGURES
    ensures |letters| == 65 && letters[v] as int < 0x100 && BaseValue(letters[v] as int) == v
  {
    UpperValue(0);
    LowerValue(0);
    FigureValue(0);
    ConcatAt(UPPER, LOWER, FIGURES, v);
    if v < 26 {
      UpperValue(v);
    } else if v < 52 {
      LowerValue(v - 26);
    } else {
      FigureValue(v - 52);
    }
  }

  /** The value of a character is its place in the alphabet, and 0 for any other byte. */
  lemma BaseValueIsPlace(c: Byte, letters: string)
    requires letters == UPPER + LOWER + FIGURES
    ensures |letters| == 65
    ensures forall v :: 0 <= v < 65 && letters[v] as int == c ==> BaseValue(c) == v
    ensures (forall v :: 0 <= v < 65 ==> letters[v] as int != c) ==> BaseValue(c) == 0
  {
    forall v: nat | v < 65 ensures |letters| == 65 && 0 <= letters[v] as int < 0x100
                                && BaseValue(letters[v] as int) == v {
      PlaceHasValue(v, letters);
    }
    PlaceHasValue(BaseValue(c), letters);
    SameValue(c, letters[BaseValue(c)] as int);
  }

  lemma SameValue(b: Byte, c: Byte)
    ensures BaseValue(b) == BaseValue(c) > 0 ==> b == c
  {
  }

  /** The mask that selects bit `j` of a character, counting from the most significant. */
  function Mask(j: nat): (m: nat)
    requires j < 6
    ensures m > 0
  {
    if j == 0 then 32 else if j == 1 then 16 else if j == 2 then 8 else if j == 3 then 4 else if j == 4 then 2 else 1
  }

  predicate BitOf(v: nat, mask: nat)
    requires mask > 0
  {
    v / mask % 2 == 1
  }

  predicate BitAt(input: seq<Byte>, i: nat)
    requires i < 6 * |input|
  {
    BitOf(BaseValue(input[i / 6]), Mask(i % 6))
  }

  /** The flat bit stream of an input. */
  function Unpack(input: seq<Byte>): (bits: seq<bool>)
    ensures |bits| == 6 * |input|
  {
    seq(6 * |input|, i requires 0 <= i < 6 * |input| => BitAt(input, i))
  }

  function BitValue(b: bool): nat { if b then 1 else 0 }

  function SixBits(bits: seq<bool>): (v: nat)
    requires |bits| == 6
    ensures v < 64
  {
    32 * BitValue(bits[0]) + 16 * BitValue(bits[1]) + 8 * BitValue(bits[2])
    + 4 * BitValue(bits[3]) + 2 * BitValue(bits[4]) + BitValue(bits[5])
  }

  /** What an encoder writes for a bit stream cut into sixes. */
  function Pack(bits: seq<bool>): (input: seq<Byte>)
    requires |bits| % 6 == 0
    ensures |input| == |bits| / 6
  {
    seq(|bits| / 6, k requires 0 <= k < |bits| / 6 => Alphabet(SixBits(bits[6 * k..6 * k + 6])))
  }

  lemma BitOfSum(v: nat, mask: nat, high: nat, bit: nat, low: nat)
    requires mask in {1, 2, 4, 8, 16, 32} && low < mask && bit < 2
    requires v == mask * (2 * high + bit) + low
    ensures BitOf(v, mask) == (bit == 1)
  {
    var q := 2 * high + bit;
    if mask == 32 {
      assert v / 32 == q;
    } else if mask == 16 {
      assert v / 16 == q;
    } else if mask == 8 {
      assert v / 8 == q;
    } else if mask == 4 {
      assert v / 4 == q;
    } else if mask == 2 {
      assert v / 2 == q;
    }
  }

  lemma SixBitsOf(bits: seq<bool>, j: nat)
    requires |bits| == 6 && j < 6
    ensures BitOf(SixBits(bits), Mask(j)) == bits[j]
  {
    var v := SixBits(bits);
    var b0, b1, b2 := BitValue(bits[0]), BitValue(bits[1]), BitValue(bits[2]);
    var b3, b4, b5 := BitValue(bits[3]), BitValue(bits[4]), BitValue(bits[5]);
    var q := 4 * b0 + 2 * b1 + b2;
    match j
    case 0 => BitOfSum(v, 32, 0, b0, 16 * b1 + 8 * b2 + 4 * b3 + 2 * b4 + b5);
    case 1 => BitOfSum(v, 16, b0, b1, 8 * b2 + 4 * b3 + 2 * b4 + b5);
    case 2 => BitOfSum(v, 8, 2 * b0 + b1, b2, 4 * b3 + 2 * b4 + b5);
    case 3 => BitOfSum(v, 4, q, b3, 2 * b4 + b5);
    case 4 => BitOfSum(v, 2, 2 * q + b3, b4, b5);
    case 5 => BitOfSum(v, 1, 4 * q + 2 * b3 + b4, b5, 0);
  }

  /** Mapping bits to the alphabet loses nothing. */
  lemma UnpackPack(bits: seq<bool>)
    requires |bits| % 6 == 0
    ensures Unpack(Pack(bits)) == bits
  {
    var input := Pack(bits);
    forall i: nat | i < |bits| ensures Unpack(input)[i] == bits[i] {
      var k := i / 6;
      SixBitsOf(bits[6 * k..6 * k + 6], i % 6);
    }
  }

  // ---------------------------------------------------------------- fields

  /** The value of a field: the first bit of the stream is the least significant one. */
  function FieldValue(bits: seq<bool>): nat {
    if bits == [] then 0 else BitValue(bits[0]) + 2 * FieldValue(bits[1..])
  }

  function Field(v: nat, width: nat): (bits: seq<bool>)
    ensures |bits| == width
  {
    if width == 0 then [] else [v % 2 == 1] + Field(v / 2, width - 1)
  }

  lemma {:induction false} FieldValueOfField(v: nat, width: nat)
    requires v < Pow2(width)
    ensures FieldValue(Field(v, width)) == v
  {
    if width > 0 {
      FieldValueOfField(v / 2, width - 1);
      assert Field(v, width)[1..] == Field(v / 2, width - 1);
    }
  }

  lemma {:induction false} FieldOfFieldValue(bits: seq<bool>)
    ensures FieldValue(bits) < Pow2(|bits|)
    ensures Field(FieldValue(bits), |bits|) == bits
  {
    if bits != [] {
      FieldOfFieldValue(bits[1..]);
      assert bits == [bits[0]] + bits[1..];
    }
  }

  /** One more bit adds the power of two of its position: how a reader accumulates a field. */
  lemma {:induction false} FieldValueSnoc(bits: seq<bool>, b: bool)
    ensures FieldValue(bits + [b]) == FieldValue(bits) + Pow2(|bits|) * BitValue(b)
  {
    if bits == [] {
      assert [b][1..] == [];
    } else {
      FieldValueSnoc(bits[1..], b);
      assert (bits + [b])[1..] == bits[1..] + [b];
    }
  }

  // ---------------------------------------------------------------- tokens

  datatype Token =
    | Literal8(unit: Unit)
    | Literal16(unit: Unit)
    | Reference(code: nat)
    | End
  {
    predicate IsLiteral() { Literal8? || Literal16? }
  }

  /** The width of a code read while the dictionary holds `n` entries: the least width, but at
      least 3, in which every code up to and including `n` fits. */
  function CodeWidth(n: nat): (w: nat)
    requires n >= 3
    ensures w >= 3
  {
    if n < 8 then 3 else 1 + CodeWidth(n / 2)
  }

  /** The very first code is read in two bits. */
  const FIRST_WIDTH: nat := 2

  lemma {:induction false} CodeWidthBounds(n: nat)
    requires n >= 3
    ensures n < Pow2(CodeWidth(n))
    ensures CodeWidth(n) > 3 ==> Pow2(CodeWidth(n) - 1) <= n
  {
    if n < 8 {
      assert Pow2(3) == 8;
    } else {
      CodeWidthBounds(n / 2);
      if CodeWidth(n / 2) == 3 {
        assert Pow2(3) == 8;
      }
    }
  }

  lemma {:induction false} Pow2Monotone(a: nat, b: nat)
    requires a <= b
    ensures Pow2(a) <= Pow2(b)
  {
    if a < b {
      Pow2Monotone(a, b - 1);
    }
  }

  /** The two bounds determine the width. */
  lemma CodeWidthUnique(n: nat, w: nat)
    requires n >= 3 && w >= 3
    requires n < Pow2(w)
    requires w > 3 ==> Pow2(w - 1) <= n
    ensures w == CodeWidth(n)
  {
    CodeWidthBounds(n);
    if w < CodeWidth(n) {
      Pow2Monotone(w, CodeWidth(n) - 1);
    } else if CodeWidth(n) < w {
      Pow2Monotone(CodeWidth(n), w - 1);
    }
  }

  function TokenBits(t: Token, width: nat): seq<bool> {
    match t
    case Literal8(u) => Field(0, width) + Field(u, 8)
    case Literal16(u) => Field(1, width) + Field(u, 16)
    case Reference(c) => Field(c, width)
    case End => Field(2, width)
  }

  /** How many entries a token adds to a dictionary of a stream that is under way. */
  function Growth(t: Token): nat { if t.IsLiteral() then 2 else 1 }

  function FirstGrowth(t: Token): nat { if t.IsLiteral() then 1 else 0 }

  const BASE_SIZE: nat := 3

  /** The bits of the tokens that follow when the dictionary holds `n` entries. */
  function RestBits(tokens: seq<Token>, n: nat): seq<bool>
    requires n >= BASE_SIZE
  {
    if tokens == [] then []
    else TokenBits(tokens[0], CodeWidth(n)) + RestBits(tokens[1..], n + Growth(tokens[0]))
  }

  function StreamBits(tokens: seq<Token>): seq<bool>
    requires tokens != []
  {
    TokenBits(tokens[0], FIRST_WIDTH) + RestBits(tokens[1..], BASE_SIZE + FirstGrowth(tokens[0]))
  }

  predicate IsToken(t: Token, n: nat) {
    match t
    case Literal8(u) => u < 0x100
    case Literal16(_) => true
    case Reference(c) => BASE_SIZE <= c <= n
    case End => true
  }

  /** The tokens end with their only `End`, and refer to nothing beyond the entry being defined. */
  predicate WellFormedRest(tokens: seq<Token>, n: nat) {
    && tokens != []
    && IsToken(tokens[0], n)
    && (if tokens[0].End? then |tokens| == 1 else WellFormedRest(tokens[1..], n + Growth(tokens[0])))
  }

  /** Streams a decoder reads to the end: an opening `Reference(3)` is readable, although no
      encoder writes one (see `FromEncoder`). */
  predicate WellFormed(tokens: seq<Token>) {
    && tokens != []
    && IsToken(tokens[0], BASE_SIZE)
    && (if tokens[0].End? then |tokens| == 1
        else WellFormedRest(tokens[1..], BASE_SIZE + FirstGrowth(tokens[0])))
  }

  /** Streams an encoder can write: there is nothing to refer to yet at the start. */
  predicate FromEncoder(tokens: seq<Token>) {
    WellFormed(tokens) && !tokens[0].Reference?
  }

  // ---------------------------------------------------------------- meaning

  /** What a 16-bit unit becomes when it is turned into a one-character Go string. */
  function Rune(u: Unit): Unit {
    if 0xD800 <= u <= 0xDFFF then 0xFFFD else u
  }

  /** A unit as an encoder saw it. */
  function Raw(u: Unit): Unit { u }

  function Clean(t: Text): (r: Text)
    ensures |r| == |t|
  {
    seq(|t|, i requires 0 <= i < |t| => Rune(t[i]))
  }

  predicate HasSurrogate(t: Text) {
    exists i :: 0 <= i < |t| && 0xD800 <= t[i] <= 0xDFFF
  }

  /** The first character; an empty string yields the replacement character. */
  function First(t: Text): Unit { if t == [] then 0xFFFD else t[0] }

  /** The dictionary of a stream: three reserved codes, then entries that tokens define. */
  const BASE_DICTIONARY: seq<Text> := [[48], [49], [50]]

  /** The text one token stands for. `units` says how a literal unit is turned into a character. */
  function Resolve(dict: seq<Text>, last: Text, t: Token, units: Unit -> Unit): Text
    requires !t.End? && (t.Reference? ==> t.code <= |dict|)
  {
    match t
    case Literal8(u) => [units(u)]
    case Literal16(u) => [units(u)]
    case Reference(c) => if c < |dict| then dict[c] else last + [First(last)]
  }

  /** A token defines its literal, if it is one, and then the previous text with one more character. */
  function Grow(dict: seq<Text>, last: Text, t: Token, str: Text): (r: seq<Text>)
    ensures |r| == |dict| + Growth(t)
  {
    (if t.IsLiteral() then dict + [str] else dict) + [last + [First(str)]]
  }

  function FirstDictionary(t: Token, str: Text): (r: seq<Text>)
    ensures |r| == BASE_SIZE + FirstGrowth(t)
  {
    if t.IsLiteral() then BASE_DICTIONARY + [str] else BASE_DICTIONARY
  }

  function RestMeaning(tokens: seq<Token>, dict: seq<Text>, last: Text, units: Unit -> Unit): Text
    requires WellFormedRest(tokens, |dict|)
    decreases |tokens|
  {
    if tokens[0].End? then []
    else
      var str := Resolve(dict, last, tokens[0], units);
      str + RestMeaning(tokens[1..], Grow(dict, last, tokens[0], str), str, units)
  }

  function MeaningWith(tokens: seq<Token>, units: Unit -> Unit): Text
    requires WellFormed(tokens)
  {
    if tokens[0].End? then []
    else
      var str := Resolve(BASE_DICTIONARY, [], tokens[0], units);
      str + RestMeaning(tokens[1..], FirstDictionary(tokens[0], str), str, units)
  }

  /** The UTF-16 text an encoder wrote the tokens for. */
  function Meaning(tokens: seq<Token>): Text
    requires WellFormed(tokens)
  {
    MeaningWith(tokens, Raw)
  }

  // ---------------------------------------------------------------- cleaning commutes with meaning

  function CleanAll(dict: seq<Text>): (r: seq<Text>)
    ensures |r| == |dict|
  {
    seq(|dict|, i requires 0 <= i < |dict| => Clean(dict[i]))
  }

  lemma CleanAppend(a: Text, b: Text)
    ensures Clean(a + b) == Clean(a) + Clean(b)
    ensures Clean(a + [First(b)]) == Clean(a) + [First(Clean(b))]
  {
  }

  lemma CleanResolve(dict: seq<Text>, last: Text, t: Token)
    requires !t.End? && (t.Reference? ==> t.code <= |dict|)
    ensures Resolve(CleanAll(dict), Clean(last), t, Rune) == Clean(Resolve(dict, last, t, Raw))
  {
    CleanAppend(last, last);
  }

  lemma CleanGrow(dict: seq<Text>, last: Text, t: Token, str: Text)
    ensures CleanAll(Grow(dict, last, t, str)) == Grow(CleanAll(dict), Clean(last), t, Clean(str))
  {
    CleanAppend(last, str);
  }

  lemma {:induction false} CleanRestMeaning(tokens: seq<Token>, dict: seq<Text>, last: Text)
    requires WellFormedRest(tokens, |dict|)
    ensures RestMeaning(tokens, CleanAll(dict), Clean(last), Rune)
         == Clean(RestMeaning(tokens, dict, last, Raw))
    decreases |tokens|
  {
    if !tokens[0].End? {
      var str := Resolve(dict, last, tokens[0], Raw);
      CleanResolve(dict, last, tokens[0]);
      CleanGrow(dict, last, tokens[0], str);
      CleanRestMeaning(tokens[1..], Grow(dict, last, tokens[0], str), str);
      CleanAppend(str, RestMeaning(tokens[1..], Grow(dict, last, tokens[0], str), str, Raw));
    }
  }

  /** Turning every literal into a Go character, one by one and before any reference copies it,
      is the same as replacing the surrogates of the whole text. */
  lemma CleanMeaning(tokens: seq<Token>)
    requires WellFormed(tokens)
    ensures MeaningWith(tokens, Rune) == Clean(Meaning(tokens))
  {
    if !tokens[0].End? {
      var str := Resolve(BASE_DICTIONARY, [], tokens[0], Raw);
      var dict := FirstDictionary(tokens[0], str);
      CleanResolve(BASE_DICTIONARY, [], tokens[0]);
      forall i | 0 <= i < BASE_SIZE ensures Clean(BASE_DICTIONARY[i]) == BASE_DICTIONARY[i] {
      }
      assert CleanAll(BASE_DICTIONARY) == BASE_DICTIONARY;
      assert CleanAll(dict) == FirstDictionary(tokens[0], Clean(str));
      CleanRestMeaning(tokens[1..], dict, str);
      CleanAppend(str, RestMeaning(tokens[1..], dict, str, Raw));
    }
  }

  lemma CleanIsIdentity(t: Text)
    ensures Clean(t) == t <==> !HasSurrogate(t)
  {
    if HasSurrogate(t) {
      var i :| 0 <= i < |t| && 0xD800 <= t[i] <= 0xDFFF;
      assert Clean(t)[i] != t[i];
    }
  }
}
