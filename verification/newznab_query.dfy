/**
 The parameters of a newznab search: printed into URL values, and parsed from them key by key,
 in whatever order Go yields the map, and whatever the case of the keys.
 */
module NewznabQuery {
  import opened MapOrders
  import opened Wrappers
  import opened Strings
  import opened Decimal
  import opened CommaList

  /** A missing list of categories and an empty one are the same here. */
  datatype Query = Query(
    kind: string,
    q: string,
    ep: string,
    season: string,
    year: Int,
    limit: Int,
    offset: Int,
    extended: bool,
    categories: seq<Int>,
    apiKey: string,
    imdbId: string)

  const EMPTY := Query("", "", "", "", 0, 0, 0, false, [], "", "")

  type Values = map<string, seq<string>>

  // ---------------------------------------------------------------- parameter names

  datatype Param = T | Q | Ep | Season | Year | Limit | Offset | Extended | Cat | ApiKey | ImdbId

  function Key(p: Param): string {
    match p
    case T => "t"
    case Q => "q"
    case Ep => "ep"
    case Season => "season"
    case Year => "year"
    case Limit => "limit"
    case Offset => "offset"
    case Extended => "extended"
    case Cat => "cat"
    case ApiKey => "apikey"
    case ImdbId => "imdbid"
  }

  function ParamOf(key: string): Option<Param> {
    match key
    case "t" => Some(T)
    case "q" => Some(Q)
    case "ep" => Some(Ep)
    case "season" => Some(Season)
    case "year" => Some(Year)
    case "limit" => Some(Limit)
    case "offset" => Some(Offset)
    case "extended" => Some(Extended)
    case "cat" => Some(Cat)
    case "apikey" => Some(ApiKey)
    case "imdbid" => Some(ImdbId)
    case _ => None
  }

  function LowerChar(c: char): char {
    if 'A' <= c <= 'Z' then (c as int + 32) as char else c
  }

  function Lower(s: string): (r: string)
    ensures |r| == |s|
  {
    seq(|s|, i requires 0 <= i < |s| => LowerChar(s[i]))
  }

  lemma ParamOfKey(p: Param)
    ensures Lower(Key(p)) == Key(p) && ParamOf(Key(p)) == Some(p)
  {
  }

  // ---------------------------------------------------------------- printing

  function TrimPrefix(s: string, prefix: string): string {
    if prefix <= s then s[|prefix|..] else s
  }

  predicate IsSet(query: Query, p: Param) {
    match p
    case T => true
    case Q => query.q != ""
    case Ep => query.ep != ""
    case Season => query.season != ""
    case Year => query.year != 0
    case Limit => query.limit != 0
    case Offset => query.offset != 0
    case Extended => query.extended
    case Cat => query.categories != []
    case ApiKey => query.apiKey != ""
    case ImdbId => query.imdbId != ""
  }

  function Text(query: Query, p: Param): string {
    match p
    case T => query.kind
    case Q => query.q
    case Ep => query.ep
    case Season => query.season
    case Year => Itoa(query.year)
    case Limit => Itoa(query.limit)
    case Offset => Itoa(query.offset)
    case Extended => "1"
    case Cat => Join(Printed(query.categories), ',')
    case ApiKey => query.apiKey
    case ImdbId => TrimPrefix(query.imdbId, "tt")
  }

  predicate Shown(query: Query, v: Values, p: Param) {
    if IsSet(query, p) then Key(p) in v && v[Key(p)] == [Text(query, p)] else Key(p) !in v
  }

  /** The order in which the fields are printed. */
  function Rank(p: Param): nat {
    match p
    case T => 0
    case Q => 1
    case Ep => 2
    case Season => 3
    case Year => 4
    case Offset => 5
    case Limit => 6
    case Extended => 7
    case ApiKey => 8
    case Cat => 9
    case ImdbId => 10
  }

  /** Of the first `n` fields, those that are set have their key with one value, and there are no
      other keys. */
  ghost predicate PrintsSome(query: Query, v: Values, n: nat) {
    && (forall key :: key in v ==> IsKeyBelow(key, n))
    && (forall p :: Rank(p) < n ==> Shown(query, v, p))
  }

  predicate IsKeyBelow(key: string, n: nat) {
    match ParamOf(key)
    case None => false
    case Some(p) => key == Key(p) && Rank(p) < n
  }

  /** Every field that is set, and nothing else. */
  ghost predicate Prints(query: Query, v: Values) {
    PrintsSome(query, v, 11)
  }

  lemma PrintOne(query: Query, v: Values, p: Param)
    requires PrintsSome(query, v, Rank(p))
    ensures PrintsSome(query, if IsSet(query, p) then v[Key(p) := [Text(query, p)]] else v, Rank(p) + 1)
  {
    var w := if IsSet(query, p) then v[Key(p) := [Text(query, p)]] else v;
    ParamOfKey(p);
    assert Key(p) !in v;
    forall r: Param | Rank(r) < Rank(p) + 1 ensures Shown(query, w, r) {
      ParamOfKey(r);
      RankInjective(p, r);
      assert Rank(r) < Rank(p) ==> Shown(query, v, r);
    }
  }

  lemma RankInjective(p: Param, r: Param)
    ensures Rank(p) == Rank(r) ==> p == r
  {
  }

  method ToValues(query: Query) returns (v: Values)
    ensures Prints(query, v)
  {
    v := PrintTexts(query);
    v := PrintNumbers(query, v);
    v := PrintRest(query, v);
  }

  method PrintTexts(query: Query) returns (v: Values)
    ensures PrintsSome(query, v, 4)
  {
    PrintOne(query, map[], T);
    v := map["t" := [query.kind]];
    PrintOne(query, v, Q);
    if query.q != "" {
      v := v["q" := [query.q]];
    }
    PrintOne(query, v, Ep);
    if query.ep != "" {
      v := v["ep" := [query.ep]];
    }
    PrintOne(query, v, Season);
    if query.season != "" {
      v := v["season" := [query.season]];
    }
  }

  method PrintNumbers(query: Query, v0: Values) returns (v: Values)
    requires PrintsSome(query, v0, 4)
    ensures PrintsSome(query, v, 7)
  {
    v := v0;
    PrintOne(query, v, Year);
    if query.year != 0 {
      v := v["year" := [Itoa(query.year)]];
    }
    PrintOne(query, v, Offset);
    if query.offset != 0 {
      v := v["offset" := [Itoa(query.offset)]];
    }
    PrintOne(query, v, Limit);
    if query.limit != 0 {
      v := v["limit" := [Itoa(query.limit)]];
    }
  }

  method PrintRest(query: Query, v0: Values) returns (v: Values)
    requires PrintsSome(query, v0, 7)
    ensures Prints(query, v)
  {
    v := v0;
    PrintOne(query, v, Extended);
    if query.extended {
      v := v["extended" := ["1"]];
    }
    PrintOne(query, v, ApiKey);
    if query.apiKey != "" {
      v := v["apikey" := [query.apiKey]];
    }
    PrintOne(query, v, Cat);
    if |query.categories| > 0 {
      var cats := PrintCategories(query.categories);
      v := v["cat" := [Join(cats, ',')]];
    }
    PrintOne(query, v, ImdbId);
    if query.imdbId != "" {
      v := v["imdbid" := [TrimPrefix(query.imdbId, "tt")]];
    }
  }

  method PrintCategories(categories: seq<Int>) returns (cats: seq<string>)
    ensures cats == Printed(categories)
  {
    cats := [];
    for i := 0 to |categories|
      invariant cats == Printed(categories[..i])
    {
      cats := cats + [Itoa(categories[i])];
    }
    assert categories[..|categories|] == categories;
  }

  // ---------------------------------------------------------------- parsing

  /** An error names the parameter that caused it; `OutOfRange` is the run-time panic of taking the
      first of no values. */
  datatype Parsed = Ok(query: Query) | Err(param: Param) | OutOfRange

  /** All the integers of a comma-separated list, or nothing. */
  function SplitInts(s: string): Option<seq<Int>> {
    var parts := Split(s, ',');
    if Readable(parts) == |parts| then Some(Filled(parts)) else None
  }

  function AllInts(vals: seq<string>): Option<seq<Int>> {
    if vals == [] then Some([])
    else
      match AllInts(vals[..|vals| - 1])
      case None => None
      case Some(before) =>
        match SplitInts(vals[|vals| - 1]) { case None => None case Some(ints) => Some(before + ints) }
  }

  predicate IsSingle(p: Param) {
    p != Q && p != Extended && p != Cat
  }

  predicate IsNumeric(p: Param) {
    p == Ep || p == Season || p == Year || p == Limit || p == Offset
  }

  predicate TakesFirst(p: Param) {
    p != Q && p != Cat
  }

  /** What one parameter does to the query. */
  function WithParam(query: Query, p: Param, vals: seq<string>): Parsed {
    if IsSingle(p) && |vals| > 1 then Err(p)
    else if TakesFirst(p) && vals == [] then OutOfRange
    else if IsNumeric(p) && Atoi(vals[0]).None? then Err(p)
    else if p == Cat && AllInts(vals).None? then Err(p)
    else
      Ok(match p
         case T => query.(kind := vals[0])
         case Q => query.(q := Join(vals, ' '))
         case Ep => query.(ep := vals[0])
         case Season => query.(season := vals[0])
         case Year => query.(year := Atoi(vals[0]).value)
         case Limit => query.(limit := Atoi(vals[0]).value)
         case Offset => query.(offset := Atoi(vals[0]).value)
         case Extended => query.(extended := vals[0] == "1")
         case Cat => query.(categories := AllInts(vals).value)
         case ApiKey => query.(apiKey := vals[0])
         case ImdbId => query.(imdbId := if "tt" <= vals[0] then vals[0] else "tt" + vals[0]))
  }

  /** Keys that name no parameter are ignored. */
  function WithKey(query: Query, key: string, vals: seq<string>): Parsed {
    match ParamOf(Lower(key))
    case None => Ok(query)
    case Some(p) => WithParam(query, p, vals)
  }

  /** The keys one after the other; the first failure ends it. */
  function ParseKeys(v: Values, order: seq<string>): Parsed
    requires forall key :: key in order ==> key in v
  {
    if order == [] then Ok(EMPTY)
    else
      var key := order[|order| - 1];
      var before := ParseKeys(v, order[..|order| - 1]);
      if before.Ok? then WithKey(before.query, key, v[key]) else before
  }

  lemma ParseKeysSnoc(v: Values, order: seq<string>, key: string)
    requires key in v && forall key :: key in order ==> key in v
    ensures var before := ParseKeys(v, order);
            ParseKeys(v, order + [key]) == if before.Ok? then WithKey(before.query, key, v[key]) else before
  {
    assert (order + [key])[..|order|] == order;
  }

  method ParseInts(s: string) returns (ints: Option<seq<Int>>)
    ensures ints == SplitInts(s)
  {
    var parts := Split(s, ',');
    var read := [];
    for i := 0 to |parts|
      invariant |read| == i
      invariant forall j :: 0 <= j < i ==> Atoi(parts[j]) == Some(read[j])
    {
      var v := Atoi(parts[i]);
      if v.None? {
        return None;
      }
      read := read + [v.value];
    }
    AllReadable(parts, read);
    ints := Some(read);
  }

  method ParseCategories(vals: seq<string>) returns (ints: Option<seq<Int>>)
    ensures ints == AllInts(vals)
  {
    var read := [];
    for i := 0 to |vals|
      invariant AllInts(vals[..i]) == Some(read)
    {
      assert vals[..i + 1][..i] == vals[..i];
      var more := ParseInts(vals[i]);
      if more.None? {
        FailureStays(vals, i + 1);
        return None;
      }
      read := read + more.value;
    }
    assert vals[..|vals|] == vals;
    ints := Some(read);
  }

  lemma {:induction false} FailureStays(vals: seq<string>, n: nat)
    requires n <= |vals| && AllInts(vals[..n]).None?
    ensures AllInts(vals).None?
  {
    if n == |vals| {
      assert vals[..n] == vals;
    } else {
      var rest := vals[..|vals| - 1];
      assert rest[..n] == vals[..n];
      FailureStays(rest, n);
    }
  }

  method ParseQuery(v: Values) returns (r: Parsed)
    ensures exists order, pending ::
              IsBegun(v, order, pending) && (r.Ok? ==> pending == {}) && r == ParseKeys(v, order)
  {
    ghost var order := [];
    r := Ok(EMPTY);
    var pending := v.Keys;
    while pending != {}
      invariant IsBegun(v, order, pending)
      invariant r.Ok? && r == ParseKeys(v, order)
      decreases |pending|
    {
      var key :| key in pending;
      NextKey(v, order, pending, key);
      ParseKeysSnoc(v, order, key);
      pending, order := pending - {key}, order + [key];
      r := ParseKey(r.query, key, v[key]);
      if !r.Ok? {
        return;
      }
    }
  }

  method ParseKey(query: Query, key: string, vals: seq<string>) returns (r: Parsed)
    ensures r == WithKey(query, key, vals)
  {
    match ParamOf(Lower(key))
    case None => r := Ok(query);
    case Some(p) => r := ParseParam(query, p, vals);
  }

  /** The first value of a parameter that must not have two. */
  method TakeOne(p: Param, vals: seq<string>) returns (text: string, failure: Option<Parsed>)
    ensures failure == if |vals| > 1 then Some(Err(p)) else if vals == [] then Some(OutOfRange) else None
    ensures failure.None? ==> text == vals[0]
  {
    if |vals| > 1 {
      return "", Some(Err(p));
    }
    if |vals| == 0 {
      return "", Some(OutOfRange);
    }
    return vals[0], None;
  }

  /** The same for a parameter that must be a number. */
  method TakeNumber(p: Param, vals: seq<string>) returns (text: string, n: Int, failure: Option<Parsed>)
    ensures failure == if |vals| > 1 then Some(Err(p)) else if vals == [] then Some(OutOfRange)
                       else if Atoi(vals[0]).None? then Some(Err(p)) else None
    ensures failure.None? ==> text == vals[0] && Atoi(text) == Some(n)
  {
    n := 0;
    text, failure := TakeOne(p, vals);
    if failure.None? {
      var number := Atoi(text);
      if number.None? {
        failure := Some(Err(p));
      } else {
        n := number.value;
      }
    }
  }

  /** The branches of the program, each of which checks and assigns. */
  method ParseParam(query: Query, p: Param, vals: seq<string>) returns (r: Parsed)
    ensures r == WithParam(query, p, vals)
  {
    var text, n, failure := "", 0, None;
    r := Ok(query);
    match p {
      case T =>
        text, failure := TakeOne(p, vals);
        r := Ok(query.(kind := text));
      case Q =>
        r := Ok(query.(q := Join(vals, ' ')));
      case Year =>
        text, n, failure := TakeNumber(p, vals);
        r := Ok(query.(year := n));
      case Ep =>
        text, n, failure := TakeNumber(p, vals);
        r := Ok(query.(ep := text));
      case Season =>
        text, n, failure := TakeNumber(p, vals);
        r := Ok(query.(season := text));
      case ApiKey =>
        text, failure := TakeOne(p, vals);
        r := Ok(query.(apiKey := text));
      case Limit =>
        text, n, failure := TakeNumber(p, vals);
        r := Ok(query.(limit := n));
      case Offset =>
        text, n, failure := TakeNumber(p, vals);
        r := Ok(query.(offset := n));
      case Cat =>
        var cats := ParseCategories(vals);
        if cats.None? {
          return Err(p);
        }
        r := Ok(query.(categories := cats.value));
      case ImdbId =>
        text, failure := TakeOne(p, vals);
        if !("tt" <= text) {
          text := "tt" + text;
        }
        r := Ok(query.(imdbId := text));
      case Extended =>
        if |vals| == 0 {
          return OutOfRange;
        }
        r := Ok(query.(extended := vals[0] == "1"));
    }
    if failure.Some? {
      r := failure.value;
    }
  }

  // ---------------------------------------------------------------- the round trip

  /** The queries that survive printing and parsing: the number-like strings are numbers, and the
      IMDb id begins with "tt", but not twice. */
  predicate Survives(query: Query) {
    && IsNumberOrEmpty(query.ep) && IsNumberOrEmpty(query.season)
    && (query.imdbId != "" ==> "tt" <= query.imdbId && !("tt" <= query.imdbId[2..]))
  }

  /** What becomes of an IMDb id. */
  function NormalId(id: string): string {
    var bare := TrimPrefix(id, "tt");
    if id == "" then "" else if "tt" <= bare then bare else "tt" + bare
  }

  /** The query as far as its parameters have been parsed. */
  function Partial(query: Query, done: set<Param>): Query {
    Query(
      if T in done then query.kind else "",
      if Q in done then query.q else "",
      if Ep in done then query.ep else "",
      if Season in done then query.season else "",
      if Year in done then query.year else 0,
      if Limit in done then query.limit else 0,
      if Offset in done then query.offset else 0,
      if Extended in done then query.extended else false,
      if Cat in done then query.categories else [],
      if ApiKey in done then query.apiKey else "",
      if ImdbId in done then NormalId(query.imdbId) else "")
  }

  predicate IsReadable(query: Query, p: Param) {
    (p == Ep ==> Atoi(query.ep).Some?) && (p == Season ==> Atoi(query.season).Some?)
  }

  lemma CategoriesSurvive(categories: seq<Int>)
    requires categories != []
    ensures AllInts([Join(Printed(categories), ',')]) == Some(categories)
  {
    var text := Join(Printed(categories), ',');
    forall p | p in Printed(categories) ensures ',' !in p {
      var i :| 0 <= i < |categories| && p == Itoa(categories[i]);
      ItoaChars(categories[i]);
    }
    SplitJoin(Printed(categories), ',');
    forall i | 0 <= i < |categories| ensures Atoi(Printed(categories)[i]) == Some(categories[i]) {
      AtoiItoa(categories[i]);
    }
    AllReadable(Printed(categories), categories);
    assert [text][..0] == [];
    assert AllInts([text][..0]) == Some([]);
    assert [] + categories == categories;
  }

  /** One more field of the query. */
  function Copied(part: Query, query: Query, p: Param): Query {
    match p
    case T => part.(kind := query.kind)
    case Q => part.(q := query.q)
    case Ep => part.(ep := query.ep)
    case Season => part.(season := query.season)
    case Year => part.(year := query.year)
    case Limit => part.(limit := query.limit)
    case Offset => part.(offset := query.offset)
    case Extended => part.(extended := query.extended)
    case Cat => part.(categories := query.categories)
    case ApiKey => part.(apiKey := query.apiKey)
    case ImdbId => part.(imdbId := NormalId(query.imdbId))
  }

  lemma PartialGrows(query: Query, done: set<Param>, p: Param)
    ensures Partial(query, done + {p}) == Copied(Partial(query, done), query, p)
  {
    match p
    case T =>
    case Q =>
    case Ep =>
    case Season =>
    case Year =>
    case Limit =>
    case Offset =>
    case Extended =>
    case Cat =>
    case ApiKey =>
    case ImdbId =>
  }

  /** Parsing one printed parameter gives the field back, unless it is a number-like string that
      is no number. */
  lemma ParamSurvives(part: Query, query: Query, p: Param)
    requires IsSet(query, p)
    ensures var r := WithParam(part, p, [Text(query, p)]);
            if IsReadable(query, p) then r == Ok(Copied(part, query, p)) else r.Err?
  {
    match p
    case Year => AtoiItoa(query.year);
    case Limit => AtoiItoa(query.limit);
    case Offset => AtoiItoa(query.offset);
    case Cat => CategoriesSurvive(query.categories);
    case _ =>
  }

  ghost function ParamsOf(order: seq<string>): set<Param> {
    set p: Param | Key(p) in order
  }

  lemma {:induction false} ParsePrinted(query: Query, v: Values, order: seq<string>)
    requires Prints(query, v) && forall key :: key in order ==> key in v
    ensures var r, done := ParseKeys(v, order), ParamsOf(order);
            if forall p :: p in done ==> IsReadable(query, p) then r == Ok(Partial(query, done)) else r.Err?
    decreases |order|
  {
    if order != [] {
      var rest, key := order[..|order| - 1], order[|order| - 1];
      assert order == rest + [key];
      assert IsKeyBelow(key, 11);
      var p := ParamOf(key).value;
      ParamOfKey(p);
      assert Shown(query, v, p);
      ParsePrinted(query, v, rest);
      ParseKeysSnoc(v, rest, key);
      ParamSurvives(Partial(query, ParamsOf(rest)), query, p);
      PartialGrows(query, ParamsOf(rest), p);
      ParamsOfSnoc(rest, p);
    }
  }

  lemma ParamsOfSnoc(order: seq<string>, p: Param)
    ensures ParamsOf(order + [Key(p)]) == ParamsOf(order) + {p}
  {
    ParamOfKey(p);
    forall r | Key(r) == Key(p) ensures r == p {
      ParamOfKey(r);
    }
  }

  lemma AllParsed(query: Query, v: Values, order: seq<string>)
    requires Prints(query, v) && IsOrder(v, order)
    ensures forall p :: p in ParamsOf(order) <==> IsSet(query, p)
  {
    forall p ensures p in ParamsOf(order) <==> IsSet(query, p) {
      assert Shown(query, v, p);
    }
  }

  lemma PartialOfAll(query: Query, done: set<Param>)
    requires forall p :: p in done <==> IsSet(query, p)
    ensures Partial(query, done) == query.(imdbId := NormalId(query.imdbId))
  {
    assert Q in done <==> query.q != "";
    assert Ep in done <==> query.ep != "";
    assert Season in done <==> query.season != "";
    assert ApiKey in done <==> query.apiKey != "";
    assert ImdbId in done <==> query.imdbId != "";
  }

  lemma NormalIdIff(id: string)
    ensures NormalId(id) == id <==> (id != "" ==> "tt" <= id && !("tt" <= id[2..]))
  {
    if "tt" <= id {
      assert id == "tt" + id[2..];
    }
  }

  lemma AllReadableIff(query: Query)
    ensures (forall p :: IsSet(query, p) ==> IsReadable(query, p))
        <==> IsNumberOrEmpty(query.ep) && IsNumberOrEmpty(query.season)
  {
    assert IsSet(query, Ep) ==> (IsReadable(query, Ep) <==> IsNumberOrEmpty(query.ep));
    assert IsSet(query, Season) ==> (IsReadable(query, Season) <==> IsNumberOrEmpty(query.season));
  }

  /** For every order of the keys, parsing what was printed gives the query back if and only if its
      number-like strings are numbers and its IMDb id has its prefix once. */
  lemma RoundTripIff(query: Query, v: Values, order: seq<string>)
    requires Prints(query, v) && IsOrder(v, order)
    ensures ParseKeys(v, order) == Ok(query) <==> Survives(query)
  {
    ParsePrinted(query, v, order);
    AllParsed(query, v, order);
    PartialOfAll(query, ParamsOf(order));
    NormalIdIff(query.imdbId);
    AllReadableIff(query);
  }
}
