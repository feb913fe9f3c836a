/**
 What a newznab query says when it comes from anywhere, not only from the printer: which values are
 accepted, and what each field is then, by the names of the parameters in any case.
 */
module NewznabFields {
  import opened Wrappers
  import opened Strings
  import opened Decimal
  import opened CommaList
  import opened NewznabQuery

  // ---------------------------------------------------------------- names

  /** The key is the name, with some letters in upper case. */
  predicate Names(key: string, name: string) {
    |key| == |name|
    && forall i :: 0 <= i < |key| ==>
         key[i] == name[i] || ('A' <= key[i] <= 'Z' && key[i] as int + 32 == name[i] as int)
  }

  predicate IsLowerCase(name: string) {
    forall i :: 0 <= i < |name| ==> 'a' <= name[i] <= 'z'
  }

  lemma {:induction false} LowerIff(key: string, name: string)
    requires IsLowerCase(name)
    ensures Lower(key) == name <==> Names(key, name)
  {
    if Names(key, name) {
      assert forall i :: 0 <= i < |key| ==> Lower(key)[i] == LowerChar(key[i]) == name[i];
    }
    if Lower(key) == name {
      assert forall i :: 0 <= i < |key| ==> LowerChar(key[i]) == name[i];
    }
  }

  lemma {:induction false} ParamOfIff(key: string, p: Param)
    ensures ParamOf(key) == Some(p) <==> key == Key(p)
    ensures IsLowerCase(Key(p))
  {
  }

  /** Which parameter a key is for. */
  lemma {:induction false} NamedIff(key: string)
    ensures var p := ParamOf(Lower(key));
            && (p == Some(T) <==> Names(key, "t")) && (p == Some(Q) <==> Names(key, "q"))
            && (p == Some(Ep) <==> Names(key, "ep")) && (p == Some(Season) <==> Names(key, "season"))
            && (p == Some(Year) <==> Names(key, "year")) && (p == Some(Limit) <==> Names(key, "limit"))
            && (p == Some(Offset) <==> Names(key, "offset")) && (p == Some(Extended) <==> Names(key, "extended"))
            && (p == Some(Cat) <==> Names(key, "cat")) && (p == Some(ApiKey) <==> Names(key, "apikey"))
            && (p == Some(ImdbId) <==> Names(key, "imdbid"))
  {
    forall p: Param ensures ParamOf(Lower(key)) == Some(p) <==> Names(key, Key(p)) {
      ParamOfIff(Lower(key), p);
      LowerIff(key, Key(p));
    }
    assert Key(T) == "t" && Key(Q) == "q" && Key(Ep) == "ep" && Key(Season) == "season" && Key(Year) == "year";
    assert Key(Limit) == "limit" && Key(Offset) == "offset" && Key(Extended) == "extended" && Key(Cat) == "cat";
    assert Key(ApiKey) == "apikey" && Key(ImdbId) == "imdbid";
  }

  // ---------------------------------------------------------------- values

  /** All that is between commas in some values. */
  function Between(vals: seq<string>): seq<string> {
    if vals == [] then [] else Between(vals[..|vals| - 1]) + Split(vals[|vals| - 1], ',')
  }

  predicate AreNumbers(texts: seq<string>) {
    forall i :: 0 <= i < |texts| ==> Atoi(texts[i]).Some?
  }

  predicate AreTheNumbers(texts: seq<string>, ns: seq<Int>) {
    |texts| == |ns| && forall i :: 0 <= i < |texts| ==> Atoi(texts[i]) == Some(ns[i])
  }

  lemma {:induction false} SplitIntsAre(s: string)
    ensures SplitInts(s).Some? <==> AreNumbers(Split(s, ','))
    ensures SplitInts(s).Some? ==> AreTheNumbers(Split(s, ','), SplitInts(s).value)
  {
  }

  lemma {:induction false} AllIntsAre(vals: seq<string>)
    ensures AllInts(vals).Some? <==> AreNumbers(Between(vals))
    ensures AllInts(vals).Some? ==> AreTheNumbers(Between(vals), AllInts(vals).value)
  {
    if vals != [] {
      var rest, last := vals[..|vals| - 1], vals[|vals| - 1];
      AllIntsAre(rest);
      SplitIntsAre(last);
      NumbersOfBoth(Between(rest), Split(last, ','));
    }
  }

  lemma {:induction false} NumbersOfBoth(a: seq<string>, b: seq<string>)
    ensures AreNumbers(a + b) <==> AreNumbers(a) && AreNumbers(b)
    ensures forall m, n :: AreTheNumbers(a, m) && AreTheNumbers(b, n) ==> AreTheNumbers(a + b, m + n)
  {
    if AreNumbers(a + b) {
      assert forall i :: 0 <= i < |a| ==> a[i] == (a + b)[i];
      assert forall i :: 0 <= i < |b| ==> b[i] == (a + b)[|a| + i];
    }
  }

  /** The values are such as the parameter takes: one for the texts, one number for the numbers, one or
      more for "extended", numbers between commas for "cat", anything for "q" and for other keys. */
  predicate IsFine(key: string, vals: seq<string>) {
    && (Names(key, "t") || Names(key, "apikey") || Names(key, "imdbid") ==> |vals| == 1)
    && (Names(key, "ep") || Names(key, "season") ==> |vals| == 1 && Atoi(vals[0]).Some?)
    && (Names(key, "year") || Names(key, "limit") || Names(key, "offset") ==> |vals| == 1 && Atoi(vals[0]).Some?)
    && (Names(key, "extended") ==> vals != [])
    && (Names(key, "cat") ==> AreNumbers(Between(vals)))
  }

  predicate IsFineFor(p: Param, vals: seq<string>) {
    match p
    case Q => true
    case Extended => vals != []
    case Cat => AreNumbers(Between(vals))
    case T => |vals| == 1
    case ApiKey => |vals| == 1
    case ImdbId => |vals| == 1
    case _ => |vals| == 1 && Atoi(vals[0]).Some?
  }

  lemma {:induction false} FineForIff(query: Query, p: Param, vals: seq<string>)
    ensures WithParam(query, p, vals).Ok? <==> IsFineFor(p, vals)
  {
    if p == Cat {
      AllIntsAre(vals);
    }
  }

  lemma {:induction false} FailureIs(query: Query, p: Param, vals: seq<string>)
    ensures WithParam(query, p, vals).OutOfRange? ==> vals == []
    ensures WithParam(query, p, vals).Err? ==> vals != []
  {
  }

  lemma {:induction false} FineIsFine(key: string, vals: seq<string>)
    ensures IsFine(key, vals) <==>
            match ParamOf(Lower(key)) case None => true case Some(p) => IsFineFor(p, vals)
  {
    NamedIff(key);
  }

  /** A failure is an error, or the panic that taking the first of no values is. */
  lemma {:induction false} FineIff(query: Query, key: string, vals: seq<string>)
    ensures WithKey(query, key, vals).Ok? <==> IsFine(key, vals)
    ensures WithKey(query, key, vals).OutOfRange? ==> vals == []
    ensures WithKey(query, key, vals).Err? ==> vals != []
  {
    FineIsFine(key, vals);
    if ParamOf(Lower(key)).Some? {
      FineForIff(query, ParamOf(Lower(key)).value, vals);
      FailureIs(query, ParamOf(Lower(key)).value, vals);
    }
  }

  // ---------------------------------------------------------------- fields

  /** The values of the last key with that name. */
  function Given(v: Values, order: seq<string>, name: string): Option<seq<string>>
    requires forall key :: key in order ==> key in v
  {
    if order == [] then None
    else
      var last := order[|order| - 1];
      if Names(last, name) then Some(v[last]) else Given(v, order[..|order| - 1], name)
  }

  predicate IsText(text: string, given: Option<seq<string>>) {
    match given case None => text == "" case Some(vals) => vals != [] && text == vals[0]
  }

  predicate IsNumber(n: Int, given: Option<seq<string>>) {
    match given case None => n == 0 case Some(vals) => vals != [] && Atoi(vals[0]) == Some(n)
  }

  predicate AreTexts(query: Query, v: Values, order: seq<string>)
    requires forall key :: key in order ==> key in v
  {
    && IsText(query.kind, Given(v, order, "t")) && IsText(query.apiKey, Given(v, order, "apikey"))
    && IsText(query.ep, Given(v, order, "ep")) && IsText(query.season, Given(v, order, "season"))
    && query.q == (match Given(v, order, "q") case None => "" case Some(vals) => Join(vals, ' '))
  }

  predicate AreOthers(query: Query, v: Values, order: seq<string>)
    requires forall key :: key in order ==> key in v
  {
    && IsNumber(query.year, Given(v, order, "year"))
    && IsNumber(query.limit, Given(v, order, "limit")) && IsNumber(query.offset, Given(v, order, "offset"))
    && (match Given(v, order, "imdbid")
        case None => query.imdbId == ""
        case Some(vals) => vals != [] && query.imdbId == if "tt" <= vals[0] then vals[0] else "tt" + vals[0])
    && (match Given(v, order, "extended")
        case None => !query.extended
        case Some(vals) => vals != [] && (query.extended <==> vals[0] == "1"))
    && (match Given(v, order, "cat")
        case None => query.categories == []
        case Some(vals) => AreTheNumbers(Between(vals), query.categories))
  }

  lemma {:induction false} GivenSnoc(v: Values, order: seq<string>, key: string, name: string)
    requires key in v && forall key :: key in order ==> key in v
    ensures Given(v, order + [key], name) == if Names(key, name) then Some(v[key]) else Given(v, order, name)
  {
    assert (order + [key])[..|order|] == order;
  }

  lemma {:induction false} TextParamSet(query: Query, p: Param, vals: seq<string>)
    requires WithParam(query, p, vals).Ok?
    ensures var q := WithParam(query, p, vals).query;
            && (if p == T then vals != [] && q.kind == vals[0] else q.kind == query.kind)
            && (if p == ApiKey then vals != [] && q.apiKey == vals[0] else q.apiKey == query.apiKey)
            && (if p == Ep then vals != [] && q.ep == vals[0] else q.ep == query.ep)
            && (if p == Season then vals != [] && q.season == vals[0] else q.season == query.season)
            && q.q == if p == Q then Join(vals, ' ') else query.q
  {
  }

  /** A text is taken over by its parameter, and by no other. */
  lemma {:induction false} TextSet(query: Query, key: string, vals: seq<string>)
    requires WithKey(query, key, vals).Ok?
    ensures var q := WithKey(query, key, vals).query;
            && (if Names(key, "t") then vals != [] && q.kind == vals[0] else q.kind == query.kind)
            && (if Names(key, "apikey") then vals != [] && q.apiKey == vals[0] else q.apiKey == query.apiKey)
            && (if Names(key, "ep") then vals != [] && q.ep == vals[0] else q.ep == query.ep)
            && (if Names(key, "season") then vals != [] && q.season == vals[0] else q.season == query.season)
            && q.q == if Names(key, "q") then Join(vals, ' ') else query.q
  {
    NamedIff(key);
    if ParamOf(Lower(key)).Some? {
      TextParamSet(query, ParamOf(Lower(key)).value, vals);
    }
  }

  lemma {:induction false} NumberParamSet(query: Query, p: Param, vals: seq<string>)
    requires WithParam(query, p, vals).Ok?
    ensures var q := WithParam(query, p, vals).query;
            && (if p == Year then vals != [] && Atoi(vals[0]) == Some(q.year) else q.year == query.year)
            && (if p == Limit then vals != [] && Atoi(vals[0]) == Some(q.limit) else q.limit == query.limit)
            && (if p == Offset then vals != [] && Atoi(vals[0]) == Some(q.offset) else q.offset == query.offset)
  {
  }

  lemma {:induction false} NumberSet(query: Query, key: string, vals: seq<string>)
    requires WithKey(query, key, vals).Ok?
    ensures var q := WithKey(query, key, vals).query;
            && (if Names(key, "year") then vals != [] && Atoi(vals[0]) == Some(q.year) else q.year == query.year)
            && (if Names(key, "limit") then vals != [] && Atoi(vals[0]) == Some(q.limit) else q.limit == query.limit)
            && (if Names(key, "offset") then vals != [] && Atoi(vals[0]) == Some(q.offset)
                else q.offset == query.offset)
  {
    NamedIff(key);
    if ParamOf(Lower(key)).Some? {
      NumberParamSet(query, ParamOf(Lower(key)).value, vals);
    }
  }

  lemma {:induction false} OtherParamSet(query: Query, p: Param, vals: seq<string>)
    requires WithParam(query, p, vals).Ok?
    ensures var q := WithParam(query, p, vals).query;
            && (if p == ImdbId then vals != [] && q.imdbId == if "tt" <= vals[0] then vals[0] else "tt" + vals[0]
                else q.imdbId == query.imdbId)
            && (if p == Extended then vals != [] && (q.extended <==> vals[0] == "1") else q.extended == query.extended)
            && (if p == Cat then AreTheNumbers(Between(vals), q.categories) else q.categories == query.categories)
  {
    if p == Cat {
      AllIntsAre(vals);
    }
  }

  lemma {:induction false} OtherSet(query: Query, key: string, vals: seq<string>)
    requires WithKey(query, key, vals).Ok?
    ensures var q := WithKey(query, key, vals).query;
            && (if Names(key, "imdbid") then
                  vals != [] && q.imdbId == if "tt" <= vals[0] then vals[0] else "tt" + vals[0]
                else q.imdbId == query.imdbId)
            && (if Names(key, "extended") then vals != [] && (q.extended <==> vals[0] == "1")
                else q.extended == query.extended)
            && (if Names(key, "cat") then AreTheNumbers(Between(vals), q.categories)
                else q.categories == query.categories)
  {
    NamedIff(key);
    if ParamOf(Lower(key)).Some? {
      OtherParamSet(query, ParamOf(Lower(key)).value, vals);
    }
  }

  lemma {:induction false} TextsStep(query: Query, v: Values, order: seq<string>, key: string)
    requires key in v && forall key :: key in order ==> key in v
    requires AreTexts(query, v, order) && WithKey(query, key, v[key]).Ok?
    ensures AreTexts(WithKey(query, key, v[key]).query, v, order + [key])
  {
    TextSet(query, key, v[key]);
    GivenSnoc(v, order, key, "t");
    GivenSnoc(v, order, key, "apikey");
    GivenSnoc(v, order, key, "ep");
    GivenSnoc(v, order, key, "season");
    GivenSnoc(v, order, key, "q");
  }

  lemma {:induction false} OthersStep(query: Query, v: Values, order: seq<string>, key: string)
    requires key in v && forall key :: key in order ==> key in v
    requires AreOthers(query, v, order) && WithKey(query, key, v[key]).Ok?
    ensures AreOthers(WithKey(query, key, v[key]).query, v, order + [key])
  {
    NumberSet(query, key, v[key]);
    OtherSet(query, key, v[key]);
    GivenSnoc(v, order, key, "year");
    GivenSnoc(v, order, key, "limit");
    GivenSnoc(v, order, key, "offset");
    GivenSnoc(v, order, key, "imdbid");
    GivenSnoc(v, order, key, "extended");
    GivenSnoc(v, order, key, "cat");
  }

  /** For any values and any order of the keys: a query comes out if and only if all values are such as
      their parameters take, and then each field is what the last key with its name gives. */
  lemma {:induction false} ParsedFields(v: Values, order: seq<string>)
    requires forall key :: key in order ==> key in v
    ensures ParseKeys(v, order).Ok? <==> forall i :: 0 <= i < |order| ==> IsFine(order[i], v[order[i]])
    ensures ParseKeys(v, order).Ok? ==>
              AreTexts(ParseKeys(v, order).query, v, order) && AreOthers(ParseKeys(v, order).query, v, order)
    decreases |order|
  {
    if order != [] {
      var rest, key := order[..|order| - 1], order[|order| - 1];
      assert order == rest + [key];
      ParsedFields(v, rest);
      ParseKeysSnoc(v, rest, key);
      var before := ParseKeys(v, rest);
      if before.Ok? {
        FineIff(before.query, key, v[key]);
        if WithKey(before.query, key, v[key]).Ok? {
          TextsStep(before.query, v, rest, key);
          OthersStep(before.query, v, rest, key);
        }
      }
    }
  }
}
