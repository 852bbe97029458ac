/** The pure parts of the player-card service: reading a height such as
    `6'2"` into inches, the document written for every fetched card, the
    translation of a search form into a database query, and the paging
    arithmetic. The database and the HTTP fetches are left out; only the values
    built for them are modelled. */
module PlayerCards {
  import opened Text

  /** A JSON value as the request body or the card API delivers it. Numbers
      are integers here. */
  datatype Value =
    | Undefined
    | Null
    | Bool(b: bool)
    | Num(n: int)
    | Str(s: string)
    | Arr(items: seq<Value>)
    | Obj(fields: map<string, Value>)

  /** The values JavaScript treats as false. */
  predicate Falsy(v: Value) {
    v == Undefined || v == Null || v == Bool(false) || v == Num(0) || v == Str("")
  }

  predicate Nullish(v: Value) {
    v == Undefined || v == Null
  }

  // ------------------------------------------------------------ height

  /** `(\d+)'(\d+)"` matches at `p`. */
  predicate HeightAt(s: string, p: nat)
    requires p <= |s|
  {
    var q := DigitsEnd(s, p);
    q > p && q < |s| && s[q] == '\'' &&
    var r := DigitsEnd(s, q + 1);
    r > q + 1 && r < |s| && s[r] == '"'
  }

  /** The leftmost match at or after `p`. */
  function FindHeight(s: string, p: nat): (r: Option<nat>)
    requires p <= |s|
    ensures r.Some? ==> p <= r.value < |s| && HeightAt(s, r.value)
    ensures r.Some? ==> forall j :: p <= j < r.value ==> !HeightAt(s, j)
    ensures r.None? ==> forall j :: p <= j <= |s| ==> !HeightAt(s, j)
    decreases |s| - p
  {
    if p == |s| then None
    else if HeightAt(s, p) then Some(p)
    else FindHeight(s, p + 1)
  }

  /** `parseHeightToInch(heightStr)`: feet times twelve plus inches of the
      first `F'I"` in the text; `None` (null) when there is none. */
  function ParseHeightToInch(heightStr: string): (r: Option<int>)
    ensures r.Some? ==> r.value >= 0
  {
    match FindHeight(heightStr, 0)
    case None => None
    case Some(p) =>
      var q := DigitsEnd(heightStr, p);
      var e := DigitsEnd(heightStr, q + 1);
      Some(DigitsValue(heightStr[p..q]) * 12 + DigitsValue(heightStr[q + 1..e]))
  }

  /** The height is null exactly when no `F'I"` occurs anywhere in the text. */
  lemma ParseHeightNone(heightStr: string)
    ensures ParseHeightToInch(heightStr).None? <==> forall j :: 0 <= j <= |heightStr| ==> !HeightAt(heightStr, j)
  {
    var found := FindHeight(heightStr, 0);
    if found.Some? {
      assert HeightAt(heightStr, found.value);
    }
  }

  /** The text a height is written as. */
  function HeightString(feet: nat, inches: nat): string {
    DecimalString(feet) + "'" + DecimalString(inches) + "\""
  }

  /** A text that is `F'I"`, with the digits `F` up to `q` and the digits `I`
      up to `e`, reads as its feet times twelve plus its inches. */
  lemma ParseLeadingHeight(s: string, q: nat, e: nat)
    requires 0 < q && q + 1 < e < |s|
    requires AllDigits(s[0..q]) && AllDigits(s[q + 1..e])
    requires s[q] == '\'' && s[e] == '"'
    ensures ParseHeightToInch(s) == Some(DigitsValue(s[0..q]) * 12 + DigitsValue(s[q + 1..e]))
  {
    forall k | 0 <= k < q
      ensures IsDigit(s[k])
    {
      assert s[k] == s[0..q][k];
    }
    forall k | q + 1 <= k < e
      ensures IsDigit(s[k])
    {
      assert s[k] == s[q + 1..e][k - q - 1];
    }
    DigitsEndAt(s, 0, q);
    DigitsEndAt(s, q + 1, e);
    assert HeightAt(s, 0);
    assert FindHeight(s, 0) == Some(0);
  }

  /** Where the feet, the apostrophe, the inches and the double quote sit in
      the text of a height. */
  lemma HeightStringShape(feet: nat, inches: nat)
    ensures var f, i, s := DecimalString(feet), DecimalString(inches), HeightString(feet, inches);
      && |s| == |f| + |i| + 2 && s[0..|f|] == f && s[|f|] == '\''
      && s[|f| + 1..|s| - 1] == i && s[|s| - 1] == '"'
  {
    var f, i := DecimalString(feet), DecimalString(inches);
    var s := HeightString(feet, inches);
    assert s == f + "'" + i + "\"";
    assert s[0..|f|] == f;
    assert s[|f| + 1..|s| - 1] == i;
  }

  /** A height written as `F'I"` reads back as `12 * F + I` inches. */
  lemma HeightRoundTrip(feet: nat, inches: nat)
    ensures ParseHeightToInch(HeightString(feet, inches)) == Some(feet * 12 + inches)
  {
    var f, i, s := DecimalString(feet), DecimalString(inches), HeightString(feet, inches);
    HeightStringShape(feet, inches);
    ParseLeadingHeight(s, |f|, |s| - 1);
    DecimalRoundTrip(feet);
    DecimalRoundTrip(inches);
  }

  // ------------------------------------------------- the stored document

  /** `normalizeItemFields(item)`: every field kept, a missing value stored as
      null. */
  function NormalizeItemFields(item: map<string, Value>): (r: map<string, Value>)
    ensures r.Keys == item.Keys
    ensures forall k :: k in r ==> !(r[k] == Undefined)
    ensures forall k :: k in item && !Nullish(item[k]) ==> r[k] == item[k]
    ensures forall k :: k in item && Nullish(item[k]) ==> r[k] == Null
  {
    map k | k in item :: if Nullish(item[k]) then Null else item[k]
  }

  /** Normalising twice is normalising once. */
  lemma NormalizeIdempotent(item: map<string, Value>)
    ensures NormalizeItemFields(NormalizeItemFields(item)) == NormalizeItemFields(item)
  {
  }

  /** `item.height ?? ''`; a card's height is text when it is present. */
  function HeightText(item: map<string, Value>): string
    requires "height" in item ==> item["height"].Str? || Nullish(item["height"])
  {
    if "height" in item && item["height"].Str? then item["height"].s else ""
  }

  /** `heightInch ? { height_inch: heightInch } : {}`: a null or zero height
      adds nothing. */
  function HeightField(h: Option<int>): map<string, Value> {
    if h.Some? && h.value != 0 then map["height_inch" := Num(h.value)] else map[]
  }

  /** The `$set` document of the upsert written for a fetched card. */
  function SetDocument(item: map<string, Value>): map<string, Value>
    requires "height" in item ==> item["height"].Str? || Nullish(item["height"])
  {
    NormalizeItemFields(item) + HeightField(ParseHeightToInch(HeightText(item)))
  }

  /** The stored document has the card's normalised fields, plus `height_inch`
      exactly when the height reads as a non-zero number of inches. */
  lemma SetDocumentFields(item: map<string, Value>)
    requires "height" in item ==> item["height"].Str? || Nullish(item["height"])
    ensures var h := ParseHeightToInch(HeightText(item));
            var d := SetDocument(item);
            && (h.Some? && h.value != 0 ==> "height_inch" in d && d["height_inch"] == Num(h.value))
            && (h.None? || h.value == 0 ==> d == NormalizeItemFields(item))
            && (forall k :: k != "height_inch" ==> (k in d <==> k in item))
            && (forall k :: k in item && k != "height_inch" ==> d[k] == NormalizeItemFields(item)[k])
  {
  }

  /** A card whose height is written `F'I"` with a non-zero height is stored
      with `height_inch` = 12 F + I. */
  lemma StoredHeight(item: map<string, Value>, feet: nat, inches: nat)
    requires "height" in item && item["height"] == Str(HeightString(feet, inches))
    requires feet * 12 + inches != 0
    ensures "height_inch" in SetDocument(item) && SetDocument(item)["height_inch"] == Num(feet * 12 + inches)
  {
    HeightRoundTrip(feet, inches);
  }

  // ------------------------------------------------------- Number(value)

  predicate AllDigits(t: string) {
    forall i :: 0 <= i < |t| ==> IsDigit(t[i])
  }

  /** `Number(s)` for a string: blank is 0, an optionally signed run of digits
      is its value, anything else is NaN (`None`). */
  function StringToNumber(s: string): Option<int> {
    NumberText(Trim(s))
  }

  /** `Number` of a text without surrounding spaces. */
  function NumberText(t: string): (r: Option<int>)
    ensures AllDigits(t) && t != [] ==> r == Some(DigitsValue(t))
  {
    if t == [] then Some(0)
    else if AllDigits(t) then Some(DigitsValue(t))
    else if |t| >= 2 && t[0] == '-' && AllDigits(t[1..]) then Some(-(DigitsValue(t[1..]) as int))
    else if |t| >= 2 && t[0] == '+' && AllDigits(t[1..]) then Some(DigitsValue(t[1..]))
    else None
  }

  /** `Number(v)`: NaN is `None`. An array reads as the text of its elements
      joined by commas, so two or more elements are never a number. */
  function ToNumber(v: Value): Option<int>
    decreases v, 1
  {
    match v
    case Undefined => None
    case Null => Some(0)
    case Bool(b) => Some(if b then 1 else 0)
    case Num(n) => Some(n)
    case Str(s) => StringToNumber(s)
    case Arr(xs) => if |xs| == 0 then Some(0) else if |xs| == 1 then ElementNumber(xs[0]) else None
    case Obj(_) => None
  }

  /** `Number(String(x))` for the single element `x` of an array. */
  function ElementNumber(x: Value): Option<int>
    decreases x, 2
  {
    match x
    case Undefined => Some(0)
    case Null => Some(0)
    case Bool(_) => None
    case Num(n) => Some(n)
    case Str(s) => StringToNumber(s)
    case Arr(_) => ToNumber(x)
    case Obj(_) => None
  }

  /** Text without spaces reads as it is. */
  lemma NumberNoSpace(s: string)
    requires forall i :: 0 <= i < |s| ==> !IsSpace(s[i])
    ensures StringToNumber(s) == NumberText(s)
  {
    assert Trim(s) == s;
  }

  /** The text of a count reads back as the count. */
  lemma NumberOfDecimal(n: nat)
    ensures StringToNumber(DecimalString(n)) == Some(n)
  {
    NumberNoSpace(DecimalString(n));
    DecimalRoundTrip(n);
  }

  /** A minus sign before a run of digits reads as the negated value. */
  lemma NumberTextNegative(d: string)
    requires d != [] && AllDigits(d)
    ensures NumberText("-" + d) == Some(-(DigitsValue(d) as int))
  {
    var s := "-" + d;
    assert s[1..] == d;
    assert !IsDigit(s[0]);
  }

  /** The text of a negative integer reads back as the integer. */
  lemma NumberOfNegative(n: nat)
    requires n > 0
    ensures StringToNumber("-" + DecimalString(n)) == Some(-(n as int))
  {
    var d := DecimalString(n);
    var s := "-" + d;
    forall i | 0 <= i < |s|
      ensures !IsSpace(s[i])
    {
      if i > 0 {
        assert s[i] == d[i - 1];
      }
    }
    NumberNoSpace(s);
    NumberTextNegative(d);
    DecimalRoundTrip(n);
  }

  // ------------------------------------------------------------ the query

  /** `{ $gte: a, $lte: b }` */
  datatype Bounds = Bounds(gte: Value, lte: Value)

  /** The `$elemMatch` condition of one pitch; `brk` is the `break` field. */
  datatype PitchQuery = PitchQuery(name: Value, speed: Option<Bounds>, control: Option<Bounds>, brk: Option<Bounds>)

  /** An element of `$and`: one spread from a value already there, or a pitch
      condition. */
  datatype AndItem = Spread(v: Value) | PitchMatch(p: PitchQuery)

  /** The value stored under a key of the query. */
  datatype Cond =
    | Is(v: Value)
    | Range(bounds: Bounds)
    | Regex(pattern: Value)
    | AllQuirks(names: seq<Value>)
    | And(items: seq<AndItem>)

  /** The `TypeError`s building the query can throw: a null pitch whose fields
      are read, and a `$and` that cannot be spread. */
  datatype QueryError = NullPitch | NotIterable

  /** The keys of the form that the loop passes over. */
  const SkippedKeys: seq<string> := ["sort", "order", "page", "limit", "pitches", "quirks"]

  const BooleanFields: seq<string> := ["is_hitter", "is_sellable", "has_augment", "has_matchup", "event"]

  /** `[number, number, ...]` */
  predicate NumberPair(v: Value) {
    v.Arr? && |v.items| >= 2 && v.items[0].Num? && v.items[1].Num?
  }

  /** The height range: exactly two numbers under the key "height". */
  predicate HeightRange(key: string, v: Value) {
    key == "height" && NumberPair(v) && |v.items| == 2
  }

  /** An entry the loop translates: not a skipped key, and a truthy value. */
  predicate Kept(key: string, v: Value) {
    key !in SkippedKeys && !Falsy(v)
  }

  /** The query key an entry is written under. */
  function Target(key: string, v: Value): string {
    if HeightRange(key, v) then "height_inch" else key
  }

  /** What an entry is translated into: a numeric pair becomes a range, "name"
      a case-insensitive regex, a boolean field the test `value === 'true'`,
      anything else its number when it has one and itself otherwise. */
  function Translate(key: string, v: Value): Cond {
    if NumberPair(v) then Range(Bounds(v.items[0], v.items[1]))
    else if key == "name" then Regex(v)
    else if key in BooleanFields then Is(Bool(v == Str("true")))
    else match ToNumber(v)
      case Some(n) => Is(Num(n))
      case None => Is(v)
  }

  /** One turn of the `for...in` loop. */
  function Step(query: map<string, Cond>, key: string, v: Value): map<string, Cond> {
    if Kept(key, v) then query[Target(key, v) := Translate(key, v)] else query
  }

  /** The query after the loop has passed over the first `n` entries of the
      form, in order. */
  function QueryTo(filters: seq<(string, Value)>, n: nat): map<string, Cond>
    requires n <= |filters|
  {
    if n == 0 then map[] else Step(QueryTo(filters, n - 1), filters[n - 1].0, filters[n - 1].1)
  }

  /** `filters.key`: the first entry with that key, else undefined. */
  function Lookup(filters: seq<(string, Value)>, key: string): (v: Value)
    ensures v != Undefined ==> exists i :: 0 <= i < |filters| && filters[i] == (key, v)
  {
    if filters == [] then Undefined
    else if filters[0].0 == key then filters[0].1
    else
      var v := Lookup(filters[1..], key);
      assert v != Undefined ==> exists i :: 0 <= i < |filters[1..]| && filters[1..][i] == (key, v);
      v
  }

  /** `obj.field` on a value that is not null. */
  function Field(v: Value, key: string): Value {
    if v.Obj? && key in v.fields then v.fields[key] else Undefined
  }

  /** `v[i]` on a value that is not null. */
  function Index(v: Value, i: nat): Value {
    match v
    case Arr(xs) => if i < |xs| then xs[i] else Undefined
    case Str(s) => if i < |s| then Str([s[i]]) else Undefined
    case Obj(f) => Field(v, DecimalString(i))
    case _ => Undefined
  }

  /** `cond.x ? { $gte: cond.x[0], $lte: cond.x[1] }` */
  function RangeOf(v: Value): (r: Option<Bounds>)
    ensures r.Some? <==> !Falsy(v)
  {
    if Falsy(v) then None else Some(Bounds(Index(v, 0), Index(v, 1)))
  }

  /** The pitch condition of one form entry. */
  function PitchOf(cond: Value): PitchQuery {
    PitchQuery(Field(cond, "name"), RangeOf(Field(cond, "speed")), RangeOf(Field(cond, "control")),
               RangeOf(Field(cond, "movement")))
  }

  /** `filters.pitches.map(...)`: a null or undefined pitch throws. */
  function PitchQueries(conds: seq<Value>): (r: Result<seq<AndItem>, QueryError>)
    ensures r.Failure? <==> exists i :: 0 <= i < |conds| && Nullish(conds[i])
    ensures r.Success? ==> |r.value| == |conds| && forall i :: 0 <= i < |conds| ==> r.value[i] == PitchMatch(PitchOf(conds[i]))
  {
    if exists i :: 0 <= i < |conds| && Nullish(conds[i]) then Failure(NullPitch)
    else Success(seq(|conds|, i requires 0 <= i < |conds| => PitchMatch(PitchOf(conds[i]))))
  }

  /** `[...(query.$and || [])]`: an absent or falsy value spreads to nothing,
      an array to its elements, a text to its characters; anything else throws. */
  function SpreadAnd(c: Option<Cond>): Result<seq<AndItem>, QueryError> {
    match c
    case None => Success([])
    case Some(Is(v)) =>
      if Falsy(v) then Success([])
      else if v.Arr? then Success(seq(|v.items|, i requires 0 <= i < |v.items| => Spread(v.items[i])))
      else if v.Str? then Success(seq(|v.s|, i requires 0 <= i < |v.s| => Spread(Str([v.s[i]]))))
      else Failure(NotIterable)
    case Some(And(items)) => Success(items)
    case Some(_) => Failure(NotIterable)
  }

  /** The query `findByFilters` builds: the loop's query, then the pitch
      conditions appended to `$and` when `pitches` is an array, then `quirks`
      as `$all` when it is a non-empty array. */
  function Query(filters: seq<(string, Value)>): Result<map<string, Cond>, QueryError> {
    var q := QueryTo(filters, |filters|);
    var pitches := Lookup(filters, "pitches");
    var withPitches :=
      if pitches.Arr? then
        match PitchQueries(pitches.items)
        case Failure(e) => Failure(e)
        case Success(pitchQueries) =>
          match SpreadAnd(if "$and" in q then Some(q["$and"]) else None)
          case Failure(e) => Failure(e)
          case Success(prior) => Success(q["$and" := And(prior + pitchQueries)])
      else Success(q);
    match withPitches
    case Failure(e) => Failure(e)
    case Success(q1) =>
      var quirks := Lookup(filters, "quirks");
      if quirks.Arr? && |quirks.items| > 0 then Success(q1["quirks" := AllQuirks(quirks.items)])
      else Success(q1)
  }

  /** The query-building part of `findByFilters`: the `for...in` loop over
      the form with its `continue`s, then the pitches and the quirks. */
  method FindByFilters(filters: seq<(string, Value)>) returns (r: Result<map<string, Cond>, QueryError>)
    ensures r == Query(filters)
  {
    var query: map<string, Cond> := map[];
    for i := 0 to |filters|
      invariant query == QueryTo(filters, i)
    {
      var (key, rawValue) := filters[i];
      if key in SkippedKeys {
        continue;
      }
      if Falsy(rawValue) {
        continue;
      }
      if key == "height" && rawValue.Arr? && |rawValue.items| == 2 && rawValue.items[0].Num? && rawValue.items[1].Num? {
        query := query["height_inch" := Range(Bounds(rawValue.items[0], rawValue.items[1]))];
        continue;
      }
      if rawValue.Arr? && |rawValue.items| >= 2 && rawValue.items[0].Num? && rawValue.items[1].Num? {
        query := query[key := Range(Bounds(rawValue.items[0], rawValue.items[1]))];
        continue;
      }
      if key == "name" {
        query := query["name" := Regex(rawValue)];
        continue;
      }
      if key in BooleanFields {
        query := query[key := Is(Bool(rawValue == Str("true")))];
        continue;
      }
      var num := ToNumber(rawValue);
      query := query[key := if num.None? then Is(rawValue) else Is(Num(num.value))];
    }
    var pitches := Lookup(filters, "pitches");
    if pitches.Arr? {
      var pitchQueries := PitchQueries(pitches.items);
      if pitchQueries.Failure? {
        return Failure(pitchQueries.error);
      }
      var prior := SpreadAnd(if "$and" in query then Some(query["$and"]) else None);
      if prior.Failure? {
        return Failure(prior.error);
      }
      query := query["$and" := And(prior.value + pitchQueries.value)];
    }
    var quirks := Lookup(filters, "quirks");
    if quirks.Arr? && |quirks.items| > 0 {
      query := query["quirks" := AllQuirks(quirks.items)];
    }
    r := Success(query);
  }

  /** A key is in the loop's query exactly when some entry the loop keeps is
      written under it. */
  lemma {:induction false} QueryKeys(filters: seq<(string, Value)>, n: nat, k: string)
    requires n <= |filters|
    ensures k in QueryTo(filters, n) <==>
              exists i :: 0 <= i < n && Kept(filters[i].0, filters[i].1) && Target(filters[i].0, filters[i].1) == k
  {
    if n > 0 {
      QueryKeys(filters, n - 1, k);
      var e := filters[n - 1];
      if Kept(e.0, e.1) && Target(e.0, e.1) == k {
        assert k in QueryTo(filters, n);
      }
    }
  }

  /** The value under a key is the translation of the last entry the loop
      keeps that is written under it. */
  lemma {:induction false} QueryLastWins(filters: seq<(string, Value)>, n: nat, i: nat)
    requires i < n <= |filters|
    requires Kept(filters[i].0, filters[i].1)
    requires forall j :: i < j < n && Kept(filters[j].0, filters[j].1) ==> Target(filters[j].0, filters[j].1) != Target(filters[i].0, filters[i].1)
    ensures var k := Target(filters[i].0, filters[i].1);
            k in QueryTo(filters, n) && QueryTo(filters, n)[k] == Translate(filters[i].0, filters[i].1)
  {
    var e := filters[n - 1];
    var before := QueryTo(filters, n - 1);
    assert QueryTo(filters, n) == Step(before, e.0, e.1);
    if i < n - 1 {
      QueryLastWins(filters, n - 1, i);
      if Kept(e.0, e.1) {
        assert Target(e.0, e.1) != Target(filters[i].0, filters[i].1);
      }
    }
  }

  /** The loop never writes a skipped key: "sort", "order", "page", "limit",
      "pitches" and "quirks" never come from the form's own entries. */
  lemma QueryNoSkippedKeys(filters: seq<(string, Value)>, k: string)
    requires k in SkippedKeys
    ensures k !in QueryTo(filters, |filters|)
  {
    QueryKeys(filters, |filters|, k);
  }

  /** A range under "height" is written under "height_inch" and never under
      "height". */
  lemma HeightRangeMoves(filters: seq<(string, Value)>, i: nat)
    requires i < |filters| && HeightRange(filters[i].0, filters[i].1)
    requires forall j :: i < j < |filters| && Kept(filters[j].0, filters[j].1) ==> Target(filters[j].0, filters[j].1) != "height_inch"
    ensures var q := QueryTo(filters, |filters|);
            "height_inch" in q && q["height_inch"] == Range(Bounds(filters[i].1.items[0], filters[i].1.items[1]))
    ensures (forall j :: 0 <= j < |filters| ==> filters[j].0 == "height" ==> HeightRange(filters[j].0, filters[j].1))
              ==> "height" !in QueryTo(filters, |filters|)
  {
    QueryLastWins(filters, |filters|, i);
    QueryKeys(filters, |filters|, "height");
  }

  /** A non-empty array of quirks becomes `$all` of those names in order; any
      other `quirks` value leaves the key to the loop, which never writes it. */
  lemma QuirksQuery(filters: seq<(string, Value)>)
    requires Query(filters).Success?
    ensures var quirks := Lookup(filters, "quirks");
            var q := Query(filters).value;
            && (quirks.Arr? && |quirks.items| > 0 ==> "quirks" in q && q["quirks"] == AllQuirks(quirks.items))
            && (!(quirks.Arr? && |quirks.items| > 0) ==> "quirks" !in q)
  {
    QueryNoSkippedKeys(filters, "quirks");
  }

  /** The pitch conditions come last in `$and`, one per pitch in order. */
  lemma PitchesAppended(filters: seq<(string, Value)>)
    requires Query(filters).Success? && Lookup(filters, "pitches").Arr?
    ensures var conds := Lookup(filters, "pitches").items;
            var q := Query(filters).value;
            && "$and" in q && q["$and"].And?
            && |q["$and"].items| >= |conds|
            && forall i :: 0 <= i < |conds| ==>
                 q["$and"].items[|q["$and"].items| - |conds| + i] == PitchMatch(PitchOf(conds[i]))
  {
  }

  // ------------------------------------------------------------ paging

  /** `(page - 1) * limit` */
  function Skip(page: int, limit: int): int {
    (page - 1) * limit
  }

  /** `Math.ceil(a / b)` for a count `a`; `None` for a zero limit, where the
      quotient is not finite. */
  function TotalPages(total: nat, limit: int): (r: Option<int>)
    ensures r.None? <==> limit == 0
    ensures limit > 0 ==> limit * (r.value - 1) < total <= limit * r.value
    ensures limit < 0 ==> limit * r.value <= total < limit * (r.value - 1)
  {
    if limit == 0 then None
    else if limit > 0 then Some(CeilDiv(total, limit))
    else Some(-(total / -limit))
  }

  /** The least `r` with `a <= b * r`. */
  function CeilDiv(a: nat, b: nat): (r: nat)
    requires b > 0
    ensures b * (r - 1) < a <= b * r
  {
    var r := (a + b - 1) / b;
    assert b * r <= a + b - 1 < b * (r + 1);
    r
  }

  /** Every page up to the last starts before the end of the results, and the
      page after the last starts at or after it. */
  lemma PagesCoverResults(total: nat, limit: int, page: int)
    requires limit > 0 && 1 <= page
    ensures page <= TotalPages(total, limit).value ==> Skip(page, limit) < total
    ensures page > TotalPages(total, limit).value ==> Skip(page, limit) >= total
  {
    var t := TotalPages(total, limit).value;
    if page <= t {
      assert Skip(page, limit) <= limit * (t - 1);
    } else {
      assert Skip(page, limit) >= limit * t;
    }
  }
}
