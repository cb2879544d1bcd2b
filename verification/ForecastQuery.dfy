/** Reading the forecast query string, in its two modes: balances, and the events of one day. */
module ForecastQuery {

  import opened Wrappers
  import opened Decimal

  type Query = map<string, seq<string>>

  datatype Pattern = Pattern(categoryId: int, pattern: string)

  const BALANCE_KEYS: set<string> := {"horizon_days", "account_id", "include_descendants", "reporting_currency_id", "fx_method",
                                      "spending_model", "history_complete_from", "expense_category_id", "expense_pattern"}

  const EVENT_KEYS: set<string> := {"date", "basis_token", "detail_account_id", "detail_commodity_id", "limit", "cursor"}

  function Allowed(events: bool): set<string> { if events then BALANCE_KEYS + EVENT_KEYS else BALANCE_KEYS }

  function ValuesOf(query: Query, key: string): seq<string> { if key in query then query[key] else [] }

  /* ---------------------------------------------------------------- scalars */

  function OptionalScalar(query: Query, key: string): Result<string, string> {
    if key !in query then Ok("")
    else if |query[key]| != 1 || query[key][0] == "" then Err(key + " must be supplied exactly once")
    else Ok(query[key][0])
  }

  function OptionalInt(query: Query, key: string, fallback: int): Result<int, string> {
    if key !in query then Ok(fallback)
    else if |query[key]| != 1 || query[key][0] == "" then Err(key + " must be supplied exactly once")
    else match ParseInt(query[key][0], 32)
      case Some(v) => Ok(v)
      case None => Err(key + " must be an integer")
  }

  function PositiveId(text: string): Option<int> {
    match ParseInt(text, 64)
    case Some(v) => if v > 0 then Some(v) else None
    case None => None
  }

  function OptionalId(query: Query, key: string): Result<Option<int>, string> {
    match OptionalScalar(query, key)
    case Err(m) => Err(m)
    case Ok(raw) =>
      if raw == "" then Ok(None)
      else if PositiveId(raw).None? then Err(key + " must be a positive integer")
      else Ok(PositiveId(raw))
  }

  /* ---------------------------------------------------------------- lists */

  /** A text of a positive 64-bit integer. */
  predicate IsId(text: string, id: int) { ParseInt(text, 64) == Some(id) && id >= 1 }

  predicate IsSomeId(text: string) { ParseInt(text, 64).Some? && ParseInt(text, 64).value >= 1 }

  /** ids are the values read one by one, in order and with repetitions. */
  ghost predicate ReadsIds(values: seq<string>, ids: seq<int>) {
    |ids| == |values| && forall i :: 0 <= i < |ids| ==> IsId(values[i], ids[i])
  }

  method ParseIds(values: seq<string>, message: string) returns (r: Result<seq<int>, string>)
    ensures r.Ok? <==> forall i :: 0 <= i < |values| ==> IsSomeId(values[i])
    ensures if r.Ok? then ReadsIds(values, r.value) else r.error == message
  {
    var ids: seq<int> := [];
    for i := 0 to |values|
      invariant |ids| == i && forall k :: 0 <= k < i ==> IsId(values[k], ids[k])
    {
      var id := PositiveId(values[i]);
      if id.None? {
        return Err(message);
      }
      ids := ids + [id.value];
    }
    r := Ok(ids);
  }

  /** The position of the last colon, or -1. */
  function LastColon(s: string): (i: int)
    ensures -1 <= i < |s|
    ensures i >= 0 ==> s[i] == ':'
    ensures forall k :: i < k < |s| ==> s[k] != ':'
  {
    if s == "" then -1 else if s[|s| - 1] == ':' then |s| - 1 else LastColon(s[..|s| - 1])
  }

  function ParsePattern(raw: string): Option<Pattern> {
    var at := LastColon(raw);
    if at <= 0 || at == |raw| - 1 then None
    else match PositiveId(raw[..at])
      case None => None
      case Some(id) => Some(Pattern(id, raw[at + 1..]))
  }

  /** A category id, a colon, and the pattern, which is all that follows the last colon. */
  predicate SplitsAt(raw: string, at: nat, p: Pattern) {
    ColonAt(raw, at) && IsId(raw[..at], p.categoryId) && p.pattern == raw[at + 1..]
  }

  /** The last colon, with something on both sides. */
  predicate ColonAt(raw: string, at: nat) {
    0 < at < |raw| - 1 && raw[at] == ':' && forall k :: at < k < |raw| ==> raw[k] != ':'
  }

  ghost predicate IsPattern(raw: string, p: Pattern) { exists at :: SplitsAt(raw, at, p) }

  lemma ParsePatternIff(raw: string, p: Pattern)
    ensures ParsePattern(raw) == Some(p) <==> IsPattern(raw, p)
  {
    if ParsePattern(raw) == Some(p) {
      assert SplitsAt(raw, LastColon(raw), p);
    }
    if at :| SplitsAt(raw, at, p) {
      LastColonFound(raw, at);
    }
  }

  function PrintPattern(p: Pattern): string { Format(p.categoryId) + ":" + p.pattern }

  lemma LastColonFound(s: string, at: nat)
    requires at < |s| && s[at] == ':' && forall k :: at < k < |s| ==> s[k] != ':'
    ensures LastColon(s) == at
  {
  }

  /** A pattern read from any text has no colon and is not empty. */
  lemma PatternsHaveNoColon(raw: string)
    requires ParsePattern(raw).Some?
    ensures ParsePattern(raw).value.pattern != "" && ':' !in ParsePattern(raw).value.pattern
  {
    var at := LastColon(raw);
    var rest := raw[at + 1..];
    forall k | 0 <= k < |rest| ensures rest[k] != ':' {
      assert rest[k] == raw[at + 1 + k];
    }
  }

  lemma PrintedPatternReads(p: Pattern)
    requires p.categoryId > 0 && Fits(p.categoryId, 64) && p.pattern != "" && ':' !in p.pattern
    ensures ParsePattern(PrintPattern(p)) == Some(p)
  {
    var id := Format(p.categoryId);
    var raw, at := id + ":" + p.pattern, |id|;
    FormatRoundTrip(p.categoryId, 64);
    forall k | at < k < |raw| ensures raw[k] != ':' {
      assert raw[k] == p.pattern[k - at - 1];
    }
    LastColonFound(raw, at);
    assert raw[..at] == id && raw[at + 1..] == p.pattern;
  }

  /** A printed override is read back exactly when its pattern is not empty and has no colon. */
  lemma PatternRoundTrip(p: Pattern)
    requires p.categoryId > 0 && Fits(p.categoryId, 64)
    ensures ParsePattern(PrintPattern(p)) == Some(p) <==> p.pattern != "" && ':' !in p.pattern
  {
    if p.pattern != "" && ':' !in p.pattern {
      PrintedPatternReads(p);
    } else if ParsePattern(PrintPattern(p)).Some? {
      PatternsHaveNoColon(PrintPattern(p));
    }
  }

  ghost predicate ReadsPatterns(values: seq<string>, patterns: seq<Pattern>) {
    |patterns| == |values| && forall i :: 0 <= i < |patterns| ==> IsPattern(values[i], patterns[i])
  }

  /** There is no such colon, or what is before it is no id. */
  ghost predicate PatternProblem(raw: string, m: string) {
    || ((forall at :: !ColonAt(raw, at)) && m == "expense_pattern must be <category-id>:<pattern>")
    || (exists at: nat :: ColonAt(raw, at) && !IsSomeId(raw[..at]) && m == "expense_pattern category id must be a positive integer")
  }

  method ReadPattern(raw: string) returns (r: Result<Pattern, string>)
    ensures r.Ok? ==> IsPattern(raw, r.value)
    ensures r.Err? ==> (forall p :: !IsPattern(raw, p)) && PatternProblem(raw, r.error)
  {
    forall p ensures IsPattern(raw, p) <==> ParsePattern(raw) == Some(p) {
      ParsePatternIff(raw, p);
    }
    var at := LastColon(raw);
    if at <= 0 || at == |raw| - 1 {
      forall k | ColonAt(raw, k) ensures false {
        LastColonFound(raw, k);
      }
      return Err("expense_pattern must be <category-id>:<pattern>");
    }
    var id := PositiveId(raw[..at]);
    if id.None? {
      assert ColonAt(raw, at);
      return Err("expense_pattern category id must be a positive integer");
    }
    r := Ok(Pattern(id.value, raw[at + 1..]));
  }

  method ParsePatterns(values: seq<string>) returns (r: Result<seq<Pattern>, string>)
    ensures r.Ok? ==> ReadsPatterns(values, r.value)
    ensures r.Err? ==> (forall patterns :: !ReadsPatterns(values, patterns)) && exists i :: 0 <= i < |values| && PatternProblem(values[i], r.error)
  {
    var patterns: seq<Pattern> := [];
    for i := 0 to |values|
      invariant |patterns| == i && forall k :: 0 <= k < i ==> IsPattern(values[k], patterns[k])
    {
      var pattern := ReadPattern(values[i]);
      if pattern.Err? {
        return Err(pattern.error);
      }
      patterns := patterns + [pattern.value];
    }
    r := Ok(patterns);
  }

  /* ---------------------------------------------------------------- the whole query */

  datatype Spending = Spending(model: string, historyFrom: string, categoryIds: seq<int>, patterns: seq<Pattern>)

  /** A value given exactly once and not empty, or nothing where the key is not given. */
  predicate MeansText(query: Query, key: string, text: string) {
    if key in query then query[key] == [text] && text != "" else text == ""
  }

  predicate MeansInt(query: Query, key: string, fallback: int, v: int) {
    if key in query then |query[key]| == 1 && ParseInt(query[key][0], 32) == Some(v) else v == fallback
  }

  predicate MeansId(query: Query, key: string, id: Option<int>) {
    if key in query then |query[key]| == 1 && id.Some? && IsId(query[key][0], id.value) else id == None
  }

  ghost predicate MeansSpending(query: Query, s: Spending) {
    && MeansText(query, "spending_model", s.model)
    && MeansText(query, "history_complete_from", s.historyFrom)
    && ReadsIds(ValuesOf(query, "expense_category_id"), s.categoryIds)
    && ReadsPatterns(ValuesOf(query, "expense_pattern"), s.patterns)
  }

  datatype Scope = Scope(horizonDays: int, includeDescendants: bool, accountIds: seq<int>, reportingCurrencyId: Option<int>, fxMethod: string)

  ghost predicate MeansScope(query: Query, s: Scope) {
    && MeansInt(query, "horizon_days", 90, s.horizonDays) && 1 <= s.horizonDays <= 366
    && MeansDescendants(query, s.includeDescendants)
    && ReadsIds(ValuesOf(query, "account_id"), s.accountIds)
    && MeansId(query, "reporting_currency_id", s.reportingCurrencyId)
    && MeansText(query, "fx_method", s.fxMethod)
  }

  predicate MeansDescendants(query: Query, wanted: bool) {
    var values := ValuesOf(query, "include_descendants");
    if "include_descendants" !in query then wanted
    else |values| == 1 && values[0] == if wanted then "true" else "false"
  }

  datatype Input = Input(scope: Scope, spending: Spending)

  /** What a query means, independent of the mode it was read in: the horizon is within a year, and every id is
      positive, in its original place and as often as it was given. */
  ghost predicate Means(query: Query, input: Input) {
    MeansScope(query, input.scope) && MeansSpending(query, input.spending)
  }

  /** The keys of either mode. */
  lemma AllowedIff(key: string, events: bool)
    ensures key in Allowed(events) <==>
            || key == "horizon_days" || key == "account_id" || key == "include_descendants" || key == "reporting_currency_id"
            || key == "fx_method" || key == "spending_model" || key == "history_complete_from" || key == "expense_category_id"
            || key == "expense_pattern"
            || (events && (key == "date" || key == "basis_token" || key == "detail_account_id" || key == "detail_commodity_id"
                           || key == "limit" || key == "cursor"))
  {
  }

  /* ---------------------------------------------------------------- what a refusal says */

  predicate NotOnce(query: Query, key: string, m: string) {
    key in query && (|query[key]| != 1 || query[key][0] == "") && m == key + " must be supplied exactly once"
  }

  /** A list of ids with something else among them. */
  ghost predicate NotIds(query: Query, key: string) {
    key in query && exists i :: 0 <= i < |query[key]| && !IsSomeId(query[key][i])
  }

  predicate HorizonProblem(query: Query, m: string) {
    "horizon_days" in query
    && var values := query["horizon_days"];
       || NotOnce(query, "horizon_days", m)
       || (|values| == 1 && ParseInt(values[0], 32).None? && m == "horizon_days" + " must be an integer")
       || (|values| == 1 && ParseInt(values[0], 32).Some? && !(1 <= ParseInt(values[0], 32).value <= 366)
           && m == "horizon_days must be between 1 and 366")
  }

  /** Every refusal names something that is wrong with the query. */
  ghost predicate ScopeProblem(query: Query, m: string) {
    || HorizonProblem(query, m)
    || ("include_descendants" in query && query["include_descendants"] != ["true"] && query["include_descendants"] != ["false"]
        && m == "include_descendants must be true or false")
    || (NotIds(query, "account_id") && m == "account_id must be a positive integer")
    || NotOnce(query, "reporting_currency_id", m)
    || (NotIds(query, "reporting_currency_id") && m == "reporting_currency_id" + " must be a positive integer")
    || NotOnce(query, "fx_method", m)
  }

  ghost predicate SpendingProblem(query: Query, m: string) {
    || NotOnce(query, "spending_model", m) || NotOnce(query, "history_complete_from", m)
    || (NotIds(query, "expense_category_id") && m == "expense_category_id must be a positive integer")
    || ("expense_pattern" in query && exists i :: 0 <= i < |query["expense_pattern"]| && PatternProblem(query["expense_pattern"][i], m))
  }

  lemma IdsAreUnique(values: seq<string>, a: seq<int>, b: seq<int>)
    requires ReadsIds(values, a) && ReadsIds(values, b)
    ensures a == b
  {
    forall i | 0 <= i < |values| ensures a[i] == b[i] {
      assert IsId(values[i], a[i]) && IsId(values[i], b[i]);
    }
  }

  lemma PatternsAreUnique(values: seq<string>, a: seq<Pattern>, b: seq<Pattern>)
    requires ReadsPatterns(values, a) && ReadsPatterns(values, b)
    ensures a == b
  {
    forall i | 0 <= i < |values| ensures a[i] == b[i] {
      ParsePatternIff(values[i], a[i]);
      ParsePatternIff(values[i], b[i]);
    }
  }

  /** A query means at most one input. */
  lemma MeaningIsUnique(query: Query, a: Input, b: Input)
    requires Means(query, a) && Means(query, b)
    ensures a == b
  {
    IdsAreUnique(ValuesOf(query, "account_id"), a.scope.accountIds, b.scope.accountIds);
    IdsAreUnique(ValuesOf(query, "expense_category_id"), a.spending.categoryIds, b.spending.categoryIds);
    PatternsAreUnique(ValuesOf(query, "expense_pattern"), a.spending.patterns, b.spending.patterns);
    assert "true" != "false";
  }

  /** parseForecastSpendingModel. */
  method ParseSpending(query: Query) returns (r: Result<Spending, string>)
    ensures r.Ok? ==> MeansSpending(query, r.value)
    ensures r.Err? ==> (forall s :: !MeansSpending(query, s)) && SpendingProblem(query, r.error)
  {
    var model := OptionalScalar(query, "spending_model");
    if model.Err? {
      return Err(model.error);
    }
    var historyFrom := OptionalScalar(query, "history_complete_from");
    if historyFrom.Err? {
      return Err(historyFrom.error);
    }
    var categories := ParseIds(ValuesOf(query, "expense_category_id"), "expense_category_id must be a positive integer");
    if categories.Err? {
      return Err(categories.error);
    }
    var patterns := ParsePatterns(ValuesOf(query, "expense_pattern"));
    if patterns.Err? {
      return Err(patterns.error);
    }
    r := Ok(Spending(model.value, historyFrom.value, categories.value, patterns.value));
  }

  method ParseScope(query: Query) returns (r: Result<Scope, string>)
    ensures r.Ok? ==> MeansScope(query, r.value)
    ensures r.Err? ==> (forall s :: !MeansScope(query, s)) && ScopeProblem(query, r.error)
  {
    var horizon := OptionalInt(query, "horizon_days", 90);
    if horizon.Err? {
      return Err(horizon.error);
    }
    if horizon.value < 1 || horizon.value > 366 {
      return Err("horizon_days must be between 1 and 366");
    }
    var includeDescendants := true;
    if "include_descendants" in query {
      var values := query["include_descendants"];
      if |values| != 1 || (values[0] != "true" && values[0] != "false") {
        return Err("include_descendants must be true or false");
      }
      includeDescendants := values[0] == "true";
    }
    var accountIds := ParseIds(ValuesOf(query, "account_id"), "account_id must be a positive integer");
    if accountIds.Err? {
      return Err(accountIds.error);
    }
    var reporting := OptionalId(query, "reporting_currency_id");
    if reporting.Err? {
      return Err(reporting.error);
    }
    var fxMethod := OptionalScalar(query, "fx_method");
    if fxMethod.Err? {
      return Err(fxMethod.error);
    }
    r := Ok(Scope(horizon.value, includeDescendants, accountIds.value, reporting.value, fxMethod.value));
  }

  /** parseForecastQuery: accepted if and only if every key is allowed in the mode and the query has a meaning,
      which is then the result. */
  method Parse(query: Query, events: bool) returns (r: Result<Input, string>)
    ensures r.Ok? ==> query.Keys <= Allowed(events) && Means(query, r.value)
    ensures r.Err? ==> !(query.Keys <= Allowed(events)) || forall input :: !Means(query, input)
    ensures !(query.Keys <= Allowed(events)) ==> r == Err("unknown forecast query parameter")
    ensures r.Err? && query.Keys <= Allowed(events) ==> ScopeProblem(query, r.error) || SpendingProblem(query, r.error)
  {
    if !(query.Keys <= Allowed(events)) {
      return Err("unknown forecast query parameter");
    }
    var scope := ParseScope(query);
    if scope.Err? {
      return Err(scope.error);
    }
    var spending := ParseSpending(query);
    if spending.Err? {
      return Err(spending.error);
    }
    r := Ok(Input(scope.value, spending.value));
  }

  /** The two modes agree: a query the balances mode accepts is accepted by the events mode with the same input,
      and conversely unless it uses a key only events know. */
  method ParseInBothModes(query: Query) returns (balances: Result<Input, string>, events: Result<Input, string>)
    ensures balances.Ok? <==> query.Keys <= Allowed(false) && exists input :: Means(query, input)
    ensures events.Ok? <==> query.Keys <= Allowed(true) && exists input :: Means(query, input)
    ensures balances.Ok? ==> events == balances
    ensures events.Ok? && query.Keys !! EVENT_KEYS ==> balances == events
  {
    balances := Parse(query, false);
    events := Parse(query, true);
    if balances.Ok? && events.Ok? {
      MeaningIsUnique(query, balances.value, events.value);
    }
  }
}
