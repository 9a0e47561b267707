/** URL parameters of the statistics endpoint: parsing them into a filter and reporting the ones that are wrong. */
module Queries {
  import opened Options
  import opened Json
  import opened Calendar
  import opened TimeFilters
  import opened Sql
  import opened Filters

  /** Parsed URL parameters: every present parameter has at least one value. */
  type Values = query: map<string, seq<string>> | forall p <- query :: query[p] != []
    witness map[]

  /** The orders in which a Go map may be iterated: every key once. */
  ghost predicate Enumerates(order: seq<string>, keys: set<string>) {
    (forall k :: k in order <==> k in keys) && forall i, j :: 0 <= i < j < |order| ==> order[i] != order[j]
  }

  predicate IsFlagValue(v: string) { v == "" || v == "true" }

  predicate FlagSet(query: Values, param: string) {
    param in query && IsFlagValue(query[param][0])
  }

  function FlagErrors(query: Values, param: string): seq<string> {
    if param in query && !IsFlagValue(query[param][0]) then [param + "=" + query[param][0]] else []
  }

  function OptionErrors(query: Values, param: string, options: set<string>): seq<string> {
    if param in query && query[param][0] !in options then [param + "=" + query[param][0]] else []
  }

  function FirstValue(query: Values, param: string): string {
    if param in query then query[param][0] else ""
  }

  /** How a date is read for a suffix: ParseTimeFilter in the server's time zone. */
  type Reader = (string, string) -> TimeFilter

  function ReadIn(local: int): Reader {
    (suffix, text) => ParseTimeFilter(suffix, text, local)
  }

  /** The date filter of one suffix, if the query has it and it can be read. */
  function DateFilter(query: Values, param: string, suffix: string, read: Reader): Option<TimeFilter> {
    if param + suffix in query then
      var f := read(suffix, query[param + suffix][0]);
      if f.IsZero() then None else Some(f)
    else None
  }

  predicate DateError(query: Values, param: string, suffix: string, read: Reader) {
    param + suffix in query && DateFilter(query, param, suffix, read).None?
  }

  /** What one suffix adds to the filters, and to the errors. */
  function DateFilterOf(query: Values, param: string, suffix: string, read: Reader): seq<TimeFilter> {
    var f := DateFilter(query, param, suffix, read);
    if f.Some? then [f.value] else []
  }

  function DateErrorOf(query: Values, param: string, suffix: string, read: Reader): seq<string> {
    if DateError(query, param, suffix, read) then [param + suffix + "=" + query[param + suffix][0]] else []
  }

  function DateFilters(query: Values, param: string, order: seq<string>, read: Reader): seq<TimeFilter> {
    if order == [] then []
    else DateFilters(query, param, order[..|order| - 1], read) + DateFilterOf(query, param, order[|order| - 1], read)
  }

  function DateErrors(query: Values, param: string, order: seq<string>, read: Reader): seq<string> {
    if order == [] then []
    else DateErrors(query, param, order[..|order| - 1], read) + DateErrorOf(query, param, order[|order| - 1], read)
  }

  function LeftoverErrorOf(query: Values, checked: set<string>, p: string): seq<string> {
    if p !in checked then [p + " (unknown parameter)"]
    else if p in query && |query[p]| > 1 then [p + " (multiple values)"]
    else []
  }

  function LeftoverErrors(query: Values, checked: set<string>, order: seq<string>): seq<string> {
    if order == [] then []
    else LeftoverErrors(query, checked, order[..|order| - 1]) + LeftoverErrorOf(query, checked, order[|order| - 1])
  }

  lemma NoSuffixes(query: Values, param: string, read: Reader)
    ensures DateFilters(query, param, [], read) == [] && DateErrors(query, param, [], read) == []
  {
  }

  lemma NextSuffix(query: Values, param: string, order: seq<string>, read: Reader, i: nat)
    requires i < |order|
    ensures DateFilters(query, param, order[..i + 1], read)
         == DateFilters(query, param, order[..i], read) + DateFilterOf(query, param, order[i], read)
    ensures DateErrors(query, param, order[..i + 1], read)
         == DateErrors(query, param, order[..i], read) + DateErrorOf(query, param, order[i], read)
    ensures (set s | s in order[..i + 1] :: param + s) == (set s | s in order[..i] :: param + s) + {param + order[i]}
  {
    hide DateFilterOf, DateErrorOf;
    assert order[..i + 1][..i] == order[..i] && order[..i + 1] == order[..i] + [order[i]];
  }

  lemma NoParams(query: Values, checked: set<string>)
    ensures LeftoverErrors(query, checked, []) == []
  {
  }

  lemma NextParam(query: Values, checked: set<string>, order: seq<string>, i: nat)
    requires i < |order|
    ensures LeftoverErrors(query, checked, order[..i + 1])
         == LeftoverErrors(query, checked, order[..i]) + LeftoverErrorOf(query, checked, order[i])
  {
    hide LeftoverErrorOf;
    assert order[..i + 1][..i] == order[..i];
  }

  class QueryParser {
    const query: Values
    var checkedParams: set<string>
    var invalidParams: seq<string>

    constructor (query: Values)
      ensures this.query == query && checkedParams == {} && invalidParams == []
    {
      this.query := query;
      checkedParams, invalidParams := {}, [];
    }

    method Flag(param: string) returns (r: bool)
      modifies this
      ensures checkedParams == old(checkedParams) + {param}
      ensures invalidParams == old(invalidParams) + FlagErrors(query, param)
      ensures r <==> FlagSet(query, param)
    {
      checkedParams := checkedParams + {param};
      if param !in query {
        return false;
      }
      if query[param][0] == "" || query[param][0] == "true" {
        return true;
      }
      invalidParams := invalidParams + [param + "=" + query[param][0]];
      return false;
    }

    method String(param: string) returns (r: string)
      modifies this`checkedParams
      ensures checkedParams == old(checkedParams) + {param}
      ensures r == FirstValue(query, param)
    {
      checkedParams := checkedParams + {param};
      if param !in query {
        return "";
      }
      return query[param][0];
    }

    method StringOption(param: string, options: set<string>) returns (r: string)
      modifies this
      ensures checkedParams == old(checkedParams) + {param}
      ensures invalidParams == old(invalidParams) + OptionErrors(query, param, options)
      ensures r == if param in query && query[param][0] in options then query[param][0] else ""
    {
      checkedParams := checkedParams + {param};
      if param !in query {
        return "";
      }
      if query[param][0] !in options {
        invalidParams := invalidParams + [param + "=" + query[param][0]];
        return "";
      }
      return query[param][0];
    }

    /** The suffixes are visited in whatever order the map iteration gives. */
    method TimeFilters(param: string, order: seq<string>, read: Reader) returns (filters: seq<TimeFilter>)
      modifies this
      ensures checkedParams == old(checkedParams) + set s | s in order :: param + s
      ensures invalidParams == old(invalidParams) + DateErrors(query, param, order, read)
      ensures filters == DateFilters(query, param, order, read)
    {
      hide DateFilters, DateErrors;
      filters := [];
      NoSuffixes(query, param, read);
      assert order[..0] == [];
      for i := 0 to |order|
        invariant checkedParams == old(checkedParams) + set s | s in order[..i] :: param + s
        invariant invalidParams == old(invalidParams) + DateErrors(query, param, order[..i], read)
        invariant filters == DateFilters(query, param, order[..i], read)
      {
        var suffix := order[i];
        NextSuffix(query, param, order, read, i);
        checkedParams := checkedParams + {param + suffix};
        if param + suffix in query {
          var filter := read(suffix, query[param + suffix][0]);
          if !filter.IsZero() {
            filters := filters + [filter];
          } else {
            invalidParams := invalidParams + [param + suffix + "=" + query[param + suffix][0]];
          }
        }
      }
      assert order[..|order|] == order;
    }

    method Validate(order: seq<string>) returns (invalid: seq<string>)
      requires Enumerates(order, query.Keys)
      modifies this`invalidParams
      ensures invalid == invalidParams == old(invalidParams) + LeftoverErrors(query, checkedParams, order)
    {
      hide LeftoverErrors;
      NoParams(query, checkedParams);
      assert order[..0] == [];
      for i := 0 to |order|
        invariant invalidParams == old(invalidParams) + LeftoverErrors(query, checkedParams, order[..i])
      {
        var p := order[i];
        assert p in order;
        NextParam(query, checkedParams, order, i);
        if p !in checkedParams {
          invalidParams := invalidParams + [p + " (unknown parameter)"];
        } else if |query[p]| > 1 {
          invalidParams := invalidParams + [p + " (multiple values)"];
        }
      }
      assert order[..|order|] == order;
      return invalidParams;
    }
  }

  // ---------- what a query says, without the parser ----------

  function GroupKeys(): set<string> { {"schema", "organization", "access_type", "date_created"} }

  /** The parameter names of the endpoint. */
  datatype Names = Names(drafts: string, published: string, att: string, ida: string, date: string, user: string, org: string, group: string,
    suffixes: set<string>, groupKeys: set<string>)

  const STATS := Names("only_drafts", "only_published", "only_att", "only_ida", "date_created", "user_created", "organization", "group_by",
    Suffixes().Keys, GroupKeys())

  predicate IsKnown(n: Names, p: string) {
    p == n.drafts || p == n.published || p == n.att || p == n.ida || p == n.user || p == n.org || p == n.group
    || exists s <- n.suffixes :: p == n.date + s
  }

  predicate FlagFine(query: Values, p: string) { p in query ==> IsFlagValue(query[p][0]) }

  /** Every parameter is known, has one value, and the value is acceptable. */
  predicate Acceptable(n: Names, query: Values, read: Reader) {
    && (forall p <- query :: IsKnown(n, p) && |query[p]| == 1)
    && FlagFine(query, n.drafts) && FlagFine(query, n.published) && FlagFine(query, n.att) && FlagFine(query, n.ida)
    && (forall s <- n.suffixes :: !DateError(query, n.date, s, read))
    && (n.group in query ==> query[n.group][0] in n.groupKeys)
  }

  predicate TextAsks(query: Values, p: string, column: Option<string>) {
    p in query && query[p][0] != "" ==> column == Some(query[p][0])
  }

  predicate DateAsks(n: Names, query: Values, suffix: string, read: Reader, created: Instant) {
    n.date + suffix in query ==> Selects(read(suffix, query[n.date + suffix][0]), created)
  }

  /** The constraints a query puts on a row. */
  predicate Asks(n: Names, query: Values, read: Reader, row: StatsRow) {
    && (n.drafts in query ==> !row.published) && (n.published in query ==> row.published)
    && (n.att in query ==> row.schema == "metax-att") && (n.ida in query ==> row.schema == "metax-ida")
    && TextAsks(query, n.user, TextMember(row.blob, "metadata_provider_user"))
    && TextAsks(query, n.org, TextMember(row.blob, "metadata_provider_org"))
    && (forall s <- n.suffixes :: DateAsks(n, query, s, read, row.created))
  }

  // ---------- orders do not matter ----------

  lemma {:induction false} DateErrorsNone(query: Values, param: string, order: seq<string>, read: Reader)
    ensures DateErrors(query, param, order, read) == [] <==> forall s <- order :: !DateError(query, param, s, read)
    decreases |order|
  {
    if order != [] {
      var init, last := order[..|order| - 1], order[|order| - 1];
      DateErrorsNone(query, param, init, read);
      assert order == init + [last];
    }
  }

  lemma {:induction false} LeftoverErrorsNone(query: Values, checked: set<string>, order: seq<string>)
    requires forall p <- order :: p in query
    ensures LeftoverErrors(query, checked, order) == [] <==> forall p <- order :: p in checked && |query[p]| == 1
    decreases |order|
  {
    hide LeftoverErrorOf;
    if order != [] {
      var init, last := order[..|order| - 1], order[|order| - 1];
      LeftoverErrorsNone(query, checked, init);
      assert order == init + [last];
      NoLeftoverError(query, checked, last);
    }
  }

  lemma NoLeftoverError(query: Values, checked: set<string>, p: string)
    requires p in query
    ensures LeftoverErrorOf(query, checked, p) == [] <==> p in checked && |query[p]| == 1
  {
    assert query[p] != [];
  }

  lemma {:induction false} DateFiltersSelect(n: Names, query: Values, order: seq<string>, read: Reader, x: Instant)
    requires forall s <- order :: !DateError(query, n.date, s, read)
    ensures (forall f <- DateFilters(query, n.date, order, read) :: Selects(f, x))
       <==> (forall s <- order :: DateAsks(n, query, s, read, x))
    decreases |order|
  {
    if order != [] {
      var init, last := order[..|order| - 1], order[|order| - 1];
      DateFiltersSelect(n, query, init, read, x);
      assert order == init + [last];
      var f := DateFilter(query, n.date, last, read);
      assert DateAsks(n, query, last, read, x) <==> (f.Some? ==> Selects(f.value, x));
      if f.Some? {
        assert DateFilters(query, n.date, order, read) == DateFilters(query, n.date, init, read) + [f.value];
        assert forall g :: g in DateFilters(query, n.date, order, read) <==> g in DateFilters(query, n.date, init, read) || g == f.value;
      }
    }
  }

  /** The filter getDatasetFilter builds. */
  function FilterOf(n: Names, query: Values, order: seq<string>, read: Reader): DatasetFilter {
    DatasetFilter(
      FlagSet(query, n.drafts), FlagSet(query, n.published), FlagSet(query, n.att), FlagSet(query, n.ida),
      DateFilters(query, n.date, order, read), FirstValue(query, n.user), FirstValue(query, n.org),
      if n.group in query && query[n.group][0] in n.groupKeys then query[n.group][0] else "", "")
  }

  lemma FilterAsks(n: Names, query: Values, order: seq<string>, read: Reader, row: StatsRow)
    requires Enumerates(order, n.suffixes) && Acceptable(n, query, read)
    ensures Matches(FilterOf(n, query, order, read), row) <==> Asks(n, query, read, row)
  {
    assert forall s <- order :: !DateError(query, n.date, s, read);
    DateFiltersSelect(n, query, order, read, row.created);
    assert (forall s <- order :: DateAsks(n, query, s, read, row.created)) <==> (forall s <- n.suffixes :: DateAsks(n, query, s, read, row.created));
  }

  ghost function CheckedBy(n: Names, order: seq<string>): set<string> {
    {n.drafts, n.published, n.att, n.ida} + (set s | s in order :: n.date + s) + {n.user, n.org, n.group}
  }

  lemma NoFlagErrors(n: Names, query: Values)
    ensures FlagErrors(query, n.drafts) + FlagErrors(query, n.published) + FlagErrors(query, n.att) + FlagErrors(query, n.ida) == []
       <==> FlagFine(query, n.drafts) && FlagFine(query, n.published) && FlagFine(query, n.att) && FlagFine(query, n.ida)
  {
  }

  ghost function FlagErrorsOf(n: Names, query: Values): seq<string> {
    FlagErrors(query, n.drafts) + FlagErrors(query, n.published) + FlagErrors(query, n.att) + FlagErrors(query, n.ida)
  }

  ghost function ErrorsOf(n: Names, query: Values, order: seq<string>, params: seq<string>, read: Reader): seq<string> {
    FlagErrorsOf(n, query) + DateErrors(query, n.date, order, read) + OptionErrors(query, n.group, n.groupKeys)
    + LeftoverErrors(query, CheckedBy(n, order), params)
  }

  lemma NoLeftovers(n: Names, query: Values, order: seq<string>, params: seq<string>)
    requires Enumerates(order, n.suffixes) && Enumerates(params, query.Keys)
    ensures LeftoverErrors(query, CheckedBy(n, order), params) == [] <==> forall p <- query :: IsKnown(n, p) && |query[p]| == 1
  {
    var checked := CheckedBy(n, order);
    LeftoverErrorsNone(query, checked, params);
    KnownIsChecked(n, order);
    assert forall p :: p in checked <==> IsKnown(n, p);
    assert (forall p <- params :: p in checked && |query[p]| == 1) <==> (forall p <- query :: IsKnown(n, p) && |query[p]| == 1);
  }

  lemma NoErrors(n: Names, query: Values, order: seq<string>, params: seq<string>, read: Reader)
    requires Enumerates(order, n.suffixes) && Enumerates(params, query.Keys)
    ensures ErrorsOf(n, query, order, params, read) == [] <==> Acceptable(n, query, read)
  {
    hide DateErrors, LeftoverErrors, CheckedBy, DateError, IsKnown, FlagFine, FlagErrors;
    DateErrorsNone(query, n.date, order, read);
    NoLeftovers(n, query, order, params);
    assert (forall s <- order :: !DateError(query, n.date, s, read)) <==> (forall s <- n.suffixes :: !DateError(query, n.date, s, read));
    NoFlagErrors(n, query);
  }

  lemma KnownIsChecked(n: Names, order: seq<string>)
    requires Enumerates(order, n.suffixes)
    ensures forall p :: p in CheckedBy(n, order) <==> IsKnown(n, p)
  {
    forall p ensures p in CheckedBy(n, order) <==> IsKnown(n, p) {
      assert (exists s :: s in order && p == n.date + s) <==> (exists s <- n.suffixes :: p == n.date + s);
    }
  }

  /** The SQL text selects a row, by the filter and by the query alike. */
  ghost predicate Agrees(n: Names, query: Values, read: Reader, filter: DatasetFilter, row: StatsRow) {
    && (Matches(filter, row) <==> Asks(n, query, read, row))
    && EvalWhere(WhereText(ItemsOf(filter)), ArgsOf(ItemsOf(filter)), row) == Some(Asks(n, query, read, row))
  }

  lemma FilterCompiles(n: Names, query: Values, order: seq<string>, read: Reader, filter: DatasetFilter)
    requires Enumerates(order, n.suffixes) && Acceptable(n, query, read)
    requires filter == FilterOf(n, query, order, read)
    ensures forall row :: Agrees(n, query, read, filter, row)
  {
    forall row ensures Agrees(n, query, read, filter, row) {
      FilterAsks(n, query, order, read, row);
      CompiledFilterMeans(filter, row);
    }
  }

  method ReadFlags(parser: QueryParser, n: Names) returns (drafts: bool, published: bool, att: bool, ida: bool)
    requires parser.checkedParams == {} && parser.invalidParams == []
    modifies parser
    ensures parser.checkedParams == {n.drafts, n.published, n.att, n.ida}
    ensures parser.invalidParams == FlagErrorsOf(n, parser.query)
    ensures (drafts <==> FlagSet(parser.query, n.drafts)) && (published <==> FlagSet(parser.query, n.published))
    ensures (att <==> FlagSet(parser.query, n.att)) && (ida <==> FlagSet(parser.query, n.ida))
  {
    drafts := parser.Flag(n.drafts);
    published := parser.Flag(n.published);
    att := parser.Flag(n.att);
    ida := parser.Flag(n.ida);
  }

  method ReadFilter(parser: QueryParser, n: Names, order: seq<string>, read: Reader) returns (filter: DatasetFilter)
    requires parser.checkedParams == {} && parser.invalidParams == []
    modifies parser
    ensures parser.checkedParams == CheckedBy(n, order)
    ensures parser.invalidParams == FlagErrorsOf(n, parser.query) + DateErrors(parser.query, n.date, order, read)
                                    + OptionErrors(parser.query, n.group, n.groupKeys)
    ensures filter == FilterOf(n, parser.query, order, read)
  {
    var drafts, published, att, ida := ReadFlags(parser, n);
    var dates := parser.TimeFilters(n.date, order, read);
    var user := parser.String(n.user);
    var org := parser.String(n.org);
    var group := parser.StringOption(n.group, n.groupKeys);
    filter := DatasetFilter(drafts, published, att, ida, dates, user, org, group, "");
  }

  /**
   The parameters are reported as valid exactly when every one is known, has one
   value and the value is acceptable; the filter then asks of every row exactly
   what the query says, whatever the iteration orders, and so does its SQL.
   */
  method ParseQuery(n: Names, query: Values, order: seq<string>, params: seq<string>, read: Reader)
    returns (filter: DatasetFilter, invalid: seq<string>)
    requires Enumerates(order, n.suffixes) && Enumerates(params, query.Keys)
    ensures invalid == [] <==> Acceptable(n, query, read)
    ensures filter == FilterOf(n, query, order, read)
    ensures invalid == [] ==> forall row :: Agrees(n, query, read, filter, row)
  {
    var parser := new QueryParser(query);
    filter := ReadFilter(parser, n, order, read);
    invalid := parser.Validate(params);
    assert invalid == ErrorsOf(n, query, order, params, read);
    NoErrors(n, query, order, params, read);
    if invalid == [] {
      FilterCompiles(n, query, order, read, filter);
    }
  }

  /** The statistics endpoint. */
  method GetDatasetFilter(query: Values, order: seq<string>, params: seq<string>, local: int)
    returns (filter: DatasetFilter, invalid: seq<string>)
    requires Enumerates(order, STATS.suffixes) && Enumerates(params, query.Keys)
    ensures invalid == [] <==> Acceptable(STATS, query, ReadIn(local))
    ensures invalid == [] ==> forall row :: Agrees(STATS, query, ReadIn(local), filter, row)
    ensures filter == FilterOf(STATS, query, order, ReadIn(local))
  {
    filter, invalid := ParseQuery(STATS, query, order, params, ReadIn(local));
  }

  // ---------- the endpoint's own parameters ----------

  lemma DateNames()
    ensures "date_created" + "" == "date_created" && "date_created" + "_eq" == "date_created_eq"
    ensures "date_created" + "_le" == "date_created_le" && "date_created" + "_ge" == "date_created_ge"
    ensures "date_created" + "_lt" == "date_created_lt" && "date_created" + "_gt" == "date_created_gt"
  {
  }

  const PARAMETERS := {"only_drafts", "only_published", "only_att", "only_ida", "user_created", "organization", "group_by",
                       "date_created", "date_created_eq", "date_created_le", "date_created_ge", "date_created_lt", "date_created_gt"}

  /** A flag is given without a value or as true. */
  predicate IsFlag(query: Values, p: string) { p in query ==> query[p][0] == "" || query[p][0] == "true" }

  /** A date is given that ParseTimeFilter reads. */
  predicate IsDate(query: Values, p: string, suffix: string, local: int) {
    p in query ==> !ParseTimeFilter(suffix, query[p][0], local).IsZero()
  }

  /** The queries the endpoint takes, name by name. */
  lemma AcceptableIff(query: Values, local: int)
    ensures Acceptable(STATS, query, ReadIn(local)) <==>
              && (forall p <- query :: p in PARAMETERS && |query[p]| == 1)
              && IsFlag(query, "only_drafts") && IsFlag(query, "only_published") && IsFlag(query, "only_att") && IsFlag(query, "only_ida")
              && IsDate(query, "date_created", "", local) && IsDate(query, "date_created_eq", "_eq", local)
              && IsDate(query, "date_created_le", "_le", local) && IsDate(query, "date_created_ge", "_ge", local)
              && IsDate(query, "date_created_lt", "_lt", local) && IsDate(query, "date_created_gt", "_gt", local)
              && ("group_by" in query ==> query["group_by"][0] in {"schema", "organization", "access_type", "date_created"})
  {
    hide ParseTimeFilter, Suffixes, IsKnown, DateError;
    SuffixTexts();
    ParametersKnown();
    DateNames();
    DateReadable(query, "", local);
    DateReadable(query, "_eq", local);
    DateReadable(query, "_le", local);
    DateReadable(query, "_ge", local);
    DateReadable(query, "_lt", local);
    DateReadable(query, "_gt", local);
  }

  lemma ParametersKnown()
    ensures forall p :: IsKnown(STATS, p) <==> p in PARAMETERS
  {
    hide Suffixes;
    SuffixTexts();
    DateNames();
    forall p ensures IsKnown(STATS, p) <==> p in PARAMETERS {
      assert (exists s <- STATS.suffixes :: p == STATS.date + s)
         <==> p == "date_created" + "" || p == "date_created" + "_eq" || p == "date_created" + "_le"
              || p == "date_created" + "_ge" || p == "date_created" + "_lt" || p == "date_created" + "_gt";
    }
  }

  lemma DateReadable(query: Values, suffix: string, local: int)
    ensures DateError(query, STATS.date, suffix, ReadIn(local)) <==> !IsDate(query, "date_created" + suffix, suffix, local)
  {
    hide ParseTimeFilter, Suffixes;
  }

  predicate AsksDate(query: Values, p: string, suffix: string, local: int, created: Instant) {
    p in query ==> Selects(ParseTimeFilter(suffix, query[p][0], local), created)
  }

  predicate AsksText(query: Values, p: string, blob: Json, key: string) {
    p in query && query[p][0] != "" ==> TextMember(blob, key) == Some(query[p][0])
  }

  /** What each parameter asks of a row, name by name. */
  lemma ParametersAsk(query: Values, local: int, row: StatsRow)
    ensures Asks(STATS, query, ReadIn(local), row) <==>
              && ("only_drafts" in query ==> row.published == false) && ("only_published" in query ==> row.published == true)
              && ("only_att" in query ==> row.schema == "metax-att") && ("only_ida" in query ==> row.schema == "metax-ida")
              && AsksText(query, "user_created", row.blob, "metadata_provider_user")
              && AsksText(query, "organization", row.blob, "metadata_provider_org")
              && AsksDate(query, "date_created", "", local, row.created) && AsksDate(query, "date_created_eq", "_eq", local, row.created)
              && AsksDate(query, "date_created_le", "_le", local, row.created) && AsksDate(query, "date_created_ge", "_ge", local, row.created)
              && AsksDate(query, "date_created_lt", "_lt", local, row.created) && AsksDate(query, "date_created_gt", "_gt", local, row.created)
  {
    hide ParseTimeFilter, Suffixes, TextMember, DateAsks, Selects;
    SuffixTexts();
    DateNames();
    DateAsked(query, "", local, row.created);
    DateAsked(query, "_eq", local, row.created);
    DateAsked(query, "_le", local, row.created);
    DateAsked(query, "_ge", local, row.created);
    DateAsked(query, "_lt", local, row.created);
    DateAsked(query, "_gt", local, row.created);
  }

  lemma DateAsked(query: Values, suffix: string, local: int, created: Instant)
    ensures DateAsks(STATS, query, suffix, ReadIn(local), created) <==> AsksDate(query, "date_created" + suffix, suffix, local, created)
  {
    hide ParseTimeFilter, Suffixes, Selects;
  }
}
