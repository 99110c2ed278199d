/** The search query and filter list the download worker hands to the
    search client, and the "Search Terms:" line of the configuration
    summary, both built from the form's data type and search-term mode. */
module Query {
  import opened Wrappers
  import opened Text

  /** An entry of the data-type table: an optional category filter and the
      suggested search terms. */
  datatype DataType = DataType(filter: Option<string>, terms: seq<string>)

  const AllDataTypes := "All Data Types (Recommended)"

  /** The static data-type table of the form. */
  const DataTypes: map<string, DataType> := map[
    AllDataTypes :=
      DataType(None, ["geology", "mining", "exploration", "geochemistry", "geophysics"]),
    "Geochemistry Data" :=
      DataType(Some("earth_science_data_category:geochemistry"),
               ["geochemistry", "chemical analysis", "assay", "elements"]),
    "Geophysics Data" :=
      DataType(Some("earth_science_data_category:geophysics"),
               ["geophysics", "magnetic", "gravity", "seismic"]),
    "Geological Data" :=
      DataType(Some("earth_science_data_category:geology"),
               ["geology", "geological", "structure", "stratigraphy"]),
    "Mining Data" :=
      DataType(Some("earth_science_data_category:mining"),
               ["mining", "exploration", "resource", "reserve"]),
    "Hydrogeology Data" :=
      DataType(Some("earth_science_data_category:hydrogeology"),
               ["hydrogeology", "groundwater", "aquifer", "water"])
  ]

  /** The query that matches everything. */
  const Wildcard := "*:*"
  const ReportFilter := "type:report"
  const OrSeparator := " OR "

  /** Python's `terms[:3]`. */
  function FirstThree(terms: seq<string>): seq<string>
  {
    if |terms| <= 3 then terms else terms[..3]
  }

  /** The query text of suggested mode: the first three suggested terms. */
  function SuggestedTerms(info: DataType): string
  {
    Join(FirstThree(info.terms), OrSeparator)
  }

  /** The query text of custom mode: the whitespace-separated words of the entry. */
  function CustomTerms(custom: string): string
  {
    Join(SplitWhitespace(Strip(custom)), OrSeparator)
  }

  /** `search_query` in `download_worker`. */
  function SearchQuery(mode: string, info: DataType, custom: string): string
  {
    if mode == "suggested" then SuggestedTerms(info)
    else if mode == "custom" then (if Strip(custom) != [] then CustomTerms(custom) else Wildcard)
    else Wildcard
  }

  /** The "Search Terms:" line of `update_summary`. */
  function SummaryTerms(mode: string, info: DataType, custom: string): string
  {
    if mode == "suggested" then SuggestedTerms(info)
    else if mode == "custom" then (if Strip(custom) != [] then CustomTerms(custom) else "No terms")
    else "*:* (everything)"
  }

  /** Python truthiness of the table's `filter` entry: `None` and `''` are false. */
  predicate HasCategory(info: DataType)
  {
    info.filter.Some? && info.filter.value != []
  }

  /** What the worker passes to the search client. */
  datatype SearchParams = SearchParams(query: string, filters: seq<string>)

  /** The lookup of the selected data type and the assembly of the query and
      the filters in `download_worker`; a name missing from the table raises
      `KeyError`, which the worker reports as a failed download. */
  method BuildSearch(dataType: string, mode: string, custom: string) returns (r: Option<SearchParams>)
    ensures r.None? <==> dataType !in DataTypes
    ensures r.Some? ==>
      var info := DataTypes[dataType];
      r.value.query == SearchQuery(mode, info, custom) &&
      |r.value.filters| == (if HasCategory(info) then 2 else 1) &&
      r.value.filters[|r.value.filters| - 1] == ReportFilter &&
      (HasCategory(info) ==> r.value.filters[0] == info.filter.value)
  {
    if dataType !in DataTypes {
      return None;
    }
    var info := DataTypes[dataType];
    var query := SearchQuery(mode, info, custom);
    var filters: seq<string> := [];
    if HasCategory(info) {
      filters := filters + [info.filter.value];
    }
    filters := filters + [ReportFilter];
    return Some(SearchParams(query, filters));
  }

  /** In suggested mode the query joins exactly the first `min(3, n)`
      suggested terms with " OR "; when those terms are single words, the
      query splits back into them with an `OR` between neighbours. */
  lemma {:induction false} SuggestedQueryWords(info: DataType, custom: string)
    ensures var q := SearchQuery("suggested", info, custom);
      var named := FirstThree(info.terms);
      |named| == (if |info.terms| < 3 then |info.terms| else 3) &&
      named == info.terms[..|named|] &&
      q == Join(named, OrSeparator) &&
      ((forall k :: 0 <= k < |named| ==> named[k] != [] && NoSpace(named[k])) ==>
         SplitWhitespace(q) == Interleave(named, "OR"))
  {
    var named := FirstThree(info.terms);
    if forall k :: 0 <= k < |named| ==> named[k] != [] && NoSpace(named[k]) {
      SplitWhitespaceJoinOr(named);
    }
  }

  /** Every entry of the table has more than three suggested terms, so
      suggested mode always queries exactly the first three. */
  lemma {:induction false} SuggestedQueryOfTable(name: string, custom: string)
    requires name in DataTypes
    ensures var t := DataTypes[name].terms;
      |t| > 3 &&
      SearchQuery("suggested", DataTypes[name], custom) == t[0] + " OR " + t[1] + " OR " + t[2]
  {
    var t := DataTypes[name].terms;
    var first := t[..3];
    assert first[1..] == [t[1], t[2]] && first[1..][1..] == [t[2]];
  }

  /** In custom mode a blank entry gives the match-everything query, and any
      other entry gives a query naming exactly its words, separated by `OR`. */
  lemma {:induction false} CustomQueryWords(info: DataType, custom: string)
    ensures AllSpace(custom) ==> SearchQuery("custom", info, custom) == Wildcard
    ensures !AllSpace(custom) ==>
      SplitWhitespace(Strip(custom)) != [] &&
      SplitWhitespace(SearchQuery("custom", info, custom)) ==
        Interleave(SplitWhitespace(Strip(custom)), "OR")
  {
    StripEmptyIffAllSpace(custom);
    if !AllSpace(custom) {
      StripNotBlank(custom);
      SplitWhitespaceEmpty(Strip(custom));
      SplitWhitespaceJoinOr(SplitWhitespace(Strip(custom)));
    }
  }

  /** Any mode other than suggested or custom queries everything. */
  lemma {:induction false} OtherModeQuery(mode: string, info: DataType, custom: string)
    requires mode != "suggested" && mode != "custom"
    ensures SearchQuery(mode, info, custom) == Wildcard
  {
  }

  /** The summary shows the terms the worker will query with; where the
      worker falls back to the match-everything query, the summary says
      "No terms" (blank custom entry) or "*:* (everything)" (other modes). */
  lemma {:induction false} SummaryMatchesQuery(mode: string, info: DataType, custom: string)
    ensures var q, s := SearchQuery(mode, info, custom), SummaryTerms(mode, info, custom);
      (mode == "suggested" ==> s == q) &&
      (mode == "custom" && !AllSpace(custom) ==> s == q) &&
      (mode == "custom" && AllSpace(custom) ==> s == "No terms" && q == Wildcard) &&
      (mode != "suggested" && mode != "custom" ==> s == "*:* (everything)" && q == Wildcard)
  {
    StripEmptyIffAllSpace(custom);
  }

  /** Only the "All Data Types" entry lacks a category filter, so its
      searches carry one filter and every other entry's carry two. */
  lemma {:induction false} TableCategories(name: string)
    requires name in DataTypes
    ensures HasCategory(DataTypes[name]) <==> name != AllDataTypes
  {
  }
}
