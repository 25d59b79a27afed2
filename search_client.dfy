/**
 * The request builders of lib/typesense/client.ts and the suggestion merge.
 *
 * Each builder writes an object literal of computed parameters and then
 * spreads the caller's `options` over it, so a key the caller passes wins
 * over the computed one. Parameter objects are maps from key to value; a
 * key whose value is `undefined` is present with `Undefined`.
 */
module SearchClient {
  import opened Wrappers
  import opened Js

  /** A parameter value: a string, an integer, a boolean or `undefined`. */
  datatype Value = Str(s: string) | Num(n: int) | Bool(b: bool) | Undefined

  /**
   * The search parameter keys the builders write; `Other` is any further key
   * a caller passes, named by a string that is not one of the named keys'
   * property names (`Other("filter_by")` does not arise: it is `FilterBy`).
   */
  datatype Key =
    | Q | QueryBy | QueryByWeights | VectorQuery | Prefix | NumTypos
    | TypoTokensThreshold | DropTokensThreshold | EnableSynonyms | SynonymPrefix
    | EnableOverrides | EnableHighlightV1 | HighlightFields | HighlightFullFields
    | SnippetThreshold | MaxExtraPrefix | MaxExtraSuffix | UserId | FacetBy
    | MaxFacetValues | FacetQuery | FilterBy | SortBy | Page | PerPage | GroupBy
    | GroupLimit | IncludeFields | Other(name: string)

  type Params = map<Key, Value>

  /** Values as JavaScript conditions: `""`, 0, `false` and `undefined` are falsy. */
  predicate Truthy(v: Value) {
    match v
    case Str(s) => s != ""
    case Num(n) => n != 0
    case Bool(b) => b
    case Undefined => false
  }

  /** `options.key`: `undefined` when the caller did not pass it. */
  function Get(options: Params, key: Key): (r: Value)
    ensures key !in options ==> r == Undefined
    ensures key in options ==> r == options[key]
  {
    if key in options then options[key] else Undefined
  }

  /** `options.key || d`. */
  function Or(options: Params, key: Key, d: Value): (r: Value)
    ensures Truthy(Get(options, key)) ==> r == options[key]
    ensures !Truthy(Get(options, key)) ==> r == d
  {
    if Truthy(Get(options, key)) then options[key] else d
  }

  /** A value written into a template string. */
  function Text(v: Value): string {
    match v
    case Str(s) => s
    case Num(n) => IntToString(n)
    case Bool(b) => if b then "true" else "false"
    case Undefined => "undefined"
  }

  /** `{ ...computed, ...options }`: every key of either; the caller's value wins. */
  function Spread(computed: Params, options: Params): (r: Params)
    ensures r.Keys == computed.Keys + options.Keys
    ensures forall k :: k in options ==> r[k] == options[k]
    ensures forall k :: k in computed && k !in options ==> r[k] == computed[k]
  {
    computed + options
  }

  /**
   * A `||` default followed by the spread of the same options is decided by
   * presence alone: a key the caller passes is sent as passed, even when
   * falsy, and the default is used only when the key is absent.
   */
  lemma DefaultThenSpread(computed: Params, options: Params, key: Key, d: Value)
    requires key in computed && computed[key] == Or(options, key, d)
    ensures Spread(computed, options)[key] == (if key in options then options[key] else d)
  {
  }

  // ---------------------------------------------------------------------
  // facetedSearch
  // ---------------------------------------------------------------------

  /** `Object.entries(filters)`: field and values, in insertion order. */
  type Filters = seq<(string, seq<string>)>

  predicate HasValues(entry: (string, seq<string>)) {
    |entry.1| > 0
  }

  /** One filter clause: `field:v` for a single value, `field:[v1, v2, ...]` for several. */
  function FilterClause(field: string, values: seq<string>): (c: string)
    requires |values| > 0
    ensures StartsWith(c, field + ":")
    ensures |values| == 1 ==> c == field + ":" + values[0]
    ensures |values| > 1 ==> c == field + ":[" + Join(values, ", ") + "]"
    ensures forall i :: 0 <= i < |values| ==> Contains(c, values[i])
  {
    if |values| == 1 then
      ContainsInfix(field + ":", values[0], "");
      assert field + ":" + values[0] + "" == field + ":" + values[0];
      assert (field + ":" + values[0])[..|field + ":"|] == field + ":";
      field + ":" + values[0]
    else
      var c := field + ":[" + Join(values, ", ") + "]";
      forall i | 0 <= i < |values|
        ensures Contains(c, values[i])
      {
        JoinContains(values, ", ", i);
        ContainsWithin(field + ":[", Join(values, ", "), "]", values[i]);
      }
      assert c[..|field + ":"|] == field + ":";
      c
  }

  /** The clauses of the entries that have values, in entry order. */
  function FilterClauses(filters: Filters): (r: seq<string>)
    ensures |r| <= |filters|
    decreases |filters|
  {
    if filters == [] then []
    else
      (if HasValues(filters[0]) then [FilterClause(filters[0].0, filters[0].1)] else [])
      + FilterClauses(filters[1..])
  }

  /**
   * Entry order is kept: the clauses of two runs of entries are the two
   * runs' clauses, one after the other.
   */
  lemma {:induction false} FilterClausesConcat(a: Filters, b: Filters)
    ensures FilterClauses(a + b) == FilterClauses(a) + FilterClauses(b)
    decreases |a|
  {
    if a == [] {
      assert a + b == b;
    } else {
      var h := if HasValues(a[0]) then [FilterClause(a[0].0, a[0].1)] else [];
      FilterClausesConcat(a[1..], b);
      calc {
        FilterClauses(a + b);
        == { assert (a + b)[0] == a[0]; assert (a + b)[1..] == a[1..] + b; }
        h + FilterClauses(a[1..] + b);
        ==
        h + (FilterClauses(a[1..]) + FilterClauses(b));
        ==
        (h + FilterClauses(a[1..])) + FilterClauses(b);
      }
    }
  }

  /** A single entry gives no clause when its list is empty and its own clause otherwise. */
  lemma FilterClausesOne(field: string, values: seq<string>)
    ensures |values| == 0 ==> FilterClauses([(field, values)]) == []
    ensures |values| > 0 ==> FilterClauses([(field, values)]) == [FilterClause(field, values)]
  {
    assert [(field, values)][1..] == [];
  }

  /** As many clauses as entries with values. */
  lemma {:induction false} FilterClausesCount(filters: Filters)
    ensures |FilterClauses(filters)| == |Filter(filters, HasValues)|
    decreases |filters|
  {
    if filters != [] {
      FilterClausesCount(filters[1..]);
    }
  }

  const TitleDescription := "title,description"

  /** The parameters `facetedSearch` computes, before the caller's options are spread over them. */
  function FacetedComputed(query: string, facets: seq<string>, filters: Filters, options: Params): (c: Params)
    ensures c.Keys == {Q, QueryBy, FacetBy, FilterBy, MaxFacetValues, PerPage, Page, SortBy}
    ensures c[Q] == Str(query) && c[QueryBy] == Or(options, QueryBy, Str(TitleDescription))
    ensures c[FacetBy] == Str(Join(facets, ",")) && c[MaxFacetValues] == Num(20)
    ensures c[PerPage] == Or(options, PerPage, Num(20)) && c[Page] == Or(options, Page, Num(1))
    ensures c[FilterBy] == (if FilterClauses(filters) == [] then Undefined
                            else Str(Join(FilterClauses(filters), " && ")))
  {
    var clauses := FilterClauses(filters);
    map[
      Q := Str(query),
      QueryBy := Or(options, QueryBy, Str(TitleDescription)),
      FacetBy := Str(Join(facets, ",")),
      FilterBy := if |clauses| > 0 then Str(Join(clauses, " && ")) else Undefined,
      MaxFacetValues := Num(20),
      PerPage := Or(options, PerPage, Num(20)),
      Page := Or(options, Page, Num(1)),
      SortBy := Get(options, SortBy)]
  }

  /** `facetedSearch`'s parameters. */
  function FacetedSearch(query: string, facets: seq<string>, filters: Filters, options: Params): (r: Params)
    ensures r.Keys == {Q, QueryBy, FacetBy, FilterBy, MaxFacetValues, PerPage, Page, SortBy} + options.Keys
    ensures FilterBy !in options ==>
      r[FilterBy] == (if FilterClauses(filters) == [] then Undefined
                      else Str(Join(FilterClauses(filters), " && ")))
    ensures QueryBy !in options ==> r[QueryBy] == Str(TitleDescription)
    ensures FacetBy !in options ==> r[FacetBy] == Str(Join(facets, ","))
    ensures Q !in options ==> r[Q] == Str(query)
    ensures forall k :: k in options ==> r[k] == options[k]
  {
    Spread(FacetedComputed(query, facets, filters, options), options)
  }

  /** `facetedSearch`'s paging: 20 per page and page 1 unless the caller passes either, falsy or not. */
  lemma FacetedSearchPaging(query: string, facets: seq<string>, filters: Filters, options: Params)
    ensures FacetedSearch(query, facets, filters, options)[PerPage] ==
              (if PerPage in options then options[PerPage] else Num(20))
    ensures FacetedSearch(query, facets, filters, options)[Page] ==
              (if Page in options then options[Page] else Num(1))
    ensures MaxFacetValues !in options ==> FacetedSearch(query, facets, filters, options)[MaxFacetValues] == Num(20)
  {
    var c := FacetedComputed(query, facets, filters, options);
    DefaultThenSpread(c, options, PerPage, Num(20));
    DefaultThenSpread(c, options, Page, Num(1));
  }

  /** A caller's `filter_by` replaces the filter built from `filters`. */
  lemma FacetedSearchCallerFilter(query: string, facets: seq<string>, filters: Filters, f: Value)
    ensures FacetedSearch(query, facets, filters, map[FilterBy := f])[FilterBy] == f
  {
  }

  // ---------------------------------------------------------------------
  // geoSearch
  // ---------------------------------------------------------------------

  const GeoSort := "_geo_distance(location):asc"

  /** The geo clause; coordinates and radius are taken as already-rendered numbers. */
  function GeoFilter(lat: string, lng: string, radiusKm: string): (g: string)
    ensures StartsWith(g, "location:(")
    ensures |g| == |lat| + |lng| + |radiusKm| + 18
    ensures g[10..10 + |lat|] == lat
    ensures g[12 + |lat|..12 + |lat| + |lng|] == lng
    ensures g[14 + |lat| + |lng|..|g| - 4] == radiusKm
    ensures g[|g| - 4..] == " km)"
  {
    var g := "location:(" + lat + ", " + lng + ", " + radiusKm + " km)";
    assert g[..10] == "location:(";
    assert g[10..10 + |lat|] == lat;
    assert g[12 + |lat|..12 + |lat| + |lng|] == lng;
    assert g[14 + |lat| + |lng|..|g| - 4] == radiusKm;
    assert g[|g| - 4..] == " km)";
    g
  }

  /** `combinedFilter`: the caller's filter and the geo clause, or the geo clause alone. */
  function CombinedFilter(existing: Value, geo: string): (r: string)
    ensures Contains(r, geo)
    ensures Truthy(existing) ==> r == Text(existing) + " && " + geo
    ensures !Truthy(existing) ==> r == geo
  {
    if Truthy(existing) then
      ContainsInfix(Text(existing) + " && ", geo, "");
      assert Text(existing) + " && " + geo + "" == Text(existing) + " && " + geo;
      Text(existing) + " && " + geo
    else
      ContainsInfix("", geo, "");
      assert "" + geo + "" == geo;
      geo
  }

  /** The parameters `geoSearch` computes, before the caller's options are spread over them. */
  function GeoComputed(query: string, lat: string, lng: string, radiusKm: string, options: Params): (c: Params)
    ensures c.Keys == {Q, QueryBy, FilterBy, SortBy, PerPage, Page, FacetBy}
    ensures c[QueryBy] == Or(options, QueryBy, Str(TitleDescription)) && c[SortBy] == Or(options, SortBy, Str(GeoSort))
    ensures c[PerPage] == Or(options, PerPage, Num(20)) && c[Page] == Or(options, Page, Num(1))
    ensures c[FilterBy] == Str(CombinedFilter(Get(options, FilterBy), GeoFilter(lat, lng, radiusKm)))
  {
    map[
      Q := Str(query),
      QueryBy := Or(options, QueryBy, Str(TitleDescription)),
      FilterBy := Str(CombinedFilter(Get(options, FilterBy), GeoFilter(lat, lng, radiusKm))),
      SortBy := Or(options, SortBy, Str(GeoSort)),
      PerPage := Or(options, PerPage, Num(20)),
      Page := Or(options, Page, Num(1)),
      FacetBy := Get(options, FacetBy)]
  }

  /** `geoSearch`'s parameters, as written: the options are spread last. */
  function GeoSearch(query: string, lat: string, lng: string, radiusKm: string, options: Params): (r: Params)
    ensures r.Keys == {Q, QueryBy, FilterBy, SortBy, PerPage, Page, FacetBy} + options.Keys
    ensures FilterBy !in options ==> r[FilterBy] == Str(GeoFilter(lat, lng, radiusKm))
    ensures SortBy !in options ==> r[SortBy] == Str(GeoSort)
    ensures QueryBy !in options ==> r[QueryBy] == Str(TitleDescription)
    ensures PerPage !in options ==> r[PerPage] == Num(20)
    ensures Page !in options ==> r[Page] == Num(1)
    ensures forall k :: k in options ==> r[k] == options[k]
  {
    var c := GeoComputed(query, lat, lng, radiusKm, options);
    DefaultThenSpread(c, options, QueryBy, Str(TitleDescription));
    DefaultThenSpread(c, options, SortBy, Str(GeoSort));
    DefaultThenSpread(c, options, PerPage, Num(20));
    DefaultThenSpread(c, options, Page, Num(1));
    Spread(c, options)
  }

  /**
   * As written, a caller's `filter_by` is sent unchanged: the combined
   * filter is computed and then overwritten, so the geo clause is lost
   * exactly when the caller passes a filter.
   */
  lemma GeoSearchDropsGeoClause(query: string, lat: string, lng: string, radiusKm: string, options: Params)
    requires FilterBy in options
    ensures GeoSearch(query, lat, lng, radiusKm, options)[FilterBy] == options[FilterBy]
  {
  }

  /** A rating filter passed with a geo search is sent with no location clause at all. */
  lemma GeoSearchDropsGeoClauseExample()
    ensures var r := GeoSearch("pizza", "40.7", "-74.0", "5", map[FilterBy := Str("rating:>4")]);
      r[FilterBy] == Str("rating:>4") && !Contains(r[FilterBy].s, "location:(")
  {
  }

  /** `geoSearch` as evidently intended: the combined filter is applied after the caller's options. */
  function GeoSearchIntended(query: string, lat: string, lng: string, radiusKm: string, options: Params): (r: Params)
    ensures r.Keys == GeoSearch(query, lat, lng, radiusKm, options).Keys
    ensures forall k :: k in r && k != FilterBy ==> r[k] == GeoSearch(query, lat, lng, radiusKm, options)[k]
  {
    GeoSearch(query, lat, lng, radiusKm, options)[FilterBy :=
      Str(CombinedFilter(Get(options, FilterBy), GeoFilter(lat, lng, radiusKm)))]
  }

  /** The corrected builder always sends the geo clause, after the caller's filter when there is one. */
  lemma GeoSearchIntendedKeepsGeoClause(query: string, lat: string, lng: string, radiusKm: string, options: Params)
    ensures var f := GeoSearchIntended(query, lat, lng, radiusKm, options)[FilterBy];
      && f.Str? && Contains(f.s, GeoFilter(lat, lng, radiusKm))
      && (Truthy(Get(options, FilterBy)) ==>
            f.s == Text(options[FilterBy]) + " && " + GeoFilter(lat, lng, radiusKm))
  {
  }

  // ---------------------------------------------------------------------
  // semanticSearch and vectorSearch
  // ---------------------------------------------------------------------

  const SemanticKeys: set<Key> := {
    Q, QueryBy, QueryByWeights, VectorQuery, Prefix, NumTypos,
    TypoTokensThreshold, DropTokensThreshold, EnableSynonyms, SynonymPrefix,
    EnableOverrides, EnableHighlightV1, HighlightFields, HighlightFullFields,
    SnippetThreshold, MaxExtraPrefix, MaxExtraSuffix, UserId, FacetBy,
    MaxFacetValues, FacetQuery, FilterBy, SortBy, Page, PerPage, GroupBy, GroupLimit}

  /** The keys `semanticSearch` writes: all the builders' keys but `include_fields`. */
  predicate IsSemanticKey(k: Key) {
    !k.Other? && !k.IncludeFields?
  }

  /** The value `semanticSearch` computes for one of its keys. */
  function SemanticValue(query: string, options: Params, k: Key): Value {
    match k
    case Q => Str(query)
    case QueryBy => Or(options, QueryBy, Str("title,description,content"))
    case QueryByWeights => Or(options, QueryByWeights, Str("3,2,1"))
    case Prefix => Bool(false)
    case NumTypos => Num(2)
    case TypoTokensThreshold => Num(1)
    case DropTokensThreshold => Num(1)
    case EnableSynonyms => Bool(true)
    case SynonymPrefix => Bool(true)
    case EnableOverrides => Bool(true)
    case EnableHighlightV1 => Bool(false)
    case HighlightFields => Or(options, HighlightFields, Str(TitleDescription))
    case HighlightFullFields => Or(options, HighlightFullFields, Str("content"))
    case SnippetThreshold => Num(30)
    case MaxExtraPrefix => Num(2)
    case MaxExtraSuffix => Num(2)
    case MaxFacetValues => Num(10)
    case Page => Or(options, Page, Num(1))
    case PerPage => Or(options, PerPage, Num(20))
    case GroupLimit => Or(options, GroupLimit, Num(3))
    case _ => Get(options, k)
  }

  /** `semanticSearch`'s parameters: 27 computed keys, the caller's options over them. */
  function SemanticSearch(query: string, options: Params): (r: Params)
    ensures forall k: Key :: k in r <==> IsSemanticKey(k) || k in options
    ensures forall k :: k in options ==> r[k] == options[k]
    ensures forall k: Key :: IsSemanticKey(k) && k !in options ==> r[k] == SemanticValue(query, options, k)
  {
    Spread(SemanticComputed(query, options), options)
  }

  /** The parameters `semanticSearch` computes, before the caller's options are spread over them. */
  function SemanticComputed(query: string, options: Params): (c: Params)
    ensures forall k: Key :: k in c <==> IsSemanticKey(k)
    ensures forall k :: k in c ==> c[k] == SemanticValue(query, options, k)
  {
    map k | k in SemanticKeys :: SemanticValue(query, options, k)
  }

  /** A semantic search runs over title, description and content, weighted 3, 2, 1, unless the caller says otherwise. */
  lemma SemanticSearchFields(query: string, options: Params)
    ensures Q !in options ==> SemanticSearch(query, options)[Q] == Str(query)
    ensures QueryBy !in options ==> SemanticSearch(query, options)[QueryBy] == Str("title,description,content")
    ensures QueryByWeights !in options ==> SemanticSearch(query, options)[QueryByWeights] == Str("3,2,1")
  {
  }

  /** It is typo-tolerant (two typos) and matches whole words only, unless the caller says otherwise. */
  lemma SemanticSearchTypos(query: string, options: Params)
    ensures SemanticSearch(query, options)[Prefix] == (if Prefix in options then options[Prefix] else Bool(false))
    ensures SemanticSearch(query, options)[NumTypos] == (if NumTypos in options then options[NumTypos] else Num(2))
  {
  }

  /** Paging and grouping defaults: 20 per page, page 1, 3 per group, each replaced by any value the caller passes. */
  lemma SemanticSearchPaging(query: string, options: Params)
    ensures SemanticSearch(query, options)[PerPage] == (if PerPage in options then options[PerPage] else Num(20))
    ensures SemanticSearch(query, options)[Page] == (if Page in options then options[Page] else Num(1))
    ensures SemanticSearch(query, options)[GroupLimit] == (if GroupLimit in options then options[GroupLimit] else Num(3))
  {
    assert IsSemanticKey(PerPage) && IsSemanticKey(Page) && IsSemanticKey(GroupLimit);
    assert SemanticValue(query, options, PerPage) == Or(options, PerPage, Num(20));
    assert SemanticValue(query, options, Page) == Or(options, Page, Num(1));
    assert SemanticValue(query, options, GroupLimit) == Or(options, GroupLimit, Num(3));
  }

  /** Filters, sorting, facets and the vector query are the caller's, and `undefined` when not passed. */
  lemma SemanticSearchPassThrough(query: string, options: Params, k: Key)
    requires k in {VectorQuery, UserId, FacetBy, FacetQuery, FilterBy, SortBy, GroupBy}
    ensures SemanticSearch(query, options)[k] == (if k in options then options[k] else Undefined)
  {
    assert IsSemanticKey(k);
    if k !in options {
      assert SemanticValue(query, options, k) == Get(options, k);
    }
  }

  /** The `vector_query` for some components and a neighbour count. */
  function VectorQueryText(vector: seq<string>, k: Value): string {
    "embedding:(" + Join(vector, ", ") + ", k:" + Text(k) + ")"
  }

  /** The parameters `vectorSearch` computes; components are taken as already-rendered numbers. */
  function VectorComputed(vector: seq<string>, options: Params): (c: Params)
    ensures c.Keys == {Q, VectorQuery, QueryBy, PerPage, Page, FilterBy, FacetBy, SortBy}
    ensures c[Q] == Str("*")
  {
    var k := Or(options, PerPage, Num(20));
    map[
      Q := Str("*"),
      VectorQuery := Str(VectorQueryText(vector, k)),
      QueryBy := Or(options, QueryBy, Str("title")),
      PerPage := k,
      Page := Or(options, Page, Num(1)),
      FilterBy := Get(options, FilterBy),
      FacetBy := Get(options, FacetBy),
      SortBy := Get(options, SortBy)]
  }

  /** `vectorSearch`'s parameters: a wildcard query ranked by nearest neighbours. */
  function VectorSearch(vector: seq<string>, options: Params): (r: Params)
    ensures r.Keys == {Q, VectorQuery, QueryBy, PerPage, Page, FilterBy, FacetBy, SortBy} + options.Keys
    ensures forall k :: k in options ==> r[k] == options[k]
    ensures Q !in options ==> r[Q] == Str("*")
  {
    Spread(VectorComputed(vector, options), options)
  }

  /**
   * The nearest-neighbour count written into `vector_query` is the
   * `per_page` sent, unless the caller passes a falsy `per_page`.
   */
  lemma VectorSearchCountMatchesPage(vector: seq<string>, options: Params)
    requires VectorQuery !in options
    requires PerPage !in options || Truthy(options[PerPage])
    ensures var r := VectorSearch(vector, options);
      r[VectorQuery] == Str(VectorQueryText(vector, r[PerPage]))
  {
  }

  /** With a falsy `per_page` the count stays 20 while the caller's `per_page` is sent. */
  lemma VectorSearchZeroPage(vector: seq<string>)
    ensures var r := VectorSearch(vector, map[PerPage := Num(0)]);
      r[PerPage] == Num(0) && r[VectorQuery] == Str(VectorQueryText(vector, Num(20)))
  {
  }

  // ---------------------------------------------------------------------
  // getAutocompleteSuggestions
  // ---------------------------------------------------------------------

  /**
   * `getAutocompleteSuggestions`' parameters: a one-typo prefix search over
   * one field, returning only that field, best text match first. It takes
   * no caller options, so nothing is spread over them.
   */
  function AutocompleteSearch(query: string, field: Option<string>, limit: Option<int>): (r: Params)
    ensures r.Keys == {Q, QueryBy, Prefix, NumTypos, PerPage, FacetBy, SortBy, IncludeFields}
    ensures r[QueryBy] == r[IncludeFields] == Str(field.GetOr("title"))
    ensures r[PerPage] == Num(limit.GetOr(5))
    ensures r[Q] == Str(query) && r[Prefix] == Bool(true) && r[NumTypos] == Num(1)
    ensures r[FacetBy] == Str("") && r[SortBy] == Str("_text_match:desc")
  {
    var f := field.GetOr("title");
    map[
      Q := Str(query),
      QueryBy := Str(f),
      Prefix := Bool(true),
      NumTypos := Num(1),
      PerPage := Num(limit.GetOr(5)),
      FacetBy := Str(""),
      SortBy := Str("_text_match:desc"),
      IncludeFields := Str(f)]
  }

  // ---------------------------------------------------------------------
  // getSearchSuggestions
  // ---------------------------------------------------------------------

  /** One search of the suggestion multi-search. */
  datatype SuggestionSearch = SuggestionSearch(
    collection: string, q: string, query_by: string, prefix: bool, per_page: int, include_fields: string)

  /** A hit's document, reduced to the title the merge reads. */
  datatype TitleHit = TitleHit(title: Option<string>)

  datatype CollectionResult = CollectionResult(hits: Option<seq<TitleHit>>)

  datatype MultiSearchResponse = MultiSearchResponse(results: Option<seq<CollectionResult>>)

  const DefaultCollections := ["products", "courses", "documents"]
  const DefaultSuggestionLimit := 3

  /** The searches sent: one per collection, in order, all alike but for the collection. */
  function SuggestionSearches(query: string, collections: seq<string>, limit: int): (r: seq<SuggestionSearch>)
    ensures |r| == |collections|
    ensures forall i :: 0 <= i < |r| ==> r[i].collection == collections[i]
    ensures forall i :: 0 <= i < |r| ==> r[i] == r[0].(collection := collections[i])
  {
    seq(|collections|, i requires 0 <= i < |collections| =>
      SuggestionSearch(collections[i], query, TitleDescription, true, limit, "title"))
  }

  /** Each search asks for `limit` titles by prefix, with the same query. */
  lemma SuggestionSearchShape(query: string, collections: seq<string>, limit: int, i: nat)
    requires i < |collections|
    ensures var s := SuggestionSearches(query, collections, limit)[i];
      s.q == query && s.prefix && s.per_page == limit && s.include_fields == "title"
      && s.query_by == "title,description"
  {
  }

  predicate TitleTruthy(h: TitleHit) {
    h.title.Some? && h.title.value != ""
  }

  /** The truthy titles of some hits, in order. */
  function HitTitles(hits: seq<TitleHit>): (r: seq<string>)
    ensures forall i :: 0 <= i < |r| ==> r[i] != ""
    decreases |hits|
  {
    if hits == [] then []
    else
      var last := hits[|hits| - 1];
      HitTitles(hits[..|hits| - 1]) + (if TitleTruthy(last) then [last.title.value] else [])
  }

  function HitsOf(r: CollectionResult): seq<TitleHit> {
    r.hits.GetOr([])
  }

  /** Every truthy title, result by result and hit by hit. */
  function Titles(results: seq<CollectionResult>): (r: seq<string>)
    ensures forall i :: 0 <= i < |r| ==> r[i] != ""
    decreases |results|
  {
    if results == [] then []
    else Titles(results[..|results| - 1]) + HitTitles(HitsOf(results[|results| - 1]))
  }

  /** What `getSearchSuggestions` returns for the multi-search's outcome. */
  function Suggestions(response: Result<MultiSearchResponse, string>, collections: seq<string>, limit: int): (r: seq<string>)
    ensures response.Failure? ==> r == []
  {
    match response
    case Failure(_) => []
    case Success(resp) => SliceTo(Dedupe(Titles(resp.results.GetOr([]))), limit * |collections|)
  }

  /** Reading one more result appends its hits' titles. */
  lemma TitlesStep(results: seq<CollectionResult>, i: nat)
    requires i < |results|
    ensures Titles(results[..i + 1]) == Titles(results[..i]) + HitTitles(HitsOf(results[i]))
  {
    assert results[..i + 1][..i] == results[..i];
  }

  /** One more hit read: its truthy title is added to the set unless already there. */
  lemma AddTitle(before: seq<string>, hits: seq<TitleHit>, j: nat)
    requires j < |hits|
    ensures var xs := before + HitTitles(hits[..j]);
      var h := hits[j];
      Dedupe(before + HitTitles(hits[..j + 1])) ==
        if !TitleTruthy(h) then Dedupe(xs)
        else if h.title.value in Dedupe(xs) then Dedupe(xs)
        else Dedupe(xs) + [h.title.value]
  {
    var xs := before + HitTitles(hits[..j]);
    assert hits[..j + 1][..j] == hits[..j];
    if TitleTruthy(hits[j]) {
      var ys := xs + [hits[j].title.value];
      assert before + HitTitles(hits[..j + 1]) == ys;
      assert ys[..|ys| - 1] == xs;
    } else {
      assert before + HitTitles(hits[..j + 1]) == xs;
    }
  }

  /**
   * `getSearchSuggestions`: the multi-search's hits are read in order
   * into an insertion-ordered set of titles, which is then cut down to
   * `limit` per collection; any failure gives no suggestions.
   */
  method GetSearchSuggestions(query: string, collections: Option<seq<string>>, limit: Option<int>,
                              federated: seq<SuggestionSearch> -> Result<MultiSearchResponse, string>)
    returns (suggestions: seq<string>)
    ensures var cs, n := collections.GetOr(DefaultCollections), limit.GetOr(DefaultSuggestionLimit);
      suggestions == Suggestions(federated(SuggestionSearches(query, cs, n)), cs, n)
  {
    var cs := collections.GetOr(DefaultCollections);
    var n := limit.GetOr(DefaultSuggestionLimit);
    var response := federated(SuggestionSearches(query, cs, n));
    if response.Failure? {
      return [];
    }
    var results := response.value.results.GetOr([]);
    var seen: seq<string> := [];
    var i := 0;
    while i < |results|
      invariant 0 <= i <= |results|
      invariant seen == Dedupe(Titles(results[..i]))
    {
      var hits := HitsOf(results[i]);
      ghost var before := Titles(results[..i]);
      var j := 0;
      assert before + HitTitles(hits[..j]) == before;
      while j < |hits|
        invariant 0 <= j <= |hits|
        invariant seen == Dedupe(before + HitTitles(hits[..j]))
      {
        AddTitle(before, hits, j);
        if TitleTruthy(hits[j]) && hits[j].title.value !in seen {
          seen := seen + [hits[j].title.value];
        }
        j := j + 1;
      }
      assert hits[..j] == hits;
      TitlesStep(results, i);
      i := i + 1;
    }
    assert results[..i] == results;
    suggestions := SliceTo(seen, n * |cs|);
  }

  /** No title twice, none empty, and at most `limit` per collection. */
  lemma SuggestionsDistinct(response: Result<MultiSearchResponse, string>, collections: seq<string>, limit: int)
    ensures var r := Suggestions(response, collections, limit);
      && Distinct(r)
      && (forall i :: 0 <= i < |r| ==> r[i] != "")
      && (limit >= 0 ==> |r| <= limit * |collections|)
  {
    if response.Success? {
      var titles := Titles(response.value.results.GetOr([]));
      var d := Dedupe(titles);
      var r := Suggestions(response, collections, limit);
      assert r == d[..|r|];
      forall i | 0 <= i < |r|
        ensures r[i] == d[i] && r[i] != ""
      {
        assert d[i] in titles;
      }
    }
  }

  /** Each suggestion is a title of some hit, and they come in order of first appearance. */
  lemma SuggestionsFirstSeen(response: Result<MultiSearchResponse, string>, collections: seq<string>, limit: int)
    requires response.Success?
    ensures var titles := Titles(response.value.results.GetOr([]));
      var r := Suggestions(response, collections, limit);
      && (forall i :: 0 <= i < |r| ==> r[i] in titles)
      && (forall i, j :: 0 <= i < j < |r| ==> FirstIndex(titles, r[i]) < FirstIndex(titles, r[j]))
  {
    var titles := Titles(response.value.results.GetOr([]));
    var d := Dedupe(titles);
    var r := Suggestions(response, collections, limit);
    assert r == d[..|r|];
    forall i, j | 0 <= i < j < |r|
      ensures FirstIndex(titles, r[i]) < FirstIndex(titles, r[j])
    {
      assert r[i] == d[i] && r[j] == d[j];
      DedupeFirstSeenOrder(titles, i, j);
    }
  }
}
