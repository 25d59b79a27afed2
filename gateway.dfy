/**
 * The server-side search gateway of lib/typesense/server.ts: it fills the
 * request's missing parameters with `||` defaults, sends one search to the
 * search service, normalises the response and, when the service fails,
 * answers from a fixed two-product mock instead.
 *
 * The search service is a parameter `backend`: given a collection name and
 * the parameters sent, it answers with a raw response or fails.
 */
module Gateway {
  import opened Wrappers
  import opened Js

  // ---------------------------------------------------------------------
  // Documents and results
  // ---------------------------------------------------------------------

  datatype Product = Product(
    id: string,
    name: string,
    description: string,
    content: string,
    category: string,
    subcategory: string,
    price: real,
    currency: string,
    rating: real,
    reviews_count: int,
    in_stock: bool,
    brand: string,
    tags: seq<string>,
    image_url: string)

  datatype Highlight = Highlight(field: string, snippet: string)

  datatype Hit = Hit(document: Product, highlights: seq<Highlight>)

  datatype FacetValue = FacetValue(count: int, highlighted: string, value: string)

  datatype FacetCount = FacetCount(field_name: string, counts: seq<FacetValue>)

  /** What `search` and `searchWithFallback` return: every field present. */
  datatype SearchResult = SearchResult(
    hits: seq<Hit>,
    facet_counts: seq<FacetCount>,
    found: int,
    search_time_ms: int,
    page: int)

  /** The service's own answer, in which every field may be missing. */
  datatype RawResponse = RawResponse(
    hits: Option<seq<Hit>>,
    facet_counts: Option<seq<FacetCount>>,
    found: Option<int>,
    search_time_ms: Option<int>,
    page: Option<int>)

  // ---------------------------------------------------------------------
  // Requests
  // ---------------------------------------------------------------------

  /** `ServerSearchParams`: what callers pass; every property optional. */
  datatype ServerSearchParams = ServerSearchParams(
    q: Option<string>,
    query_by: Option<string>,
    filter_by: Option<string>,
    sort_by: Option<string>,
    facet_by: Option<string>,
    max_facet_values: Option<int>,
    page: Option<int>,
    per_page: Option<int>,
    group_by: Option<string>,
    group_limit: Option<int>,
    include_fields: Option<string>,
    exclude_fields: Option<string>,
    highlight_fields: Option<string>,
    snippet_threshold: Option<int>,
    num_typos: Option<string>,
    prefix: Option<string>,
    infix: Option<string>,
    pre_segmented_query: Option<bool>,
    enable_overrides: Option<bool>,
    pinned_hits: Option<string>,
    hidden_hits: Option<string>)

  /** The empty parameter object `{}`. */
  const NoParams := ServerSearchParams(
    None, None, None, None, None, None, None, None, None, None, None,
    None, None, None, None, None, None, None, None, None, None)

  /** `prefix` is the caller's string when one was given, the boolean `true` otherwise. */
  datatype PrefixValue = PrefixGiven(text: string) | PrefixTrue

  /** The parameter object handed to the service. */
  datatype SearchParameters = SearchParameters(
    q: string,
    query_by: string,
    filter_by: Option<string>,
    sort_by: string,
    facet_by: string,
    max_facet_values: int,
    page: int,
    per_page: int,
    group_by: Option<string>,
    group_limit: Option<int>,
    include_fields: Option<string>,
    exclude_fields: Option<string>,
    highlight_fields: string,
    snippet_threshold: int,
    num_typos: string,
    prefix: PrefixValue,
    infix: Option<string>,
    pre_segmented_query: Option<bool>,
    enable_overrides: bool,
    pinned_hits: Option<string>,
    hidden_hits: Option<string>)

  const Wildcard := "*"
  const DefaultQueryBy := "name,description,content,category,tags"
  const DefaultSortBy := "_text_match:desc,rating:desc"
  const DefaultFacetBy := "category,brand,in_stock"
  const DefaultHighlightFields := "name,description"
  const DefaultMaxFacetValues := 10
  const DefaultPage := 1
  const DefaultPerPage := 12
  const DefaultSnippetThreshold := 30
  const DefaultNumTypos := "1"
  const SearchFailedMessage := "Failed to perform server-side search"

  /** `x || d` on a string property: the caller's value when truthy, the default otherwise. */
  predicate StrDefaulted(x: Option<string>, d: string, sent: string) {
    && (StrTruthy(x) ==> sent == x.value)
    && (!StrTruthy(x) ==> sent == d)
  }

  /** `x || d` on a number property: the caller's value when present and non-zero, the default otherwise. */
  predicate IntDefaulted(x: Option<int>, d: int, sent: int) {
    && (x.Some? && x.value != 0 ==> sent == x.value)
    && (x.None? || x.value == 0 ==> sent == d)
  }

  /**
   * The parameters `search` sends. Every defaulted property comes out
   * truthy, whatever the caller passed; pass-through properties are copied.
   */
  function BuildParameters(p: ServerSearchParams): (r: SearchParameters)
    ensures r.q != "" && r.query_by != "" && r.sort_by != "" && r.facet_by != ""
    ensures r.highlight_fields != "" && r.num_typos != ""
    ensures r.max_facet_values != 0 && r.page != 0 && r.per_page != 0 && r.snippet_threshold != 0
    ensures StrDefaulted(p.q, Wildcard, r.q)
    ensures StrDefaulted(p.query_by, DefaultQueryBy, r.query_by)
    ensures StrDefaulted(p.sort_by, DefaultSortBy, r.sort_by)
    ensures StrDefaulted(p.facet_by, DefaultFacetBy, r.facet_by)
    ensures StrDefaulted(p.highlight_fields, DefaultHighlightFields, r.highlight_fields)
    ensures StrDefaulted(p.num_typos, DefaultNumTypos, r.num_typos)
    ensures IntDefaulted(p.max_facet_values, DefaultMaxFacetValues, r.max_facet_values)
    ensures IntDefaulted(p.page, DefaultPage, r.page)
    ensures IntDefaulted(p.per_page, DefaultPerPage, r.per_page)
    ensures IntDefaulted(p.snippet_threshold, DefaultSnippetThreshold, r.snippet_threshold)
    ensures r.filter_by == p.filter_by && r.group_by == p.group_by && r.group_limit == p.group_limit
    ensures r.include_fields == p.include_fields && r.exclude_fields == p.exclude_fields
    ensures r.infix == p.infix && r.pre_segmented_query == p.pre_segmented_query
    ensures r.pinned_hits == p.pinned_hits && r.hidden_hits == p.hidden_hits
    ensures r.prefix.PrefixTrue? <==> p.prefix.None?
    ensures p.prefix.Some? ==> r.prefix == PrefixGiven(p.prefix.value)
    ensures r.enable_overrides <==> p.enable_overrides != Some(false)
  {
    SearchParameters(
      StrOr(p.q, Wildcard),
      StrOr(p.query_by, DefaultQueryBy),
      p.filter_by,
      StrOr(p.sort_by, DefaultSortBy),
      StrOr(p.facet_by, DefaultFacetBy),
      IntOr(p.max_facet_values, DefaultMaxFacetValues),
      IntOr(p.page, DefaultPage),
      IntOr(p.per_page, DefaultPerPage),
      p.group_by,
      p.group_limit,
      p.include_fields,
      p.exclude_fields,
      StrOr(p.highlight_fields, DefaultHighlightFields),
      IntOr(p.snippet_threshold, DefaultSnippetThreshold),
      StrOr(p.num_typos, DefaultNumTypos),
      if p.prefix.Some? then PrefixGiven(p.prefix.value) else PrefixTrue,
      p.infix,
      p.pre_segmented_query,
      p.enable_overrides != Some(false),
      p.pinned_hits,
      p.hidden_hits)
  }

  /** A string property with `""` turned into a missing one. */
  function DropEmpty(x: Option<string>): Option<string> {
    if x == Some("") then None else x
  }

  /** A number property with 0 turned into a missing one. */
  function DropZero(x: Option<int>): Option<int> {
    if x == Some(0) then None else x
  }

  /** The request with every falsy defaulted property made missing. */
  function WithoutFalsy(p: ServerSearchParams): ServerSearchParams {
    p.(q := DropEmpty(p.q), query_by := DropEmpty(p.query_by), sort_by := DropEmpty(p.sort_by),
       facet_by := DropEmpty(p.facet_by), max_facet_values := DropZero(p.max_facet_values),
       page := DropZero(p.page), per_page := DropZero(p.per_page),
       highlight_fields := DropEmpty(p.highlight_fields),
       snippet_threshold := DropZero(p.snippet_threshold), num_typos := DropEmpty(p.num_typos))
  }

  /** Under `||`, 0 and `""` are indistinguishable from a missing property. */
  lemma FalsyCountsAsMissing(p: ServerSearchParams)
    ensures BuildParameters(WithoutFalsy(p)) == BuildParameters(p)
  {
  }

  /** The parameters sent, offered again as a request. */
  function Resubmit(r: SearchParameters): ServerSearchParams {
    ServerSearchParams(
      Some(r.q), Some(r.query_by), r.filter_by, Some(r.sort_by), Some(r.facet_by),
      Some(r.max_facet_values), Some(r.page), Some(r.per_page), r.group_by, r.group_limit,
      r.include_fields, r.exclude_fields, Some(r.highlight_fields), Some(r.snippet_threshold),
      Some(r.num_typos), if r.prefix.PrefixGiven? then Some(r.prefix.text) else None,
      r.infix, r.pre_segmented_query, Some(r.enable_overrides), r.pinned_hits, r.hidden_hits)
  }

  /** Defaulting is idempotent: the parameters sent already have every default applied. */
  lemma BuildParametersIdempotent(p: ServerSearchParams)
    ensures BuildParameters(Resubmit(BuildParameters(p))) == BuildParameters(p)
  {
  }

  /** `search`'s normalisation of the service's answer. */
  function Normalize(raw: RawResponse): (r: SearchResult)
    ensures r.page != 0
    ensures raw.hits.Some? ==> r.hits == raw.hits.value
    ensures raw.hits.None? ==> r.hits == []
    ensures raw.facet_counts.Some? ==> r.facet_counts == raw.facet_counts.value
    ensures raw.facet_counts.None? ==> r.facet_counts == []
    ensures r.found == raw.found.GetOr(0)
    ensures r.search_time_ms == raw.search_time_ms.GetOr(0)
    ensures raw.page.Some? && raw.page.value != 0 ==> r.page == raw.page.value
    ensures raw.page.None? || raw.page == Some(0) ==> r.page == 1
  {
    SearchResult(
      raw.hits.GetOr([]),
      raw.facet_counts.GetOr([]),
      IntOr(raw.found, 0),
      IntOr(raw.search_time_ms, 0),
      IntOr(raw.page, 1))
  }

  function AsRaw(r: SearchResult): RawResponse {
    RawResponse(Some(r.hits), Some(r.facet_counts), Some(r.found), Some(r.search_time_ms), Some(r.page))
  }

  /** A normalised result passes through normalisation unchanged. */
  lemma NormalizeIdempotent(raw: RawResponse)
    ensures Normalize(AsRaw(Normalize(raw))) == Normalize(raw)
  {
  }

  /** One call to the service with the given parameters: the answer normalised, a failure rethrown with a fixed message. */
  function Send(backend: (string, SearchParameters) -> Result<RawResponse, string>,
                collection: string, sent: SearchParameters): Result<SearchResult, string> {
    match backend(collection, sent)
    case Success(raw) => Success(Normalize(raw))
    case Failure(_) => Failure(SearchFailedMessage)
  }

  /** `TypesenseServerService.search`, as written: the parameters of `BuildParameters`. */
  function Search(backend: (string, SearchParameters) -> Result<RawResponse, string>,
                  collection: string, p: ServerSearchParams): (r: Result<SearchResult, string>)
    ensures r.Failure? <==> backend(collection, BuildParameters(p)).Failure?
    ensures r.Failure? ==> r.error == SearchFailedMessage
    ensures r.Success? ==> r.value == Normalize(backend(collection, BuildParameters(p)).value)
  {
    Send(backend, collection, BuildParameters(p))
  }

  /** `search` with the corrected defaulting of `BuildParametersIntended`. */
  function SearchIntended(backend: (string, SearchParameters) -> Result<RawResponse, string>,
                          collection: string, p: ServerSearchParams): (r: Result<SearchResult, string>)
    ensures r.Failure? <==> backend(collection, BuildParametersIntended(p)).Failure?
    ensures r.Failure? ==> r.error == SearchFailedMessage
    ensures r.Success? ==> r.value == Normalize(backend(collection, BuildParametersIntended(p)).value)
  {
    Send(backend, collection, BuildParametersIntended(p))
  }

  /** The correction matters only for an explicit `per_page: 0`. */
  lemma SearchIntendedAgrees(backend: (string, SearchParameters) -> Result<RawResponse, string>,
                             collection: string, p: ServerSearchParams)
    requires p.per_page != Some(0)
    ensures SearchIntended(backend, collection, p) == Search(backend, collection, p)
  {
    BuildParametersIntendedFacets([], p);
  }

  // ---------------------------------------------------------------------
  // Mock fallback
  // ---------------------------------------------------------------------

  // The two descriptions are written in pieces, which keeps reasoning about
  // their letters small; each is the same text as one literal.
  const HeadphonesDescription := "High-quality wireless" + " headphones with" + " active noise cancellation."
  const WatchDescription := "Advanced fitness" + " tracking and " + "smartphone" + " integration."

  const MockHeadphones := Hit(
    Product("1", "Premium Wireless Headphones",
      HeadphonesDescription,
      "Experience premium audio with these professional-grade wireless headphones.",
      "Electronics", "Audio", 299.99, "USD", 4.5, 1250, true, "AudioTech",
      ["wireless", "noise-cancellation", "premium"],
      "https://via.placeholder.com/300x300/4F46E5/ffffff?text=Headphones"),
    [Highlight("name", "<mark>Premium</mark> Wireless Headphones")])

  const MockWatch := Hit(
    Product("2", "Smart Watch Pro",
      WatchDescription,
      "Stay connected and healthy with this advanced smartwatch.",
      "Electronics", "Wearables", 399.99, "USD", 4.3, 890, true, "TechWear",
      ["fitness", "health", "smart"],
      "https://via.placeholder.com/300x300/10B981/ffffff?text=Smart+Watch"),
    [Highlight("name", "<mark>Smart</mark> Watch Pro")])

  const MockHits := [MockHeadphones, MockWatch]

  const MockFacetCounts := [
    FacetCount("category", [FacetValue(2, "Electronics", "Electronics")]),
    FacetCount("brand", [FacetValue(1, "AudioTech", "AudioTech"), FacetValue(1, "TechWear", "TechWear")]),
    FacetCount("in_stock", [FacetValue(2, "true", "true")])]

  const MockData := SearchResult(MockHits, MockFacetCounts, 2, 1, 1)

  /** The fallback's test: the lower-cased query occurs in the lower-cased name, description or category. */
  predicate HitMatches(h: Hit, query: string) {
    || Contains(ToLower(h.document.name), query)
    || Contains(ToLower(h.document.description), query)
    || Contains(ToLower(h.document.category), query)
  }

  /** The fallback filters only for a query that, lower-cased, is non-empty and not `*`. */
  predicate FiltersMock(q: Option<string>) {
    q.Some? && ToLower(q.value) != "" && ToLower(q.value) != Wildcard
  }

  /** A letter of the lower-cased query missing, in both cases, from a field keeps that field from matching. */
  predicate FieldLacks(field: string, query: string, c: char) {
    'a' <= c <= 'z' && c in query && c !in field && UpperChar(c) !in field
  }

  /** A hit none of whose three searched fields can contain the query does not match. */
  lemma HitMissesByLetters(h: Hit, query: string, cName: char, cDescription: char, cCategory: char)
    requires FieldLacks(h.document.name, query, cName)
    requires FieldLacks(h.document.description, query, cDescription)
    requires FieldLacks(h.document.category, query, cCategory)
    ensures !HitMatches(h, query)
  {
    NotContainsLowered(h.document.name, query, cName);
    NotContainsLowered(h.document.description, query, cDescription);
    NotContainsLowered(h.document.category, query, cCategory);
  }

  /** The answer `searchWithFallback` gives when the service fails. */
  function Fallback(q: Option<string>): (r: SearchResult)
    ensures r.found == |r.hits|
    ensures r.facet_counts == MockFacetCounts && r.search_time_ms == 1 && r.page == 1
  {
    if FiltersMock(q) then
      var query := ToLower(q.value);
      var hits := Filter(MockHits, MatchesQuery(query));
      MockData.(hits := hits, found := |hits|)
    else MockData
  }

  /** `searchWithFallback`: never fails; a service failure is answered from the mock. */
  function SearchWithFallback(backend: (string, SearchParameters) -> Result<RawResponse, string>,
                              collection: string, p: ServerSearchParams): (r: SearchResult)
    ensures backend(collection, BuildParameters(p)).Success? ==>
              r == Normalize(backend(collection, BuildParameters(p)).value)
    ensures backend(collection, BuildParameters(p)).Failure? ==> r == Fallback(p.q)
  {
    match Search(backend, collection, p)
    case Success(res) => res
    case Failure(_) => Fallback(p.q)
  }

  /**
   * With a filtering query, the fallback hits are exactly the matching mock
   * hits, in mock order.
   */
  lemma FallbackFiltersMock(q: Option<string>)
    requires FiltersMock(q)
    ensures Fallback(q).hits == Filter(MockHits, MatchesQuery(ToLower(q.value)))
    ensures forall i :: 0 <= i < |Fallback(q).hits| ==>
              Fallback(q).hits[i] in MockHits && HitMatches(Fallback(q).hits[i], ToLower(q.value))
    ensures forall i :: 0 <= i < |MockHits| && HitMatches(MockHits[i], ToLower(q.value)) ==>
              MockHits[i] in Fallback(q).hits
  {
  }

  /** A missing, empty or `*` query returns the whole mock: two hits, found = 2. */
  lemma FallbackWithoutQuery(q: Option<string>)
    requires !FiltersMock(q)
    ensures Fallback(q) == MockData
    ensures |Fallback(q).hits| == 2 && Fallback(q).found == 2
  {
  }

  /** The lambda `Fallback` filters with. */
  function MatchesQuery(query: string): Hit -> bool {
    h => HitMatches(h, query)
  }

  // ---------------------------------------------------------------------
  // getFacets
  // ---------------------------------------------------------------------

  const DefaultFacetFields := ["category", "brand", "in_stock"]

  /** The request `getFacets` passes to `search`. */
  function FacetsRequest(fields: seq<string>): ServerSearchParams {
    NoParams.(q := Some(Wildcard), facet_by := Some(Join(fields, ",")), per_page := Some(0))
  }

  /** The facet counts of a search, `[]` when it failed. */
  function FacetsOf(res: Result<SearchResult, string>): seq<FacetCount> {
    match res
    case Success(r) => r.facet_counts
    case Failure(_) => []
  }

  /** `getFacets`, as written: the facet counts of a wildcard search, `[]` when the search fails. */
  function GetFacets(backend: (string, SearchParameters) -> Result<RawResponse, string>,
                     collection: string, facetBy: Option<seq<string>>): (r: seq<FacetCount>)
    ensures var sent := BuildParameters(FacetsRequest(facetBy.GetOr(DefaultFacetFields)));
      && sent.q == Wildcard && sent.per_page == DefaultPerPage
      && (backend(collection, sent).Failure? ==> r == [])
      && (backend(collection, sent).Success? ==> r == backend(collection, sent).value.facet_counts.GetOr([]))
  {
    FacetsOf(Search(backend, collection, FacetsRequest(facetBy.GetOr(DefaultFacetFields))))
  }

  /** `getFacets` over the corrected `search`: the service is asked for no documents. */
  function GetFacetsIntended(backend: (string, SearchParameters) -> Result<RawResponse, string>,
                             collection: string, facetBy: Option<seq<string>>): (r: seq<FacetCount>)
    ensures var sent := BuildParametersIntended(FacetsRequest(facetBy.GetOr(DefaultFacetFields)));
      && sent.q == Wildcard && sent.per_page == 0
      && (backend(collection, sent).Failure? ==> r == [])
      && (backend(collection, sent).Success? ==> r == backend(collection, sent).value.facet_counts.GetOr([]))
  {
    FacetsOf(SearchIntended(backend, collection, FacetsRequest(facetBy.GetOr(DefaultFacetFields))))
  }

  /** `per_page: 0` is falsy, so `getFacets` asks the service for twelve documents. */
  lemma GetFacetsAsksForTwelve(fields: seq<string>)
    ensures BuildParameters(FacetsRequest(fields)).per_page == 12
  {
  }

  /** An empty field list joins to `""`, which is falsy: the default facets are requested. */
  lemma GetFacetsEmptyFieldList()
    ensures BuildParameters(FacetsRequest([])).facet_by == DefaultFacetBy
  {
  }

  /**
   * The parameters `search` evidently meant to send for `getFacets`: as
   * `BuildParameters`, except that `per_page` falls back to 12 only when it
   * is missing, so an explicit 0 reaches the service.
   */
  function BuildParametersIntended(p: ServerSearchParams): (r: SearchParameters)
    ensures p.per_page.Some? ==> r.per_page == p.per_page.value
    ensures p.per_page.None? ==> r.per_page == DefaultPerPage
    ensures r == BuildParameters(p).(per_page := r.per_page)
  {
    BuildParameters(p).(per_page := p.per_page.GetOr(DefaultPerPage))
  }

  /** The corrected defaulting asks for no documents, and differs from the original only on `per_page: 0`. */
  lemma BuildParametersIntendedFacets(fields: seq<string>, p: ServerSearchParams)
    ensures BuildParametersIntended(FacetsRequest(fields)).per_page == 0
    ensures p.per_page != Some(0) ==> BuildParametersIntended(p) == BuildParameters(p)
  {
  }
}
