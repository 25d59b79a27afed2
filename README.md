# nextjs-typesense-search, modelled in Dafny

A Next.js product search front end over a Typesense search service. This
project models:

- the server-rendered search page;
- the server-side search gateway, with its fallback to mock data;
- the client-side request builders and suggestion merge;
- the product validation schema.

Each is stated over Dafny values, and the project proves what each one promises. The search service itself is a parameter. It is a
function from a collection and the parameters sent to either a raw response
or a failure. The multi-search used for suggestions and the URL test of the
validator are parameters in the same way.

The modules follow the program's files:

| module | file | models |
|---|---|---|
| `Wrappers` | wrappers.dfy | `Option` and `Result` |
| `Js` | js.dfy | the JavaScript built-ins the code relies on: `indexOf`, `includes`, `startsWith`, `split`/`join` with a non-empty separator, ASCII `toLowerCase`, `parseInt`, integer `toString`, `\|\|` defaults, `filter`, `slice(0, end)`, and the insertion order of a `Set` |
| `Gateway` | gateway.dfy | lib/typesense/server.ts: parameter defaulting, response normalisation, `search`, `searchWithFallback` with its mock data, `getFacets` |
| `GatewayExamples` | gateway_examples.dfy | the fallback worked out for the queries "headphones", "Electronics" and "xyz-no-match" |
| `SearchPage` | search_page.dfy | app/search/server/page.tsx: reading the URL, the request, facet checkbox toggling and its links, "Clear all", sort buttons, the result range, pagination, the empty state |
| `SearchClient` | search_client.dfy | lib/typesense/client.ts: `facetedSearch`, `geoSearch`, `semanticSearch`, `vectorSearch`, `getAutocompleteSuggestions`, `getSearchSuggestions` |
| `ProductValidation` | product_validation.dfy | lib/validation/schemas.ts: `productValidationSchema` |

Some facts the model rests on:

- **Falsy values.** The source defaults with `||`, so `""`, 0 and a missing property all mean "use the default". `0` or `""` passed on purpose are lost.
- **Client options.** The client builders spread the caller's `options` as the last property of the object literal. Any key the caller passes therefore replaces the computed value.
- **Parameter maps.** In `SearchClient`, a parameter object is a map from a key to a value. A key the builders write as `undefined` is present with the value `Undefined`.
- **The facet toggle.** The toggle splits `filter_by` on `" && "`. It finds the first clause that starts with `field:` and treats the checkbox as checked when that clause contains the value as a substring. It then puts back together the clauses about other fields, plus the new clause when the box was unchecked.
  - These functions are pure, in the form the page code takes: a local array with one `push`.
  - `getSearchSuggestions` fills a `Set` in nested loops. It is therefore a method with nested `while` loops, proved equal to a specification function.

## Model

| member | source | states |
|---|---|---|
| `SearchPage.Normalize` | app/search/server/page.tsx:18-21 | a falsy `q` or `filter_by` reads as `""`; a falsy `sort_by` reads as relevance; otherwise each is taken as given; a truthy `page` is read with `parseInt` |
| `Js.ParseIntToString` | app/search/server/page.tsx:21 | `parseInt` reads back the decimal form written for every integer (numbers are unbounded integers here; see Left out) |
| `SearchPage.NormalizePage` | app/search/server/page.tsx:21 | a missing or empty `page` is page 1; a page number written with `toString` reads back as itself |
| `SearchPage.Request` | app/search/server/page.tsx:24-32 | for a page state, the gateway sends its query or `*`, its filter, its sort (relevance when empty), its page or 1, 12 per page, facets `category,brand,in_stock` and highlights `name,description` |
| `SearchPage.RequestSent` | app/search/server/page.tsx:24-32 | what reaches the service for any page URL: query or `*`, the sort or relevance, the filter or `""`, 12 per page, facets `category,brand,in_stock`, highlights `name,description`, page 1 when none is given |
| `SearchPage.Clauses` | app/search/server/page.tsx:106 | no `filter_by` gives no clauses; a present one gives at least one clause; joining them with `" && "` gives the filter back; an empty filter is one empty clause |
| `Js.JoinSplit` | app/search/server/page.tsx:106 | joining the pieces of a split gives back the string |
| `Js.SplitJoin` | app/search/server/page.tsx:125 | splitting a join gives back the pieces, when every piece but the last can stand before a separator and the last contains none |
| `SearchPage.FindFrom` | app/search/server/page.tsx:107 | `find` returns the first clause starting with `field:`, or none when no clause does |
| `SearchPage.IsChecked` | app/search/server/page.tsx:106-108 | a checked value occurs in the filter; `CheckedIff` states the condition in both directions |
| `SearchPage.CheckedIff` | app/search/server/page.tsx:106-108 | a checkbox is checked exactly when the first clause about its field contains its value; it is never checked when no clause is about the field |
| `SearchPage.OtherClauses` | app/search/server/page.tsx:111 | the kept clauses are exactly the clauses not about the field |
| `SearchPage.OtherClausesConcat` | app/search/server/page.tsx:111 | the filter keeps clauses one by one and in order |
| `SearchPage.OtherClausesUnrelated` | app/search/server/page.tsx:111 | a filter with no clause about the field is kept whole |
| `SearchPage.NewClause` | app/search/server/page.tsx:116-123 | the added clause is about the field and contains the value |
| `SearchPage.NewClauseShapes` | app/search/server/page.tsx:117-123 | `in_stock:=true`, `price:[50..50]` and ``category:[`Electronics`]`` are the three shapes |
| `SearchPage.NewClauseNoSep` | app/search/server/page.tsx:116-123 | a clause built from a field and a value that contain no `" && "` contains none either |
| `SearchPage.ToggledClauses` | app/search/server/page.tsx:111-124 | every new clause but the last is about another field; the last is about the field exactly when the value was unchecked; one more clause than the kept ones exactly then; `ToggleClauses` adds the order |
| `SearchPage.Toggle` | app/search/server/page.tsx:111-129 | the new filter contains every kept clause, and the new clause when the value was unchecked; `ToggleChecked`, `ToggleReadsBack` and `ToggleTwice` state what it reads back as |
| `SearchPage.ToggleClauses` | app/search/server/page.tsx:111-129 | a toggle keeps the other fields' clauses, in order, as a prefix; it drops every clause about the field; an unchecked value adds exactly one clause, last |
| `SearchPage.ToggleChecked` | app/search/server/page.tsx:126-129 | unchecking leaves the other clauses joined, or `""` when none remain |
| `SearchPage.ToggleNoFilter` | app/search/server/page.tsx:106-125 | with no filter, a checkbox link carries exactly the new clause |
| `SearchPage.ToggleEmptyFilter` | app/search/server/page.tsx:106-125 | an empty `filter_by` is one empty clause, so checking a box yields a filter with a leading `" && "` |
| `SearchPage.OtherClausesDelimitable` | app/search/server/page.tsx:106-111 | from a filter whose last clause can stand before a separator, every kept clause can too |
| `SearchPage.ToggleReadsBack` | app/search/server/page.tsx:106-138 | after checking a box, the new filter splits back into the kept clauses followed by the new clause |
| `SearchPage.ToggleTwice` | app/search/server/page.tsx:106-129 | checking an unchecked box makes it checked; clicking it again leaves exactly the other fields' clauses |
| `SearchPage.LastClauseChecked` | app/search/server/page.tsx:106-108 | a value is checked when the only clause about its field is the last one and contains it |
| `SearchPage.ToggleLastClause` | app/search/server/page.tsx:106-129 | clicking such a value drops that last clause and keeps the others joined |
| `SearchPage.ToggleTwiceNeedsReparsable` | app/search/server/page.tsx:106-129 | the precondition of `ToggleTwice` is needed: on the filter `a &&`, whose last clause fuses with the separator after it, checking the `c` box still leaves it reading unchecked |
| `SearchPage.SubstringCountsAsChecked` | app/search/server/page.tsx:107-111 | the check is a substring test: `Tech` counts as checked in the clause ``brand:[`AudioTech`]``, and clicking it clears the filter |
| `SearchPage.Lookup` | app/search/server/page.tsx:131-139 | a query-string key has a value exactly when some pair carries that key |
| `SearchPage.LinkQueryFollowed` | app/search/server/page.tsx:131-139 | every parameter written into a link is read back from it |
| `SearchPage.ToggleLink` | app/search/server/page.tsx:131-139 | the link reads back with the query, the sort or relevance, page 1, and the toggled filter, or none when it is empty |
| `SearchPage.ToggleLinkFollowed` | app/search/server/page.tsx:131-139 | following a checkbox link keeps the query and sort, resets to page 1, and sets the toggled filter, or none when it is empty |
| `SearchPage.ClearAllLink` | app/search/server/page.tsx:86-91 | "Clear all" is offered exactly when `filter_by` is truthy |
| `SearchPage.ClearAllFollowed` | app/search/server/page.tsx:86-91 | following "Clear all" keeps the query and sort, drops the filter, and lands on page 1 |
| `SearchPage.SortLink` | app/search/server/page.tsx:370-391 | the link sets `sort_by` to the button's sort and keeps the query, filter and page |
| `SearchPage.SortActive` | app/search/server/page.tsx:372-390 | a button with a non-empty sort is highlighted exactly when its sort is the one the page reads; `ActiveSortIsSent` applies this to the four buttons |
| `SearchPage.SortLinkActivates` | app/search/server/page.tsx:370-393 | a sort button's link highlights that button and no other |
| `SearchPage.SortLinkNormalized` | app/search/server/page.tsx:18-20 | a non-empty sort link changes the sort the page reads and nothing else |
| `SearchPage.SortLinkFollowed` | app/search/server/page.tsx:370-393 | a sort button's link makes that button, and no other, the active one; that sort is sent; nothing else changes, not even the page |
| `SearchPage.ActiveSortIsSent` | app/search/server/page.tsx:370-393 | a button is highlighted exactly when its sort is the one sent, whatever the URL's `sort_by` |
| `SearchPage.Range` | app/search/server/page.tsx:66-68 | the range has a value exactly when the page is a number; None stands for the `NaN-NaN` range the page prints for any other `page` |
| `SearchPage.RangeBounds` | app/search/server/page.tsx:68 | the range printed is `(page-1)*12+1` to `min(page*12, found)`; on a page with results it lies within 1..found and is `min(12, remaining)` wide; past the last page it is empty |
| `SearchPage.Pagination` | app/search/server/page.tsx:242-269 | the bar is shown exactly when there are more than 12 results; "Previous" exactly after page 1; "Next" exactly while `page * 12 < found` |
| `SearchPage.NextBeforeLastPage` | app/search/server/page.tsx:259 | "Next" is shown exactly before the last page, ⌈found / 12⌉ |
| `SearchPage.NeighbourLinksFollowed` | app/search/server/page.tsx:245-264 | "Previous" and "Next" move exactly one page and change nothing else the page reads |
| `SearchPage.NextPageHasResults` | app/search/server/page.tsx:259-264 | the page a "Next" link leads to has a non-empty range |
| `SearchPage.FacetOptions` | app/search/server/page.tsx:99-167 | one checkbox per facet value, in order, with its checked state and toggle link |
| `SearchPage.Show` | app/search/server/page.tsx:34-272 | the empty state, with the query, is shown exactly when nothing was found for a non-empty query; otherwise the view carries the query, the hits and count returned, for each facet its checkbox list, "Clear all", the pagination bar, and the range of the page when something was found |
| `SearchPage.Render` | app/search/server/page.tsx:24-32 | the page shows the service's normalised answer to the request it sends, or the mock fallback for its query when the service fails |
| `SearchPage.HeadphonesWhileDown` | app/search/server/page.tsx:24-68 | with the service down, "headphones" shows hit 1 alone, as 1-1 of 1, with no pagination and no "Clear all" |
| `SearchPage.NoMatchWhileDown` | app/search/server/page.tsx:34-57 | with the service down, a query that matches nothing shows the empty state |
| `Gateway.BuildParameters` | lib/typesense/server.ts:63-85 | every defaulted property is sent truthy: a truthy caller value as given, otherwise `*`, `name,description,content,category,tags`, `_text_match:desc,rating:desc`, `category,brand,in_stock`, `name,description`, `"1"` typos, 10 facet values, page 1, 12 per page and snippet threshold 30; pass-through properties are copied; `prefix` is the caller's when given and true only when missing; `enable_overrides` is off only for an explicit `false` |
| `Gateway.FalsyCountsAsMissing` | lib/typesense/server.ts:64-78 | passing `""` or 0 for a defaulted property sends the same parameters as leaving it out |
| `Gateway.BuildParametersIdempotent` | lib/typesense/server.ts:63-85 | the parameters sent, offered again as a request, are sent unchanged |
| `Gateway.Normalize` | lib/typesense/server.ts:89-95 | missing hits and facet counts become `[]`; a missing `found` or time becomes 0; a non-zero page is kept, and a missing or 0 page becomes 1 |
| `Gateway.NormalizeIdempotent` | lib/typesense/server.ts:89-95 | a normalised result normalises to itself |
| `Gateway.Search` | lib/typesense/server.ts:58-100 | as written: sends `BuildParameters`; fails exactly when the service fails, with "Failed to perform server-side search"; otherwise returns the normalised response |
| `Gateway.SearchIntended` | lib/typesense/server.ts:58-100 | the same, sending the corrected `BuildParametersIntended` |
| `Gateway.SearchIntendedAgrees` | lib/typesense/server.ts:71 | the corrected search answers exactly as the original for every request whose `per_page` is not 0, so for every request the page sends |
| `Gateway.HitMissesByLetters` | lib/typesense/server.ts:233-237 | a hit does not match when each of its name, description and category lacks some lower-case letter of the query, in both cases |
| `Gateway.Fallback` | lib/typesense/server.ts:228-244 | the mock answer: `found` is the number of hits, with the mock facet counts, time 1 and page 1 |
| `Gateway.FallbackFiltersMock` | lib/typesense/server.ts:231-242 | with a query other than empty or `*`, the hits are exactly the mock hits whose name, description or category contains the lower-cased query, in mock order |
| `Gateway.FallbackWithoutQuery` | lib/typesense/server.ts:232-244 | a missing, empty or `*` query returns the whole mock: two hits, found 2 |
| `Gateway.SearchWithFallback` | lib/typesense/server.ts:222-246 | never fails: the service's normalised answer to `BuildParameters`, or the fallback for the request's query |
| `Gateway.GetFacets` | lib/typesense/server.ts:122-135 | as written: a wildcard search asking for 12 documents; the facet counts the service returns, `[]` when it sends none, and `[]` when it fails |
| `Gateway.GetFacetsIntended` | lib/typesense/server.ts:122-135 | corrected: the same wildcard search asking for no documents, with the same facet counts or `[]` |
| `Gateway.GetFacetsAsksForTwelve` | lib/typesense/server.ts:124-128 | as written, `getFacets` asks the service for 12 documents, whatever the fields |
| `Gateway.GetFacetsEmptyFieldList` | lib/typesense/server.ts:122-126 | an empty field list joins to `""`, so the default facets are requested |
| `Gateway.BuildParametersIntended` | lib/typesense/server.ts:71 | an explicit `per_page` is sent as given, 0 included, and a missing one as 12; everything else is as in `BuildParameters` |
| `Gateway.BuildParametersIntendedFacets` | lib/typesense/server.ts:122-128 | under the corrected defaulting, `getFacets` asks for no documents; the correction changes nothing for any request whose `per_page` is not 0 |
| `GatewayExamples.FilterMock` | lib/typesense/server.ts:233-237 | filtering the mock is deciding each of the two hits in turn |
| `GatewayExamples.FallbackHeadphones` | lib/typesense/server.ts:231-242 | "headphones" matches only hit 1, so found is 1 |
| `GatewayExamples.FallbackElectronics` | lib/typesense/server.ts:231-242 | every query that lower-cases to "electronics" matches both hits by category, so found is 2 |
| `GatewayExamples.FallbackElectronicsCapitalised` | lib/typesense/server.ts:231-242 | the facet's own spelling "Electronics" is such a query, so it returns both hits |
| `GatewayExamples.FallbackNoMatch` | lib/typesense/server.ts:231-242 | "xyz-no-match" matches nothing, so found is 0 |
| `SearchClient.Or` | lib/typesense/client.ts:272 | `options.key \|\| d` is the caller's value when it is truthy, and `d` otherwise |
| `SearchClient.Spread` | lib/typesense/client.ts:270-280 | the spread has the keys of both objects; the caller's value wins; other keys keep the computed value |
| `SearchClient.DefaultThenSpread` | lib/typesense/client.ts:270-280 | a `\|\|` default followed by the spread depends only on presence: a passed key is sent as passed, even when falsy |
| `SearchClient.FilterClause` | lib/typesense/client.ts:263-268 | one value gives `field:v`; several give `field:[v1, v2, ...]`; the clause starts with `field:` and contains every value |
| `SearchClient.FilterClausesConcat` | lib/typesense/client.ts:261-268 | the clauses follow entry order |
| `SearchClient.FilterClausesOne` | lib/typesense/client.ts:261-267 | an entry with an empty list gives no clause; an entry with values gives its own clause |
| `SearchClient.FilterClausesCount` | lib/typesense/client.ts:261-262 | there is one clause per entry with values |
| `SearchClient.FacetedSearch` | lib/typesense/client.ts:270-280 | `filter_by` is the clauses joined with `" && "`, or undefined when there are none; `facet_by` is the facets joined with `","`; `query_by` defaults to `title,description`; any key the caller passes wins |
| `SearchClient.FacetedSearchPaging` | lib/typesense/client.ts:275-277 | 20 per page, page 1 and 20 facet values, unless the caller passes a value, falsy or not |
| `SearchClient.FacetedSearchCallerFilter` | lib/typesense/client.ts:274-279 | a caller's `filter_by` replaces the filter built from `filters` |
| `SearchClient.GeoFilter` | lib/typesense/client.ts:203 | the geo clause is `location:(`, the latitude, `, `, the longitude, `, `, the radius and ` km)`, in that order |
| `SearchClient.CombinedFilter` | lib/typesense/client.ts:204-207 | the result always contains the geo clause: after `existing && ` when a truthy filter exists, alone otherwise |
| `SearchClient.GeoSearch` | lib/typesense/client.ts:209-218 | without a caller filter, the geo clause is the filter; the sort defaults to `_geo_distance(location):asc`, `query_by` to `title,description`, `per_page` to 20 and `page` to 1; any key the caller passes wins |
| `SearchClient.GeoSearchDropsGeoClause` | lib/typesense/client.ts:209-218 | as written, a caller's `filter_by` is sent unchanged, without the geo clause |
| `SearchClient.GeoSearchDropsGeoClauseExample` | lib/typesense/client.ts:203-218 | a rating filter passed with a geo search is sent with no `location:(` at all |
| `SearchClient.GeoSearchIntended` | lib/typesense/client.ts:203-218 | the corrected builder differs from the original only in `filter_by` |
| `SearchClient.GeoSearchIntendedKeepsGeoClause` | lib/typesense/client.ts:203-218 | the corrected builder always sends the geo clause, after a truthy caller filter |
| `SearchClient.SemanticSearch` | lib/typesense/client.ts:122-160 | the semantic keys plus the caller's; the caller's values win |
| `SearchClient.SemanticComputed` | lib/typesense/client.ts:122-158 | exactly the 27 keys of the literal are written |
| `SearchClient.SemanticSearchFields` | lib/typesense/client.ts:123-125 | by default the search runs over title, description and content, weighted 3,2,1 |
| `SearchClient.SemanticSearchTypos` | lib/typesense/client.ts:129-130 | by default it is not a prefix search and allows two typos |
| `SearchClient.SemanticSearchPaging` | lib/typesense/client.ts:154-158 | 20 per page, page 1 and 3 per group, each replaced by any value the caller passes |
| `SearchClient.SemanticSearchPassThrough` | lib/typesense/client.ts:127-157 | the vector query, user, facets, filter, sort and grouping are the caller's, and undefined when not passed |
| `SearchClient.VectorSearch` | lib/typesense/client.ts:175-185 | a wildcard query; any key the caller passes wins |
| `SearchClient.VectorSearchCountMatchesPage` | lib/typesense/client.ts:177-179 | the neighbour count `k` equals the `per_page` sent, unless the caller passes a falsy `per_page` |
| `SearchClient.VectorSearchZeroPage` | lib/typesense/client.ts:177-184 | with `per_page: 0`, the count is 20 while 0 is sent as `per_page` |
| `SearchClient.AutocompleteSearch` | lib/typesense/client.ts:234-243 | a one-typo prefix search that returns only the searched field, best match first; the field defaults to `title` and the limit to 5 |
| `SearchClient.SuggestionSearches` | lib/typesense/client.ts:294-301 | one search per collection, in order, the searches alike except for the collection |
| `SearchClient.SuggestionSearchShape` | lib/typesense/client.ts:294-301 | each search has the same `q`, `prefix: true`, `per_page = limit`, `include_fields: title` |
| `SearchClient.AddTitle` | lib/typesense/client.ts:307-311 | reading a hit adds its truthy title to the set unless it is already there |
| `SearchClient.Suggestions` | lib/typesense/client.ts:293-318 | a failure gives no suggestions |
| `SearchClient.GetSearchSuggestions` | lib/typesense/client.ts:288-319 | the loops return exactly the deduplicated titles, cut to `limit * collections.length`, or `[]` on failure; the collections default to products, courses and documents, and the limit to 3 |
| `SearchClient.SuggestionsDistinct` | lib/typesense/client.ts:304-314 | no title twice, none empty, at most `limit * collections.length` |
| `SearchClient.SuggestionsFirstSeen` | lib/typesense/client.ts:306-314 | every suggestion is some hit's title, in order of first appearance, result by result and hit by hit |
| `Js.Dedupe` | lib/typesense/client.ts:304-314 | the set read out in insertion order is duplicate-free and holds exactly the elements added |
| `Js.DedupeFirstSeenOrder` | lib/typesense/client.ts:304-314 | a set's order is first-insertion order |
| `Js.SliceTo` | lib/typesense/client.ts:314 | `slice(0, end)` is a prefix of length `min(end, n)`, counted back from the end for a negative `end` |
| `ProductValidation.StringErrors` | lib/validation/schemas.ts:4-15 | a required string passes exactly when present and non-empty, and within its length bounds when it has them; an absent value fails `Required` alone; a failing length test is reported first and `Required` last, as the tests are added, so an empty bounded name gives `MinLength` then `Required` |
| `ProductValidation.PriceErrors` | lib/validation/schemas.ts:16-18 | price passes exactly when present and strictly positive |
| `ProductValidation.RatingErrors` | lib/validation/schemas.ts:19-22 | rating passes exactly when present and within 0..5 |
| `ProductValidation.ReviewsCountErrors` | lib/validation/schemas.ts:23-26 | the review count passes exactly when present, at least 0 and whole |
| `ProductValidation.TagErrors` | lib/validation/schemas.ts:31-33 | tags pass exactly when missing, or present with at least one element and only strings |
| `ProductValidation.ElementErrors` | lib/validation/schemas.ts:31-32 | the element errors are all type errors, and there are none exactly when every element is a string |
| `ProductValidation.ImageErrors` | lib/validation/schemas.ts:34-36 | the image passes exactly when missing, null, empty or a URL |
| `ProductValidation.Validate` | lib/validation/schemas.ts:3-37 | no errors exactly when every field's constraint holds |
| `ProductValidation.ShortNameRejected` | lib/validation/schemas.ts:4-7 | a two-character name fails only the minimum-length test, with the schema's message |
| `ProductValidation.FractionalNegativeCountRejected` | lib/validation/schemas.ts:23-26 | a review count of -0.5 fails both of its tests, in schema order |
| `ProductValidation.MockHeadphonesValid` | lib/validation/schemas.ts:3-37 | the mock headphones meet the schema, given that their image URL does |
| `ProductValidation.MockWatchValid` | lib/validation/schemas.ts:3-37 | the mock watch meets the schema, given that its image URL does |

## Left out

- **Rendering:** all markup, styles, `Suspense`, the header and the search form. `SearchPage.View` keeps only what the results area decides.
- **The page's error view** (app/search/server/page.tsx:276-301) is not modelled. Its `try` covers the search and the whole rendering, so any exception thrown there shows it. In the model `searchWithFallback` never fails (`Gateway.SearchWithFallback`) and rendering has no exceptions, so the model has no path to it.
- **Repeated query keys:** the model's URL parameters are single strings. A repeated key such as `?filter_by=a&filter_by=b` reaches the page as an array. Then `split` throws while the facets render (app/search/server/page.tsx:106), which shows the error view. With the service down, the fallback's `toLowerCase` (lib/typesense/server.ts:231) throws on an array `q`, inside its own `catch`.
- **The number display:** the search time, the price, the star count and the facet heading's `replace('_', ' ')` are not modelled.
- **Client construction and caching:**
  - the Typesense client construction and environment reads (lib/typesense/server.ts:4-14, lib/typesense/client.ts:16-94);
  - the lazily cached client singletons and `getInstance` (lib/typesense/server.ts:48-56, 148). These are hidden global state over foreign objects.
- **Network-bound calls:** every call into the Typesense SDK. `search` and `federatedSearch` become function parameters. `getDocument`, `getCollectionInfo` and `healthCheck` (lib/typesense/server.ts:102-145) are not modelled. Nor are collection management, analytics and metrics (lib/typesense/client.ts:321-422). These are foreign calls with nothing to decide locally.
- **The thrown error:** `search` rethrows with a fixed message. The model keeps the message and drops the logged error and its stack.
- **Logging:** `console` logging is not modelled.
- **Percent-encoding:** a link is a list of key-value pairs before `URLSearchParams` percent-encoding, and following it reads them back.
- **Key order in links:** the order in which `URLSearchParams` writes the keys of a spread object is not modelled. Links built from `...searchParams` are modelled as the page's parameter record with one field replaced.
- Js.ToLower: lower-cases ASCII letters only, because Unicode case mapping is outside the model. The fallback examples use ASCII text.
- SearchClient.GeoFilter: takes latitude, longitude and radius as already-rendered strings, because JavaScript's number-to-string conversion of floats is not modelled. `SearchClient.VectorQueryText` does the same for vector components.
- SearchClient.Text: renders integers and strings only, since numbers in parameter values are integers in this model.
- **Filter entry order:** `Object.entries` puts integer-like keys first. The model takes the entries in the order given.
- **Schema casting:** the validation library's value casting (a number given for a string field) is not modelled. Each field is given in its own type, or missing or null.
- ProductValidation.Message: gives no text for the library's own messages for null arrays and non-string elements, because that text comes from the library, not from the schema.
- ProductValidation.ImageErrors: the URL pattern is a parameter, because the library's URL regex is not part of this model. An empty string passes, as the library's URL test skips empty strings.
- ProductValidation.StringErrors: counts characters, whereas JavaScript lengths count UTF-16 code units.
- Js.IntToString: numbers are unbounded integers, so JavaScript's exponent form from 1e21 on (`"1e+21"`, which `parseInt` reads as 1) and the precision lost past 2^53 are not modelled; `Js.ParseIntToString` holds only for the decimal form.
- SearchClient.Key: a caller's extra key `Other(name)` is taken to be none of the named keys' property names; the model does not identify `Other("filter_by")` with `FilterBy`.
- **The admin, settings and form screens, the seed script, the schema declarations and the type declarations** are presentation, configuration or static data.

## Findings

| source | as written | input that shows it | evidently intended | confidence | as-written member | corrected member |
|---|---|---|---|---|---|---|
| lib/typesense/server.ts:127 | `getFacets` passes `per_page: 0`, which `searchParams.per_page \|\| 12` (line 71) turns into 12 | `getFacets('products')` | the comment says "Only get facets, no documents", so 0 should reach the service | not executed | `Gateway.GetFacetsAsksForTwelve` | `Gateway.GetFacetsIntended` |
| lib/typesense/client.ts:217 | `...options` is spread after `filter_by: combinedFilter`, so a caller's `filter_by` overwrites the combined filter | `geoSearch(c, 'pizza', 40.7, -74.0, 5, { filter_by: 'rating:>4' })` sends `rating:>4` alone | the caller's filter and the geo clause, combined at lines 204-207 | not executed | `SearchClient.GeoSearchDropsGeoClauseExample` | `SearchClient.GeoSearchIntendedKeepsGeoClause` |

`Gateway.Search`, `Gateway.SearchWithFallback` and `Gateway.GetFacets`
keep the program's own defaulting. `Gateway.SearchIntended` and
`Gateway.GetFacetsIntended` are the corrected versions. The two searches
agree on every request whose `per_page` is not 0
(`Gateway.SearchIntendedAgrees`), and the page always sends 12.
