# Smart Travel Scout — a Dafny model of the grounded search pipeline

Smart Travel Scout matches a free-text travel wish against a fixed catalog of
five Sri Lankan experiences, with a language model doing the matching. This
project models the deterministic parts around the model:

- the catalog, its set of valid ids and its id index (`Inventory`);
- the validators for the inbound request and for the model's reply (`Schemas`),
  written as partial decoders from an abstract JSON value (`Json`);
- the per-caller fixed-window rate limiter, as a pure transition over an explicit
  store with the clock passed in (`RateLimit`);
- the `POST /api/search` handler: caller-key derivation from `x-forwarded-for`,
  the order rate limit → request validation → model → reply validation →
  allow-list filter, and the status and message of every outcome (`SearchRoute`);
- the page logic: which results the filters show, and how a search updates the
  page state (`Page`), the filter panel (`FilterPanel`), and the colour choices of
  a result card (`ResultCard`).

Helper modules: `Optional` (present-or-absent values), `Seqs` (order-preserving
filter and the subsequence relation), `Strings` (JavaScript's `trim`, the first
segment of `split`, the default `sort` order and number formatting).

The language model is an input: `SearchRoute.ModelReply` is either a failure
with its optional message, or reply text together with what `JSON.parse` made of
it. `Post` returns the user text it would send the model, or nothing when it
never gets that far. The instruction prompt is a fixed text built from the
catalog alone. It does not depend on the query and is not represented. The
time (`now`, in milliseconds) is a parameter.

JSON numbers are reals, so the schema's integer test on `id` is meaningful (1.5
is rejected). Catalog prices are integers, and the price slider moves in whole
dollars.

## Model

| member | source | states |
|---|---|---|
| `Inventory.IndexById` | smart_travel_scout/src/data/inventory.ts:57 | the index is keyed by exactly the ids of the list, and each entry is an item of the list carrying that id |
| `Inventory.IndexFindsItem` | smart_travel_scout/src/data/inventory.ts:57 | when ids are distinct, looking up an item's id returns that very item, so the last-wins insertion order does not matter |
| `Inventory.CatalogIds` | smart_travel_scout/src/data/inventory.ts:15-54 | the catalog ids are pairwise distinct and the valid-id set is exactly {1, 2, 3, 4, 5} |
| `Inventory.IndexMatchesCatalog` | smart_travel_scout/src/data/inventory.ts:54-57 | the index's domain equals the valid-id set, and every catalog item is found under its own id |
| `Inventory.PricesInSliderRange` | smart_travel_scout/src/data/inventory.ts:15-51 | every catalog price lies between 0 and 300 |
| `Inventory.TagsDistinctPerItem` | smart_travel_scout/src/data/inventory.ts:15-51 | no catalog item lists a tag twice |
| `Schemas.ParseMatch` | smart_travel_scout/src/lib/schemas.ts:9-13 | an accepted match has a positive integer id, a non-empty reasoning and a score within 0..100 |
| `Schemas.ParseMatchAcceptsValidFields` | smart_travel_scout/src/lib/schemas.ts:9-13 | any value whose `id` is a positive integer, `reasoning` a non-empty string and `matchScore` a number within 0..100 is accepted as exactly that match, whatever other keys it carries |
| `Schemas.MatchRoundTrip` | smart_travel_scout/src/lib/schemas.ts:9-13 | a match written as JSON is accepted, unchanged, if and only if it satisfies those three conditions |
| `Schemas.ParseMatchReadsFields` | smart_travel_scout/src/lib/schemas.ts:9-13 | an accepted match is read from the value's own `id`, `reasoning` and `matchScore` fields, with the types the schema names |
| `Schemas.MatchBoundariesRejected` | smart_travel_scout/src/lib/schemas.ts:9-13 | id 0, a negative id, an empty reasoning and scores 150 and -5 are each rejected |
| `Schemas.MatchBoundariesInclusive` | smart_travel_scout/src/lib/schemas.ts:9-13 | scores 0 and 100 are accepted, both bounds being inclusive, and a fractional id is rejected |
| `Schemas.ParseMatches` | smart_travel_scout/src/lib/schemas.ts:17 | an array is accepted if and only if every element is, and then element by element, in order |
| `Schemas.ParseResponse` | smart_travel_scout/src/lib/schemas.ts:16-19 | a reply is accepted if and only if `matches` is present, is an array and every element decodes, and `noMatchReason` is absent or a string; the accepted matches are the decoded elements in order, and the reason is absent exactly when the field is, otherwise it is that field's string |
| `Schemas.MatchesRoundTrip` | smart_travel_scout/src/lib/schemas.ts:17 | a list of matches written as JSON is accepted, unchanged, if and only if all of them are valid |
| `Schemas.ResponseRoundTrip` | smart_travel_scout/src/lib/schemas.ts:16-19 | a reply written as JSON is accepted, unchanged, if and only if all its matches are valid; an absent or any string `noMatchReason`, the empty string included, is accepted |
| `Schemas.OneBadMatchRejectsAll` | smart_travel_scout/src/lib/schemas.ts:17 | one invalid element rejects the whole reply: there is no partial acceptance |
| `Schemas.EmptyMatchesAccepted` | smart_travel_scout/src/lib/schemas.ts:17-18 | a reply with an empty `matches` array is accepted, with or without a reason |
| `Schemas.NoMatchReasonMustBeString` | smart_travel_scout/src/lib/schemas.ts:18 | in any reply object, a present `noMatchReason` that is not a string (`null`, a number, ...) rejects the reply, whatever its matches |
| `Schemas.ParseRequest` | smart_travel_scout/src/lib/schemas.ts:38-40 | an accepted query has between 1 and 500 characters |
| `Schemas.ParseRequestAcceptsValidQuery` | smart_travel_scout/src/lib/schemas.ts:38-40 | any body whose `query` is a string of 1 to 500 characters is accepted with that query, whatever other keys it carries |
| `Schemas.RequestRoundTrip` | smart_travel_scout/src/lib/schemas.ts:38-40 | a request body `{query}` is accepted, with the query unchanged, if and only if the query has 1 to 500 characters |
| `Schemas.ParseRequestReadsQuery` | smart_travel_scout/src/lib/schemas.ts:38-40 | the accepted query is the body's own `query` string, and a missing or non-string `query` is rejected |
| `RateLimit.Check` | smart_travel_scout/src/lib/rateLimit.ts:22-38 | admits if and only if the caller has no open window (unknown, or `now` strictly past `resetAt`) or fewer than 10 requests in it; a new window stores count 1 and `now + 60000`; an admitted call in an open window adds 1; a denial leaves the store unchanged; other callers' entries never change |
| `RateLimit.CheckKeepsCountsBounded` | smart_travel_scout/src/lib/rateLimit.ts:15-37 | every stored count stays between 1 and 10 |
| `RateLimit.WindowEndIsInclusive` | smart_travel_scout/src/lib/rateLimit.ts:26 | at `now == resetAt` a full window still denies; one millisecond later the caller is admitted again |
| `RateLimit.CallsWithinWindow` | smart_travel_scout/src/lib/rateLimit.ts:22-38 | within one open window, a caller with `c` requests counted has exactly the next `10 - c` calls admitted and every later one denied; the count ends at the smaller of `c + n` and 10 |
| `RateLimit.FreshCallerBurst` | smart_travel_scout/src/lib/rateLimit.ts:15-38 | a new caller calling within the window its first call opens has calls 1 to 10 admitted and call 11 onwards denied |
| `RateLimit.ExpiredWindowResets` | smart_travel_scout/src/lib/rateLimit.ts:26-29 | after the window has passed, the next call is admitted and restarts the count at 1 with a new window end |
| `Strings.Trim` | smart_travel_scout/app/api/search/route.ts:50 | the trimmed key is a contiguous piece of the header entry, only whitespace was removed around it, and it neither starts nor ends with whitespace |
| `Strings.BeforeFirst` | smart_travel_scout/app/api/search/route.ts:50 | the first `split(",")` segment is a prefix without a comma, ending just before the first comma if there is one |
| `Strings.TrimPadded` | smart_travel_scout/app/api/search/route.ts:50 | trimming removes exactly the surrounding whitespace: a core with no whitespace at either end, padded by whitespace, comes back as that core |
| `Strings.TrimIdempotent` | smart_travel_scout/app/api/search/route.ts:50 | trimming an already trimmed key changes nothing |
| `Strings.BeforeFirstStops` | smart_travel_scout/app/api/search/route.ts:50 | the first segment ends at the first comma: whatever follows that comma does not affect it |
| `SearchRoute.CallerKey` | smart_travel_scout/app/api/search/route.ts:49-51 | a missing header gives "anonymous"; a present header gives a piece of its first comma-separated entry with only whitespace around it, starting and ending with a non-whitespace character (the trimmed entry) |
| `SearchRoute.CallerKeyOfChain` | smart_travel_scout/app/api/search/route.ts:49-51 | for a proxy chain, the key is exactly the first address without its surrounding spaces, whatever follows the first comma |
| `SearchRoute.CallerKeyOfSingle` | smart_travel_scout/app/api/search/route.ts:49-51 | a header without a comma yields itself, trimmed |
| `SearchRoute.EmptyHeaderIsNotAnonymous` | smart_travel_scout/app/api/search/route.ts:49-51 | a present but empty header gives the empty key, which differs from the key of a missing header |
| `SearchRoute.UserPrompt` | smart_travel_scout/app/api/search/route.ts:89 | the validated query is passed to the model verbatim, after the fixed label `User query: "` and before a closing quote |
| `SearchRoute.UserPromptInjective` | smart_travel_scout/app/api/search/route.ts:89 | different queries give different prompts, so the query can be read back from what the model is sent |
| `SearchRoute.Enrich` | smart_travel_scout/app/api/search/route.ts:143-153 | a kept result takes id, title, location, price and tags from the catalog entry and only reasoning and score from the match |
| `SearchRoute.SafetyFilter` | smart_travel_scout/app/api/search/route.ts:141-154 | whatever the matches, every result's id is a catalog id and its item fields equal that catalog item's, and there are never more results than matches |
| `SearchRoute.SafetyFilterKeepsKnownInOrder` | smart_travel_scout/app/api/search/route.ts:141-154 | the results' model fields, read back in order, are exactly the matches with catalog ids: no re-sorting, no deduplication, nothing added |
| `SearchRoute.SafetyFilterAppend` | smart_travel_scout/app/api/search/route.ts:141-154 | the filter handles each match on its own: filtering a concatenation concatenates the results |
| `SearchRoute.SafetyFilterSingle` | smart_travel_scout/app/api/search/route.ts:141-154 | one match gives its enriched result when its id is a catalog id, and nothing otherwise |
| `SearchRoute.SafetyFilterKeepsDuplicates` | smart_travel_scout/app/api/search/route.ts:141-142 | a catalog id proposed twice yields two results |
| `SearchRoute.SafetyFilterDropsInvented` | smart_travel_scout/app/api/search/route.ts:141-142 | an invented match is dropped silently while a catalog match after it is kept |
| `SearchRoute.KnownIdsAreCatalogIds` | smart_travel_scout/app/api/search/route.ts:142 | the guard lets through exactly the ids 1 to 5, so 0, negative and large ids are dropped |
| `SearchRoute.Respond` | smart_travel_scout/app/api/search/route.ts:103-160 | a model failure, and only a model failure, gives 503; a reply `JSON.parse` rejects gives 500 "AI returned malformed data."; a parsed reply the schema rejects gives 500 with the fixed unexpected-format message; 200 only for a schema-valid reply, with catalog results and `total` their number |
| `SearchRoute.Post` | smart_travel_scout/app/api/search/route.ts:47-160 | the store is always the rate limiter's new store; 429 if and only if the limiter denies, with the fixed "too many requests" message; 400 if and only if admitted with an unparsable or invalid body, with the invalid-JSON message for the first and the invalid-request message for the second; the model is consulted, with the validated query, if and only if the status is neither 400 nor 429, and then the response is the handling of its reply |
| `SearchRoute.RateLimitPrecedesValidation` | smart_travel_scout/app/api/search/route.ts:52-73 | the limiter's slot is taken before the body is read, so the new store is the same whatever the body and the model reply |
| `SearchRoute.ReplyTextNeverEchoed` | smart_travel_scout/app/api/search/route.ts:117-137 | the response does not depend on the raw reply text, so no error response can contain it |
| `SearchRoute.ModelErrorReported` | smart_travel_scout/app/api/search/route.ts:103-113 | a model failure is reported as "AI error: " followed by its message, or by "Unknown error" when the message is missing or empty |
| `SearchRoute.SuccessCarriesFilteredReply` | smart_travel_scout/app/api/search/route.ts:139-160 | an accepted reply is answered with the filtered matches, their count, and the model's reason or null |
| `SearchRoute.PostSuccessIsGrounded` | smart_travel_scout/app/api/search/route.ts:139-160 | every 200 response carries results whose ids are catalog ids and whose item fields are the catalog's, with a total equal to their number |
| `SearchRoute.AnsweredByReply` | smart_travel_scout/app/api/search/route.ts:52-160 | for any model reply (failure, unparsable text or parsed JSON), an admitted request with a valid query charges the limiter, asks the model with that query, and is answered by handling that reply |
| `SearchRoute.SingleKnownMatchReply` | smart_travel_scout/app/api/search/route.ts:116-160 | a schema-valid reply with a single catalog match is answered with that one enriched result, total 1, reason null |
| `SearchRoute.InventedThenKnownReply` | smart_travel_scout/app/api/search/route.ts:139-160 | a reply with an invented match before a catalog match is answered with only the catalog match, total 1 |
| `SearchRoute.SchemaFailureIsGeneric` | smart_travel_scout/app/api/search/route.ts:121-128 | an admitted valid request whose reply violates the schema gets status 500 and the fixed "unexpected response format" message |
| `SearchRoute.ScenarioSingleCatalogMatch` | smart_travel_scout/app/api/search/route.ts:116-160 | a reply naming only the Arugam Bay item (id 4) yields exactly that item, total 1, reason null |
| `SearchRoute.ScenarioNoMatch` | smart_travel_scout/app/api/search/route.ts:116-160 | a reply with no matches and a reason yields no results, total 0 and that reason |
| `SearchRoute.ScenarioInventedIdDropped` | smart_travel_scout/app/api/search/route.ts:139-160 | a reply naming id 99 and id 2 yields only the id-2 item |
| `Page.FilteredResults` | smart_travel_scout/app/page.tsx:51-59 | the shown results are an order-preserving subsequence of the results, holding every copy of each result that is within the price limit and carries all selected tags, and none of the others |
| `Page.NoTagsMeansPriceOnly` | smart_travel_scout/app/page.tsx:53-55 | with no tag selected only the price limit decides |
| `Page.NarrowingNeverEnlarges` | smart_travel_scout/app/page.tsx:51-59 | lowering the price limit or selecting more tags shows a subsequence of what was shown before |
| `Page.DefaultFiltersShowAffordable` | smart_travel_scout/app/page.tsx:51-59 | under the default filters every result priced at most 300 is shown, unchanged and in order |
| `Page.HandleSearch` | smart_travel_scout/app/page.tsx:21-49 | a search always ends not loading; it ends without error exactly when a 2xx response body was read; then the results are the body's (or none), the reason is the body's, and the filters are reset; on error the results are empty and the filters untouched; the error is the network or body-read failure's message, or, for a non-2xx response, the body's `error` when it has one and otherwise "Request failed (<status>)" |
| `Strings.NatToString` | smart_travel_scout/app/page.tsx:36 | the status in "Request failed (…)" is written in decimal: only digits, at least one, and no leading zero except for 0 itself |
| `Strings.NatToStringValue` | smart_travel_scout/app/page.tsx:36 | the digits written for a status spell that status back |
| `Page.RequestFailedNamesStatus` | smart_travel_scout/app/page.tsx:36 | the fallback message is "Request failed (" then the decimal digits of the status then ")", and those digits spell the status back |
| `Page.FirstSearchKeepsDefaultFilters` | smart_travel_scout/app/page.tsx:11-49 | starting from the initial page, a search leaves the filters at their defaults whatever its outcome, and ends searched and not loading |
| `Page.SuccessfulSearchShowsAllResults` | smart_travel_scout/app/page.tsx:39-42 | after a 200 from the handler, the page holds the handler's results and reason and shows every one of them |
| `Page.FailedSearchShowsError` | smart_travel_scout/app/page.tsx:34-45 | after any other response from the handler, the page shows its error message and no results |
| `Strings.SortedDistinct` | smart_travel_scout/src/components/FilterPanel.tsx:7-9 | the distinct values in increasing order: strictly sorted, with exactly the input's elements |
| `Strings.StrictlySortedUnique` | smart_travel_scout/src/components/FilterPanel.tsx:7-9 | two strictly sorted lists with the same elements are equal, so deduplicating before or while sorting gives the same list |
| `FilterPanel.TagsOf` | smart_travel_scout/src/components/FilterPanel.tsx:8 | the flattened tag list holds exactly the tags that occur in some item |
| `FilterPanel.AllTagsIsSortedUnion` | smart_travel_scout/src/components/FilterPanel.tsx:7-9 | the chip list is sorted, repeats no tag, equals the union of the catalog tags, and is the only list with these properties |
| `FilterPanel.ToggleTag` | smart_travel_scout/src/components/FilterPanel.tsx:25-30 | toggling flips whether the tag is selected, leaves every other tag's membership and the price limit alone, and appends an unselected tag at the end |
| `FilterPanel.ToggleOffKeepsOthersInOrder` | smart_travel_scout/src/components/FilterPanel.tsx:26-27 | deselecting removes every occurrence of the tag and keeps all other tags, in order |
| `FilterPanel.ToggleTwiceRestores` | smart_travel_scout/src/components/FilterPanel.tsx:25-30 | selecting an unselected tag and deselecting it again restores the filters exactly |
| `FilterPanel.ClearFilters` | smart_travel_scout/src/components/FilterPanel.tsx:32-34 | the cleared filters have no active filter |
| `FilterPanel.HasActiveFilters` | smart_travel_scout/src/components/FilterPanel.tsx:36-37 | a filter is active when the price limit is below 300 or some tag is selected; `InactiveIffCleared` pins the inactive filters to the cleared ones |
| `FilterPanel.InactiveIffCleared` | smart_travel_scout/src/components/FilterPanel.tsx:32-37 | within the slider's range, no filter is active if and only if the filters equal the cleared ones (price 300, no tags) |
| `ResultCard.ScoreColor` | smart_travel_scout/src/components/ResultCard.tsx:43-47 | the ring colour is always one of green, yellow, red |
| `ResultCard.ScoreColorBands` | smart_travel_scout/src/components/ResultCard.tsx:43-47 | green if and only if the score is at least 80, yellow if and only if it is from 50 up to 80, red if and only if it is below 50 |
| `ResultCard.ScoreColorMonotone` | smart_travel_scout/src/components/ResultCard.tsx:43-47 | a higher score never gets a worse colour |
| `ResultCard.TagClass` | smart_travel_scout/src/components/ResultCard.tsx:21-40 | a listed tag gets its colour class, and the default class is returned if and only if the tag is not listed |
| `ResultCard.CatalogTagsColored` | smart_travel_scout/src/components/ResultCard.tsx:21-36 | every tag occurring in the catalog has a colour of its own |

## Left out

- The language-model client and its `generateContent` call (route.ts lines 11 and 77-101): a network call to a model that cannot be seen. Its outcome is the `ModelReply` input.
- The wording of the instruction prompt (route.ts lines 13-45): advisory text for the model. Its scoring rubric is never enforced by the code.
- `JSON.parse`, `JSON.stringify`, the JSON body of the HTTP response, and the schema library's internals, including its removal of unknown keys. Parsing is an input, and the validators are hand-written decoders over `Json`.
- Floating-point numbers: JSON numbers are reals and prices are integers, with the same inclusive bounds. NaN, infinities and rounding belong to the runtime.
- String lengths count characters, not UTF-16 code units. Sorting compares code points, which equals JavaScript's code-unit order for the ASCII catalog tags.
- Several `x-forwarded-for` headers are joined into one value by the runtime; the header is modelled as one string.
- `Date.now()` is the `now` parameter. Concurrency is not modelled: the runtime is single-threaded, so each limiter call is atomic.
- The store's unbounded growth, since no entry is ever removed: the model keeps the same map, without a size bound.
- Console logging, React rendering, animations, `SearchBar.tsx`, `layout.tsx` and `SafeguardBadge.tsx`: presentation only.
- `Page.HandleSearch`: the "Something went wrong." message for a thrown non-`Error` value is not modelled. `fetch` and `res.json()` reject with `Error` objects, whose message is the `NetworkFailure` or `Unreadable` message.
- `ResultCard.TagClass`: a tag naming an inherited object property (such as "constructor") would read that property instead of falling back to the default class. The model treats the colour table as a plain map. Tags only ever come from the catalog, so this cannot occur.
- `SearchRoute.UserPrompt`: only states that the query is embedded verbatim; the system prompt part is not represented.
