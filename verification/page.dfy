/**
 * The search page's logic: which results are shown under the current
 * filters, and how a search updates the page state.
 */
module Page {
  import opened Optional
  import opened Schemas
  import opened FilterPanel
  import Inventory
  import SearchRoute
  import RateLimit
  import Json
  import Seqs
  import Strings

  /** The filters after page load and after every successful search. */
  const DefaultFilters: Filters := Filters(300, [])

  /** Whether one result passes the filters: within the price limit and carrying every selected tag. */
  predicate Shown(r: SearchResult, f: Filters) {
    && r.price <= f.maxPrice
    && (|f.selectedTags| == 0 || forall t :: t in f.selectedTags ==> t in r.tags)
  }

  function ShownUnder(f: Filters): SearchResult -> bool {
    r => Shown(r, f)
  }

  /** The results on screen: those passing the filters, in the order received. */
  function FilteredResults(results: seq<SearchResult>, f: Filters): (shown: seq<SearchResult>)
    ensures Seqs.IsSubsequence(shown, results)
    ensures forall r :: multiset(shown)[r] == if Shown(r, f) then multiset(results)[r] else 0
  {
    Seqs.FilterIsSubsequence(ShownUnder(f), results);
    Seqs.FilterCounts(ShownUnder(f), results);
    Seqs.Filter(ShownUnder(f), results)
  }

  /** With no tag selected only the price limit applies. */
  lemma NoTagsMeansPriceOnly(r: SearchResult, f: Filters)
    requires f.selectedTags == []
    ensures Shown(r, f) <==> r.price <= f.maxPrice
  {
  }

  /**
   * Narrowing the filters (a lower price limit, more selected tags) never
   * shows more: what is shown afterwards was shown before, in the same order.
   */
  lemma NarrowingNeverEnlarges(results: seq<SearchResult>, wide: Filters, narrow: Filters)
    requires narrow.maxPrice <= wide.maxPrice
    requires forall t :: t in wide.selectedTags ==> t in narrow.selectedTags
    ensures Seqs.IsSubsequence(FilteredResults(results, narrow), FilteredResults(results, wide))
  {
    Seqs.FilterMonotone(ShownUnder(narrow), ShownUnder(wide), results);
  }

  /** Under the default filters every result priced at most 300 is shown, unchanged and in order. */
  lemma DefaultFiltersShowAffordable(results: seq<SearchResult>)
    requires forall k :: 0 <= k < |results| ==> results[k].price <= 300
    ensures FilteredResults(results, DefaultFilters) == results
  {
    Seqs.FilterAll(ShownUnder(DefaultFilters), results);
  }

  datatype State = State(
    results: seq<SearchResult>,
    noMatchReason: Option<string>,
    isLoading: bool,
    error: Option<string>,
    hasSearched: bool,
    filters: Filters)

  /** The page before any search: no results, no error, default filters. */
  const Initial: State := State([], None, false, None, false, DefaultFilters)

  /** How reading the response body as JSON turned out. */
  datatype BodyRead = Unreadable(message: string) | Read(body: SearchRoute.Body)

  /** How the request to the search endpoint turned out. */
  datatype FetchOutcome =
    | NetworkFailure(message: string)
    | Received(status: nat, body: BodyRead)

  predicate IsOk(status: nat) {
    200 <= status <= 299
  }

  /** The message shown for a failed response that carries no `error` field. */
  function RequestFailedMessage(status: nat): string {
    "Request failed (" + Strings.NatToString(status) + ")"
  }

  /** The fallback message names the status: its digits, between the fixed text and `)`, spell the status back. */
  lemma RequestFailedNamesStatus(status: nat)
    ensures var m := RequestFailedMessage(status);
      && |m| >= 18 && m[..16] == "Request failed (" && m[|m| - 1] == ')'
      && (forall i :: 16 <= i < |m| - 1 ==> '0' <= m[i] <= '9')
      && Strings.DigitsValue(m[16..|m| - 1]) == status
  {
    var m := RequestFailedMessage(status);
    assert m[16..|m| - 1] == Strings.NatToString(status);
    Strings.NatToStringValue(status);
  }

  /** The state changes made before the request is sent. */
  function StartSearch(s: State): State {
    s.(isLoading := true, error := None, noMatchReason := None, hasSearched := true)
  }

  /** The state once the request has settled, including the final `isLoading := false`. */
  function FinishSearch(s: State, outcome: FetchOutcome): State {
    var settled :=
      match outcome
      case NetworkFailure(message) =>
        s.(error := Some(message), results := [])
      case Received(status, read) =>
        if !IsOk(status) then
          var message := if read.Read? && read.body.Error? then read.body.error else RequestFailedMessage(status);
          s.(error := Some(message), results := [])
        else
          match read
          case Unreadable(message) => s.(error := Some(message), results := [])
          case Read(Results(results, reason, _)) =>
            s.(results := results, noMatchReason := reason, filters := DefaultFilters)
          case Read(Error(_)) =>
            s.(results := [], noMatchReason := None, filters := DefaultFilters);
    settled.(isLoading := false)
  }

  /** `handleSearch`: one search, from the click to the settled state. */
  function HandleSearch(s: State, outcome: FetchOutcome): (t: State)
    ensures !t.isLoading && t.hasSearched
    ensures t.error.None? <==> outcome.Received? && IsOk(outcome.status) && outcome.body.Read?
    ensures t.error.None? ==> t.filters == DefaultFilters
    ensures t.error.None? ==> t.results == (if outcome.body.body.Results? then outcome.body.body.results else [])
    ensures t.error.None? ==> t.noMatchReason == (if outcome.body.body.Results? then outcome.body.body.noMatchReason else None)
    ensures t.error.Some? ==> t.results == [] && t.noMatchReason.None? && t.filters == s.filters
    ensures outcome.NetworkFailure? ==> t.error == Some(outcome.message)
    ensures outcome.Received? && !IsOk(outcome.status) ==>
      t.error == Some(if outcome.body.Read? && outcome.body.body.Error? then outcome.body.body.error
                      else RequestFailedMessage(outcome.status))
    ensures outcome.Received? && IsOk(outcome.status) && outcome.body.Unreadable? ==> t.error == Some(outcome.body.message)
  {
    FinishSearch(StartSearch(s), outcome)
  }

  /** The first search leaves the filters at their defaults, whatever its outcome. */
  lemma FirstSearchKeepsDefaultFilters(outcome: FetchOutcome)
    ensures HandleSearch(Initial, outcome).filters == DefaultFilters
    ensures HandleSearch(Initial, outcome).hasSearched && !HandleSearch(Initial, outcome).isLoading
  {
  }

  /**
   * A successful answer from the search endpoint is shown in full: the
   * filters reset to their defaults and every catalog price is within them.
   */
  lemma SuccessfulSearchShowsAllResults(s: State, store: RateLimit.Store, forwardedFor: Option<string>,
                                        now: int, body: Option<Json.Json>, reply: SearchRoute.ModelReply)
    requires SearchRoute.Post(store, forwardedFor, now, body, reply).response.status == 200
    ensures var resp := SearchRoute.Post(store, forwardedFor, now, body, reply).response;
      var t := HandleSearch(s, Received(200, Read(resp.body)));
      && t.error.None?
      && t.results == resp.body.results
      && t.noMatchReason == resp.body.noMatchReason
      && FilteredResults(t.results, t.filters) == t.results
  {
    var resp := SearchRoute.Post(store, forwardedFor, now, body, reply).response;
    SearchRoute.PostSuccessIsGrounded(store, forwardedFor, now, body, reply);
    Inventory.PricesInSliderRange();
    forall k | 0 <= k < |resp.body.results| ensures resp.body.results[k].price <= 300 {
      var item := Inventory.InventoryMap[resp.body.results[k].id];
      assert item in Inventory.Items;
    }
    DefaultFiltersShowAffordable(resp.body.results);
  }

  /** A failed answer from the search endpoint shows its error message and no results. */
  lemma FailedSearchShowsError(s: State, store: RateLimit.Store, forwardedFor: Option<string>,
                               now: int, body: Option<Json.Json>, reply: SearchRoute.ModelReply)
    ensures var resp := SearchRoute.Post(store, forwardedFor, now, body, reply).response;
      resp.status != 200 ==>
        resp.status >= 0 && resp.body.Error? &&
        var t := HandleSearch(s, Received(resp.status, Read(resp.body)));
        && t.error == Some(resp.body.error)
        && t.results == []
  {
  }
}
