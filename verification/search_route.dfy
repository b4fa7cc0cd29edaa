/**
 * The `POST /api/search` handler: caller key, rate limit, request
 * validation, the language-model call, reply validation, and the allow-list
 * filter that lets only catalog items through.
 *
 * The model is outside the model: its answer is an input (`ModelReply`),
 * and the handler reports the user text it would have sent (`asked`) so that
 * when the model is consulted is part of the result. The instruction prompt
 * is a fixed text built from the catalog alone and is not represented.
 */
module SearchRoute {
  import opened Optional
  import opened Json
  import opened Schemas
  import Inventory
  import RateLimit
  import Strings
  import Seqs

  const Anonymous: string := "anonymous"

  const TooManyRequestsMessage: string := "Too many requests. Please wait a moment before trying again."
  const InvalidRequestMessage: string := "Invalid request. Query must be a non-empty string (max 500 characters)."
  const InvalidJsonMessage: string := "Invalid JSON body."
  const ModelErrorPrefix: string := "AI error: "
  const UnknownModelError: string := "Unknown error"
  const UnexpectedFormatMessage: string := "AI returned an unexpected response format."
  const MalformedMessage: string := "AI returned malformed data."

  /** What the model call produced: an exception (with its message, if any), or reply text and `JSON.parse`'s verdict on it. */
  datatype ModelReply =
    | Failed(message: Option<string>)
    | Replied(text: string, parsed: Option<Json>)

  datatype Body =
    | Error(error: string)
    | Results(results: seq<SearchResult>, noMatchReason: Option<string>, total: int)

  datatype Response = Response(status: int, body: Body)

  /** The new rate-limit store, the response, and the user text sent to the model if it was consulted. */
  datatype Outcome = Outcome(store: RateLimit.Store, response: Response, asked: Option<string>)

  /**
   * The rate-limit key from the `x-forwarded-for` header: its first
   * comma-separated entry, trimmed. Only a missing header falls back to
   * "anonymous"; an empty header gives the empty key.
   */
  function CallerKey(forwardedFor: Option<string>): (key: string)
    ensures forwardedFor.None? ==> key == Anonymous
    ensures forwardedFor.Some? ==> ',' !in key
    ensures forwardedFor.Some? ==> Strings.Trimmed(Strings.IsTrimmable, Strings.BeforeFirst(forwardedFor.value, ','), key)
    ensures forwardedFor.Some? ==> Strings.Unpadded(Strings.IsTrimmable, key)
  {
    match forwardedFor
    case None => Anonymous
    case Some(header) => Strings.Trim(Strings.BeforeFirst(header, ','))
  }

  /**
   * Of a proxy chain `pre + key + post + "," + rest`, the key is the first
   * entry with its surrounding whitespace removed.
   */
  lemma CallerKeyOfChain(pre: string, key: string, post: string, rest: string)
    requires Strings.All(Strings.IsTrimmable, pre) && Strings.All(Strings.IsTrimmable, post)
    requires Strings.Unpadded(Strings.IsTrimmable, key)
    requires ',' !in pre + key + post
    ensures CallerKey(Some(pre + key + post + "," + rest)) == key
  {
    assert pre + key + post + "," + rest == (pre + key + post) + [','] + rest;
    Strings.BeforeFirstStops(pre + key + post, ',', rest);
    Strings.TrimPadded(pre, key, post);
  }

  /** A header without a comma is a single entry, trimmed. */
  lemma CallerKeyOfSingle(pre: string, key: string, post: string)
    requires Strings.All(Strings.IsTrimmable, pre) && Strings.All(Strings.IsTrimmable, post)
    requires Strings.Unpadded(Strings.IsTrimmable, key)
    requires ',' !in pre + key + post
    ensures CallerKey(Some(pre + key + post)) == key
  {
    Strings.BeforeFirstWhole(pre + key + post, ',');
    Strings.TrimPadded(pre, key, post);
  }

  /** A present but empty header gives the empty key, not "anonymous". */
  lemma EmptyHeaderIsNotAnonymous()
    ensures CallerKey(Some("")) == ""
    ensures CallerKey(Some("")) != CallerKey(None)
  {
    CallerKeyOfSingle("", "", "");
  }

  /** The user part of the model prompt: the query, verbatim, between a fixed label and a closing quote. */
  function UserPrompt(query: string): (text: string)
    ensures |text| == |query| + 14
    ensures text[..13] == "User query: \"" && text[|text| - 1] == '"'
    ensures text[13..|text| - 1] == query
  {
    "User query: \"" + query + "\""
  }

  /** Different queries give different prompts: the model always sees the query that was asked. */
  lemma UserPromptInjective(q1: string, q2: string)
    requires UserPrompt(q1) == UserPrompt(q2)
    ensures q1 == q2
  {
    var t := UserPrompt(q1);
    assert q1 == t[13..|t| - 1];
  }

  /** Whether the hallucination guard lets a match through. */
  predicate IsKnown(m: Match) {
    m.id in Inventory.ValidIds
  }

  /** A kept match as sent to the browser: item facts from the catalog, reasoning and score from the model. */
  function Enrich(m: Match): (r: SearchResult)
    requires IsKnown(m)
    ensures r.id == m.id && r.reasoning == m.reasoning && r.matchScore == m.matchScore
    ensures var item := Inventory.InventoryMap[m.id];
      r.title == item.title && r.location == item.location && r.price == item.price && r.tags == item.tags
  {
    Inventory.IndexMatchesCatalog();
    var item := Inventory.InventoryMap[m.id];
    SearchResult(item.id, item.title, item.location, item.price, item.tags, m.reasoning, m.matchScore)
  }

  /** The post-processing safety filter: drop unknown ids, then enrich each kept match. */
  function SafetyFilter(matches: seq<Match>): (results: seq<SearchResult>)
    ensures |results| <= |matches|
    ensures forall k :: 0 <= k < |results| ==> results[k].id in Inventory.ValidIds
    ensures forall k :: 0 <= k < |results| ==> FromCatalog(results[k])
  {
    var kept := Seqs.Filter(IsKnown, matches);
    assert forall k :: 0 <= k < |kept| ==> kept[k] in kept;
    seq(|kept|, k requires 0 <= k < |kept| => Enrich(kept[k]))
  }

  /** The result's item fields are those of the catalog item with its id. */
  predicate FromCatalog(r: SearchResult) {
    && r.id in Inventory.InventoryMap
    && var item := Inventory.InventoryMap[r.id];
    && r.id == item.id && r.title == item.title && r.location == item.location
    && r.price == item.price && r.tags == item.tags
  }

  /** The model-supplied part of a result. */
  function ModelPart(r: SearchResult): Match {
    Match(r.id, r.reasoning, r.matchScore)
  }

  /**
   * Forgetting the catalog fields of the results gives back exactly the
   * matches with known ids, in the model's order: no re-sorting, no
   * deduplication, nothing invented.
   */
  lemma SafetyFilterKeepsKnownInOrder(matches: seq<Match>)
    ensures var results := SafetyFilter(matches);
      seq(|results|, k requires 0 <= k < |results| => ModelPart(results[k])) == Seqs.Filter(IsKnown, matches)
  {
  }

  /** The filter treats each match on its own: it distributes over concatenation. */
  lemma SafetyFilterAppend(a: seq<Match>, b: seq<Match>)
    ensures SafetyFilter(a + b) == SafetyFilter(a) + SafetyFilter(b)
  {
    Seqs.FilterAppend(IsKnown, a, b);
  }

  /** A single match yields its enrichment when its id is known, and nothing otherwise. */
  lemma SafetyFilterSingle(m: Match)
    ensures SafetyFilter([m]) == if IsKnown(m) then [Enrich(m)] else []
  {
    assert [m][1..] == [];
  }

  /** A repeated known id is kept twice: the filter does not deduplicate. */
  lemma SafetyFilterKeepsDuplicates(m: Match)
    requires IsKnown(m)
    ensures SafetyFilter([m, m]) == [Enrich(m), Enrich(m)]
  {
    assert [m, m] == [m] + [m];
    SafetyFilterAppend([m], [m]);
    SafetyFilterSingle(m);
  }

  /** An invented match is dropped and a catalog match after it kept. */
  lemma SafetyFilterDropsInvented(bad: Match, good: Match)
    requires !IsKnown(bad) && IsKnown(good)
    ensures SafetyFilter([bad, good]) == [Enrich(good)]
  {
    assert [bad, good] == [bad] + [good];
    SafetyFilterAppend([bad], [good]);
    SafetyFilterSingle(bad);
    SafetyFilterSingle(good);
  }

  /** The guard admits exactly the ids 1 to 5: 0, negative and large ids (99 among them) are unknown. */
  lemma KnownIdsAreCatalogIds(m: Match)
    ensures IsKnown(m) <==> 1 <= m.id <= 5
  {
    Inventory.CatalogIds();
  }

  /** The handling of a model reply, once the model has been consulted. */
  function Respond(reply: ModelReply): (resp: Response)
    ensures resp.status in {200, 500, 503}
    ensures resp.status == 200 <==> resp.body.Results?
    ensures resp.status == 503 <==> reply.Failed?
    ensures resp.status == 500 ==> resp.body.error in {MalformedMessage, UnexpectedFormatMessage}
    ensures reply.Replied? && reply.parsed.None? ==> resp == Response(500, Error(MalformedMessage))
    ensures reply.Replied? && reply.parsed.Some? && ParseResponse(reply.parsed.value).None?
      ==> resp == Response(500, Error(UnexpectedFormatMessage))
    ensures resp.status == 200 ==> reply.Replied? && reply.parsed.Some? && ParseResponse(reply.parsed.value).Some?
    ensures resp.body.Results? ==> resp.body.total == |resp.body.results|
    ensures resp.body.Results? ==> forall k :: 0 <= k < |resp.body.results| ==>
      resp.body.results[k].id in Inventory.ValidIds && FromCatalog(resp.body.results[k])
  {
    match reply
    case Failed(message) =>
      var cause := if message.None? || message.value == "" then UnknownModelError else message.value;
      Response(503, Error(ModelErrorPrefix + cause))
    case Replied(_, None) =>
      Response(500, Error(MalformedMessage))
    case Replied(_, Some(value)) =>
      match ParseResponse(value)
      case None => Response(500, Error(UnexpectedFormatMessage))
      case Some(ai) =>
        var results := SafetyFilter(ai.matches);
        Response(200, Results(results, ai.noMatchReason, |results|))
  }

  /** `POST /api/search`. `body` is the parsed request body, `None` when it is not JSON. */
  function Post(store: RateLimit.Store, forwardedFor: Option<string>, now: int,
                body: Option<Json>, reply: ModelReply): (o: Outcome)
    ensures o.store == RateLimit.Check(store, CallerKey(forwardedFor), now).store
    ensures o.response.status == 429 <==> !RateLimit.Check(store, CallerKey(forwardedFor), now).admitted
    ensures o.response.status == 400 <==>
      RateLimit.Check(store, CallerKey(forwardedFor), now).admitted
      && (body.None? || ParseRequest(body.value).None?)
    ensures o.asked.Some? <==> o.response.status !in {400, 429}
    ensures o.asked.Some? ==> o.asked == Some(UserPrompt(ParseRequest(body.value).value))
    ensures o.response.status == 200 <==> o.response.body.Results?
    ensures o.asked.Some? ==> o.response == Respond(reply)
    ensures o.response.status == 429 ==> o.response.body == Error(TooManyRequestsMessage)
    ensures o.response.status == 400 ==> o.response.body == Error(if body.None? then InvalidJsonMessage else InvalidRequestMessage)
  {
    var gate := RateLimit.Check(store, CallerKey(forwardedFor), now);
    if !gate.admitted then
      Outcome(gate.store, Response(429, Error(TooManyRequestsMessage)), None)
    else if body.None? then
      Outcome(gate.store, Response(400, Error(InvalidJsonMessage)), None)
    else
      match ParseRequest(body.value)
      case None => Outcome(gate.store, Response(400, Error(InvalidRequestMessage)), None)
      case Some(query) => Outcome(gate.store, Respond(reply), Some(UserPrompt(query)))
  }

  /**
   * Whatever the request and the model reply, a successful response holds
   * only catalog items with catalog facts, and `total` counts them.
   */
  lemma PostSuccessIsGrounded(store: RateLimit.Store, forwardedFor: Option<string>, now: int,
                              body: Option<Json>, reply: ModelReply)
    requires Post(store, forwardedFor, now, body, reply).response.status == 200
    ensures var b := Post(store, forwardedFor, now, body, reply).response.body;
      && b.Results?
      && b.total == |b.results|
      && forall k :: 0 <= k < |b.results| ==> b.results[k].id in Inventory.ValidIds && FromCatalog(b.results[k])
  {
  }

  /**
   * The rate limit is charged before the body is read: the new store does not
   * depend on the body or on the model, so rejected requests use up a slot too.
   */
  lemma RateLimitPrecedesValidation(store: RateLimit.Store, forwardedFor: Option<string>, now: int,
                                    body1: Option<Json>, reply1: ModelReply,
                                    body2: Option<Json>, reply2: ModelReply)
    ensures Post(store, forwardedFor, now, body1, reply1).store == Post(store, forwardedFor, now, body2, reply2).store
  {
  }

  /**
   * A reply the handler cannot use never reaches the caller: two replies with
   * the same parse but different text give the same response.
   */
  lemma ReplyTextNeverEchoed(store: RateLimit.Store, forwardedFor: Option<string>, now: int,
                             body: Option<Json>, text1: string, text2: string, parsed: Option<Json>)
    ensures Post(store, forwardedFor, now, body, Replied(text1, parsed))
         == Post(store, forwardedFor, now, body, Replied(text2, parsed))
  {
  }

  /** The model's error message is reported after "AI error: ", or "Unknown error" when it has none. */
  lemma ModelErrorReported(message: Option<string>)
    ensures Respond(Failed(message)).body.error
         == ModelErrorPrefix + (if message.None? || message.value == "" then UnknownModelError else message.value)
  {
  }

  /** A reply that passes validation is answered with the filtered results and the model's reason, or null. */
  lemma SuccessCarriesFilteredReply(value: Json, text: string)
    requires ParseResponse(value).Some?
    ensures var ai := ParseResponse(value).value;
      Respond(Replied(text, Some(value))) == Response(200, Results(SafetyFilter(ai.matches), ai.noMatchReason, |SafetyFilter(ai.matches)|))
  {
  }

  /** An admitted, valid request whose reply fails the schema gets the generic 500 message. */
  lemma SchemaFailureIsGeneric(store: RateLimit.Store, forwardedFor: Option<string>, now: int,
                               query: string, text: string, value: Json)
    requires RateLimit.Check(store, CallerKey(forwardedFor), now).admitted
    requires 1 <= |query| <= MaxQueryLength
    requires ParseResponse(value).None?
    ensures Post(store, forwardedFor, now, Some(RequestToJson(query)), Replied(text, Some(value))).response
         == Response(500, Error(UnexpectedFormatMessage))
  {
    RequestRoundTrip(query);
  }

  /** The response `Post` gives an admitted request for `query` when the model replied with `ai`, written as JSON. */
  function Answered(store: RateLimit.Store, forwardedFor: Option<string>, now: int,
                    query: string, text: string, ai: AIResponse): Response
  {
    Post(store, forwardedFor, now, Some(RequestToJson(query)), Replied(text, Some(ResponseToJson(ai)))).response
  }

  /**
   * An admitted request with a valid query asks the model with that query and
   * is answered by handling the model's reply, whatever that reply is.
   */
  lemma AnsweredByReply(store: RateLimit.Store, forwardedFor: Option<string>, now: int,
                        query: string, reply: ModelReply)
    requires RateLimit.Check(store, CallerKey(forwardedFor), now).admitted
    requires 1 <= |query| <= MaxQueryLength
    ensures Post(store, forwardedFor, now, Some(RequestToJson(query)), reply)
         == Outcome(RateLimit.Check(store, CallerKey(forwardedFor), now).store, Respond(reply), Some(UserPrompt(query)))
  {
    RequestRoundTrip(query);
  }

  /** A reply holding one valid catalog match and no reason is answered with that one item. */
  lemma SingleKnownMatchReply(m: Match, text: string)
    requires ValidMatch(m) && IsKnown(m)
    ensures Respond(Replied(text, Some(ResponseToJson(AIResponse([m], None)))))
         == Response(200, Results([Enrich(m)], None, 1))
  {
    var ai := AIResponse([m], None);
    ResponseRoundTrip(ai);
    SuccessCarriesFilteredReply(ResponseToJson(ai), text);
    SafetyFilterSingle(m);
  }

  /** A reply holding an invented match and then a catalog match is answered with the catalog item alone. */
  lemma InventedThenKnownReply(bad: Match, good: Match, text: string)
    requires ValidMatch(bad) && ValidMatch(good) && !IsKnown(bad) && IsKnown(good)
    ensures Respond(Replied(text, Some(ResponseToJson(AIResponse([bad, good], None)))))
         == Response(200, Results([Enrich(good)], None, 1))
  {
    var ai := AIResponse([bad, good], None);
    ResponseRoundTrip(ai);
    SuccessCarriesFilteredReply(ResponseToJson(ai), text);
    SafetyFilterDropsInvented(bad, good);
  }

  /** A surf query answered with the Arugam Bay item (id 4) alone gives exactly that item, and a null reason. */
  lemma ScenarioSingleCatalogMatch(store: RateLimit.Store, forwardedFor: Option<string>, now: int,
                                   query: string, text: string, reasoning: string, score: real)
    requires RateLimit.Check(store, CallerKey(forwardedFor), now).admitted
    requires 1 <= |query| <= MaxQueryLength
    requires |reasoning| >= 1 && 80.0 <= score <= MaxScore
    ensures 4 in Inventory.ValidIds
    ensures Answered(store, forwardedFor, now, query, text, AIResponse([Match(4, reasoning, score)], None))
         == Response(200, Results([Enrich(Match(4, reasoning, score))], None, 1))
  {
    var m := Match(4, reasoning, score);
    assert IsKnown(m) by {
      KnownIdsAreCatalogIds(m);
    }
    AnsweredByReply(store, forwardedFor, now, query, Replied(text, Some(ResponseToJson(AIResponse([m], None)))));
    SingleKnownMatchReply(m, text);
  }

  /** An off-topic query answered with no matches and a reason gives no results and that reason. */
  lemma ScenarioNoMatch(store: RateLimit.Store, forwardedFor: Option<string>, now: int,
                        query: string, text: string, reason: string)
    requires RateLimit.Check(store, CallerKey(forwardedFor), now).admitted
    requires 1 <= |query| <= MaxQueryLength
    ensures Answered(store, forwardedFor, now, query, text, AIResponse([], Some(reason)))
         == Response(200, Results([], Some(reason), 0))
  {
    var ai := AIResponse([], Some(reason));
    AnsweredByReply(store, forwardedFor, now, query, Replied(text, Some(ResponseToJson(ai))));
    ResponseRoundTrip(ai);
    SuccessCarriesFilteredReply(ResponseToJson(ai), text);
  }

  /** A reply naming an invented id 99 and the catalog id 2 gives only the id-2 item. */
  lemma ScenarioInventedIdDropped(store: RateLimit.Store, forwardedFor: Option<string>, now: int,
                                  query: string, text: string, reasoning: string)
    requires RateLimit.Check(store, CallerKey(forwardedFor), now).admitted
    requires 1 <= |query| <= MaxQueryLength
    requires |reasoning| >= 1
    ensures 2 in Inventory.ValidIds
    ensures Answered(store, forwardedFor, now, query, text,
                     AIResponse([Match(99, reasoning, 95.0), Match(2, reasoning, 60.0)], None))
         == Response(200, Results([Enrich(Match(2, reasoning, 60.0))], None, 1))
  {
    var bad, good := Match(99, reasoning, 95.0), Match(2, reasoning, 60.0);
    assert !IsKnown(bad) && IsKnown(good) by {
      KnownIdsAreCatalogIds(bad);
      KnownIdsAreCatalogIds(good);
    }
    AnsweredByReply(store, forwardedFor, now, query, Replied(text, Some(ResponseToJson(AIResponse([bad, good], None)))));
    InventedThenKnownReply(bad, good, text);
  }
}
