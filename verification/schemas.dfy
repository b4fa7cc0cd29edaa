/**
 * The validators applied at the API boundary: the inbound request schema and
 * the schema of the language model's reply. Each is a partial decoder from
 * JSON: `Some` when the schema accepts the value, `None` when it rejects it.
 * As with the schema library, keys the schema does not name are ignored.
 */
module Schemas {
  import opened Optional
  import opened Json

  /** One candidate match proposed by the model. */
  datatype Match = Match(id: int, reasoning: string, matchScore: real)

  /** The model's whole reply. */
  datatype AIResponse = AIResponse(matches: seq<Match>, noMatchReason: Option<string>)

  /** One enriched result sent to the browser. */
  datatype SearchResult = SearchResult(
    id: int, title: string, location: string, price: int, tags: seq<string>,
    reasoning: string, matchScore: real)

  const MaxQueryLength: int := 500
  const MinScore: real := 0.0
  const MaxScore: real := 100.0

  /** Everything the match schema guarantees about a match it accepted. */
  predicate ValidMatch(m: Match) {
    m.id > 0 && |m.reasoning| >= 1 && MinScore <= m.matchScore <= MaxScore
  }

  /** A number with no fractional part (`Number.isInteger`). */
  predicate IsInteger(x: real) {
    x.Floor as real == x
  }

  /** MatchSchema: a positive integer `id`, a non-empty `reasoning`, a `matchScore` in 0..100. */
  function ParseMatch(value: Json): (r: Option<Match>)
    ensures r.Some? ==> ValidMatch(r.value)
  {
    match (Get(value, "id"), Get(value, "reasoning"), Get(value, "matchScore"))
    case (Some(JNumber(id)), Some(JString(reasoning)), Some(JNumber(score))) =>
      if IsInteger(id) && id > 0.0 && |reasoning| >= 1 && MinScore <= score <= MaxScore
      then Some(Match(id.Floor, reasoning, score))
      else None
    case _ => None
  }

  /**
   * Any object whose three fields pass is accepted, whatever other keys it
   * carries: like `z.object`, the schema ignores keys it does not name.
   */
  lemma ParseMatchAcceptsValidFields(value: Json)
    requires Get(value, "id").Some? && Get(value, "id").value.JNumber?
    requires Get(value, "reasoning").Some? && Get(value, "reasoning").value.JString?
    requires Get(value, "matchScore").Some? && Get(value, "matchScore").value.JNumber?
    requires IsInteger(Get(value, "id").value.n) && Get(value, "id").value.n > 0.0
    requires |Get(value, "reasoning").value.s| >= 1
    requires MinScore <= Get(value, "matchScore").value.n <= MaxScore
    ensures ParseMatch(value)
         == Some(Match(Get(value, "id").value.n.Floor, Get(value, "reasoning").value.s, Get(value, "matchScore").value.n))
  {
  }

  /** The JSON object a well-behaved model writes for a match. */
  function MatchToJson(m: Match): Json {
    JObject(map["id" := JNumber(m.id as real), "reasoning" := JString(m.reasoning),
                "matchScore" := JNumber(m.matchScore)])
  }

  /** A match written as JSON is accepted, unchanged, exactly when it is valid. */
  lemma MatchRoundTrip(m: Match)
    ensures ParseMatch(MatchToJson(m)) == (if ValidMatch(m) then Some(m) else None)
  {
  }

  /**
   * The match schema accepts nothing it could not have read from the three
   * fields: an accepted value carries the match's own id, reasoning and score.
   */
  lemma ParseMatchReadsFields(value: Json)
    requires ParseMatch(value).Some?
    ensures var m := ParseMatch(value).value;
      && Get(value, "id") == Some(JNumber(m.id as real))
      && Get(value, "reasoning") == Some(JString(m.reasoning))
      && Get(value, "matchScore") == Some(JNumber(m.matchScore))
  {
  }

  /** Rejected edge cases of the match schema: id 0, a negative id, an empty reasoning, scores 150 and -5. */
  lemma MatchBoundariesRejected(reasoning: string)
    requires |reasoning| >= 1
    ensures ParseMatch(MatchToJson(Match(0, reasoning, 50.0))).None?
    ensures ParseMatch(MatchToJson(Match(-3, reasoning, 50.0))).None?
    ensures ParseMatch(MatchToJson(Match(1, "", 50.0))).None?
    ensures ParseMatch(MatchToJson(Match(1, reasoning, 150.0))).None?
    ensures ParseMatch(MatchToJson(Match(1, reasoning, -5.0))).None?
  {
    MatchRoundTrip(Match(0, reasoning, 50.0));
    MatchRoundTrip(Match(-3, reasoning, 50.0));
    MatchRoundTrip(Match(1, "", 50.0));
    MatchRoundTrip(Match(1, reasoning, 150.0));
    MatchRoundTrip(Match(1, reasoning, -5.0));
  }

  /** Both score bounds are inclusive, and a fractional id is rejected. */
  lemma MatchBoundariesInclusive(reasoning: string)
    requires |reasoning| >= 1
    ensures ParseMatch(MatchToJson(Match(1, reasoning, 0.0))).Some?
    ensures ParseMatch(MatchToJson(Match(1, reasoning, 100.0))).Some?
    ensures ParseMatch(JObject(map["id" := JNumber(1.5), "reasoning" := JString(reasoning),
                                   "matchScore" := JNumber(50.0)])).None?
  {
    MatchRoundTrip(Match(1, reasoning, 0.0));
    MatchRoundTrip(Match(1, reasoning, 100.0));
  }

  /** `z.array(MatchSchema)`: all elements decode, or the array is rejected. */
  function ParseMatches(items: seq<Json>): (r: Option<seq<Match>>)
    ensures r.Some? <==> forall i :: 0 <= i < |items| ==> ParseMatch(items[i]).Some?
    ensures r.Some? ==> |r.value| == |items|
    ensures r.Some? ==> forall i :: 0 <= i < |items| ==> ParseMatch(items[i]) == Some(r.value[i])
  {
    if items == [] then Some([])
    else
      match (ParseMatch(items[0]), ParseMatches(items[1..]))
      case (Some(m), Some(ms)) => Some([m] + ms)
      case _ => None
  }

  /** AIResponseSchema: an array `matches` of valid matches, and an optional string `noMatchReason`. */
  function ParseResponse(value: Json): (r: Option<AIResponse>)
    ensures r.Some? ==> forall i :: 0 <= i < |r.value.matches| ==> ValidMatch(r.value.matches[i])
    ensures r.Some? <==>
      && Get(value, "matches").Some? && Get(value, "matches").value.JArray?
      && ParseMatches(Get(value, "matches").value.items).Some?
      && (Get(value, "noMatchReason").None? || Get(value, "noMatchReason").value.JString?)
    ensures r.Some? ==> Some(r.value.matches) == ParseMatches(Get(value, "matches").value.items)
    ensures r.Some? ==> (r.value.noMatchReason.None? <==> Get(value, "noMatchReason").None?)
    ensures r.Some? && r.value.noMatchReason.Some? ==> Get(value, "noMatchReason") == Some(JString(r.value.noMatchReason.value))
  {
    var matches := Get(value, "matches");
    var reason := Get(value, "noMatchReason");
    if matches.None? || !matches.value.JArray? then None
    else
      var ms := ParseMatches(matches.value.items);
      if ms.None? then None
      else if reason.None? then Some(AIResponse(ms.value, None))
      else if reason.value.JString? then Some(AIResponse(ms.value, Some(reason.value.s)))
      else None
  }

  /** The JSON array a well-behaved model writes for a list of matches. */
  function MatchesToJson(ms: seq<Match>): (items: seq<Json>)
    ensures |items| == |ms|
  {
    if ms == [] then [] else [MatchToJson(ms[0])] + MatchesToJson(ms[1..])
  }

  /** The JSON object a well-behaved model writes for a reply. */
  function ResponseToJson(ai: AIResponse): Json {
    var matches := JArray(MatchesToJson(ai.matches));
    match ai.noMatchReason
    case None => JObject(map["matches" := matches])
    case Some(reason) => JObject(map["matches" := matches, "noMatchReason" := JString(reason)])
  }

  predicate AllValid(ms: seq<Match>) {
    forall i :: 0 <= i < |ms| ==> ValidMatch(ms[i])
  }

  lemma AllValidCons(ms: seq<Match>)
    requires ms != []
    ensures AllValid(ms) <==> ValidMatch(ms[0]) && AllValid(ms[1..])
  {
    assert forall i :: 1 <= i < |ms| ==> ms[i] == ms[1..][i - 1];
  }

  /** A list of matches written as JSON is accepted, unchanged, exactly when every match is valid. */
  lemma {:induction false} MatchesRoundTrip(ms: seq<Match>)
    ensures ParseMatches(MatchesToJson(ms)) == (if AllValid(ms) then Some(ms) else None)
  {
    if ms != [] {
      var items := MatchesToJson(ms);
      assert items[0] == MatchToJson(ms[0]);
      assert items[1..] == MatchesToJson(ms[1..]);
      MatchRoundTrip(ms[0]);
      MatchesRoundTrip(ms[1..]);
      AllValidCons(ms);
      if AllValid(ms) {
        assert ms == [ms[0]] + ms[1..];
      }
    }
  }

  /**
   * A reply written as JSON is accepted, unchanged, exactly when every match
   * is valid; `noMatchReason` may be absent or any string, the empty one included.
   */
  lemma ResponseRoundTrip(ai: AIResponse)
    ensures ParseResponse(ResponseToJson(ai)) == (if AllValid(ai.matches) then Some(ai) else None)
  {
    MatchesRoundTrip(ai.matches);
  }

  /** All or nothing: one rejected element rejects the whole reply, with no partial acceptance. */
  lemma OneBadMatchRejectsAll(value: Json, k: int)
    requires value.JObject? && "matches" in value.fields && value.fields["matches"].JArray?
    requires 0 <= k < |value.fields["matches"].items|
    requires ParseMatch(value.fields["matches"].items[k]).None?
    ensures ParseResponse(value).None?
  {
  }

  /** A reply with no matches is accepted, with or without a reason. */
  lemma EmptyMatchesAccepted(reason: Option<string>)
    ensures ParseResponse(ResponseToJson(AIResponse([], reason))) == Some(AIResponse([], reason))
  {
    ResponseRoundTrip(AIResponse([], reason));
  }

  /** `noMatchReason` must be a string when present: `null` or a number rejects any reply, whatever its matches. */
  lemma NoMatchReasonMustBeString(value: Json)
    requires value.JObject? && "noMatchReason" in value.fields && !value.fields["noMatchReason"].JString?
    ensures ParseResponse(value).None?
  {
  }

  /** SearchRequestSchema: an object whose `query` is a string of 1 to 500 characters. */
  function ParseRequest(value: Json): (query: Option<string>)
    ensures query.Some? ==> 1 <= |query.value| <= MaxQueryLength
  {
    match Get(value, "query")
    case Some(JString(q)) => if 1 <= |q| <= MaxQueryLength then Some(q) else None
    case _ => None
  }

  /** Any body whose `query` is a string of 1 to 500 characters is accepted, whatever other keys it carries. */
  lemma ParseRequestAcceptsValidQuery(value: Json)
    requires Get(value, "query").Some? && Get(value, "query").value.JString?
    requires 1 <= |Get(value, "query").value.s| <= MaxQueryLength
    ensures ParseRequest(value) == Some(Get(value, "query").value.s)
  {
  }

  /** The request body a browser sends for `query`. */
  function RequestToJson(query: string): Json {
    JObject(map["query" := JString(query)])
  }

  /** A request is accepted, with its query unchanged, exactly when the query has 1 to 500 characters. */
  lemma RequestRoundTrip(query: string)
    ensures ParseRequest(RequestToJson(query)) == (if 1 <= |query| <= MaxQueryLength then Some(query) else None)
  {
  }

  /** The accepted query is the body's own `query` string, and only strings are accepted. */
  lemma ParseRequestReadsQuery(value: Json)
    ensures ParseRequest(value).Some? ==> Get(value, "query") == Some(JString(ParseRequest(value).value))
    ensures (Get(value, "query").None? || !Get(value, "query").value.JString?) ==> ParseRequest(value).None?
  {
  }
}
