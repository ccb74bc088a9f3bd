/**
 * What `handleOptimizeItinerary` promises, stated over the step `App.Handle`:
 * each branch's response and effect on the cache, idempotence of repeated
 * requests, which request fields matter, and the texts it builds.
 */
module AppProperties {
  import opened Options
  import opened Decimals
  import opened JsValues
  import opened App
  import Strings

  // ---- the branches of the step ----

  /** A body that is not JSON is answered 500 and nothing else happens. */
  lemma UnparsableBody(cache: map<string, string>, generate: string -> Option<string>, appendLog: string -> bool, now: string)
    ensures Handle(None, cache, generate, appendLog, now)
      == Outcome(Response(500, ErrorPayload(InternalError)), cache, None, None)
  {
  }

  /** The JSON text `null` parses, but destructuring it throws: 500 and nothing else happens. */
  lemma NullBody(cache: map<string, string>, generate: string -> Option<string>, appendLog: string -> bool, now: string)
    ensures Handle(Some(Null), cache, generate, appendLog, now)
      == Outcome(Response(500, ErrorPayload(InternalError)), cache, None, None)
  {
  }

  /** A body that fails validation is answered 400 with the first violated rule's message; nothing is generated, cached or logged. */
  lemma ValidationFailure(
    body: JsValue, k: nat, cache: map<string, string>,
    generate: string -> Option<string>, appendLog: string -> bool, now: string)
    requires Destructurable(body) && FirstFailing(body, k)
    ensures Handle(Some(body), cache, generate, appendLog, now)
      == Outcome(Response(400, ErrorPayload(RuleMessage(k))), cache, None, None)
  {
  }

  /**
   * A body whose budget is an object with its own `toString` (or an array
   * holding one) makes `Number(budget)` throw once the earlier rules pass:
   * 500, and nothing else happens.
   */
  lemma ValidationThrows(
    body: JsValue, cache: map<string, string>,
    generate: string -> Option<string>, appendLog: string -> bool, now: string)
    requires Destructurable(body) && FirstThrowing(body, 2)
    ensures Handle(Some(body), cache, generate, appendLog, now)
      == Outcome(Response(500, ErrorPayload(InternalError)), cache, None, None)
  {
  }

  /**
   * A valid body whose destinations hold an object with its own `toString`
   * makes `destinations.join(',')` in the cache key throw: 500, before the
   * cache is read or the generator is called.
   */
  lemma UnprintableDestinations(
    body: JsValue, cache: map<string, string>,
    generate: string -> Option<string>, appendLog: string -> bool, now: string)
    requires Valid(body) && ToStringThrows(Field(body, "destinations"))
    ensures Handle(Some(body), cache, generate, appendLog, now)
      == Outcome(Response(500, ErrorPayload(InternalError)), cache, None, None)
  {
    assert !Printable(RequestOf(body));
  }

  /** A valid body whose key is cached gets the stored text without a call to the generator. */
  lemma CacheHit(
    body: JsValue, cache: map<string, string>,
    generate: string -> Option<string>, appendLog: string -> bool, now: string)
    requires Valid(body) && Printable(RequestOf(body)) && CacheKey(RequestOf(body)) in cache
    ensures Handle(Some(body), cache, generate, appendLog, now)
      == Outcome(Response(200, ItineraryPayload(cache[CacheKey(RequestOf(body))], FromCache)), cache, None, None)
  {
  }

  /** On a miss the generated text is returned and stored under the key; no other entry changes. */
  lemma CacheMiss(
    body: JsValue, cache: map<string, string>,
    generate: string -> Option<string>, appendLog: string -> bool, now: string, text: string)
    requires Valid(body) && Printable(RequestOf(body))
    requires CacheKey(RequestOf(body)) !in cache
    requires generate(Prompt(RequestOf(body))) == Some(text)
    ensures var o := Handle(Some(body), cache, generate, appendLog, now);
      && o.response == Response(200, ItineraryPayload(text, Generated))
      && o.cache == cache[CacheKey(RequestOf(body)) := text]
      && o.prompt == Some(Prompt(RequestOf(body)))
  {
  }

  /** When generation fails the answer is a bare 500 and the cache is untouched: the store comes after the call. */
  lemma GenerationFailure(
    body: JsValue, cache: map<string, string>,
    generate: string -> Option<string>, appendLog: string -> bool, now: string)
    requires Valid(body) && Printable(RequestOf(body))
    requires CacheKey(RequestOf(body)) !in cache
    requires generate(Prompt(RequestOf(body))) == None
    ensures Handle(Some(body), cache, generate, appendLog, now)
      == Outcome(Response(500, ErrorPayload(InternalError)), cache, Some(Prompt(RequestOf(body))), None)
  {
  }

  /** Whether appending to the log succeeds changes neither the response, the cache nor the call made. */
  lemma LogFailureSwallowed(
    parsed: Option<JsValue>, cache: map<string, string>,
    generate: string -> Option<string>, appendLog1: string -> bool, appendLog2: string -> bool, now: string)
    ensures var o1 := Handle(parsed, cache, generate, appendLog1, now);
      var o2 := Handle(parsed, cache, generate, appendLog2, now);
      o1.response == o2.response && o1.cache == o2.cache && o1.prompt == o2.prompt
  {
  }

  /** A successful miss writes the log entry for the request and the text whenever the append succeeds. */
  lemma GeneratedIsLogged(
    body: JsValue, cache: map<string, string>,
    generate: string -> Option<string>, appendLog: string -> bool, now: string, text: string)
    requires Valid(body) && Printable(RequestOf(body))
    requires CacheKey(RequestOf(body)) !in cache
    requires generate(Prompt(RequestOf(body))) == Some(text)
    requires appendLog(LogEntry(now, RequestOf(body), text))
    ensures Handle(Some(body), cache, generate, appendLog, now).logged == Some(LogEntry(now, RequestOf(body), text))
  {
  }

  // ---- idempotence ----

  /**
   * After a request has been answered 200, the same request is answered from
   * the cache with the same itinerary, whatever the generator would now say.
   */
  lemma RepeatHitsCache(
    body: JsValue, cache: map<string, string>,
    generate1: string -> Option<string>, appendLog1: string -> bool, now1: string,
    generate2: string -> Option<string>, appendLog2: string -> bool, now2: string)
    requires Handle(Some(body), cache, generate1, appendLog1, now1).response.status == 200
    ensures var o1 := Handle(Some(body), cache, generate1, appendLog1, now1);
      var o2 := Handle(Some(body), o1.cache, generate2, appendLog2, now2);
      && o2.response == Response(200, ItineraryPayload(o1.response.payload.itinerary, FromCache))
      && o2.cache == o1.cache
      && o2.prompt == None
  {
    var o1 := Handle(Some(body), cache, generate1, appendLog1, now1);
    assert Admit(Some(body)).Admitted?;
    var key := CacheKey(RequestOf(body));
    assert key in o1.cache && o1.cache[key] == o1.response.payload.itinerary;
    CacheHit(body, o1.cache, generate2, appendLog2, now2);
  }

  // ---- a run of requests ----

  /** How many responses carry a freshly generated itinerary. */
  function CountGenerated(responses: seq<Response>): nat
  {
    if |responses| == 0 then 0
    else CountGenerated(responses[..|responses| - 1]) + (if IsGenerated(responses[|responses| - 1]) then 1 else 0)
  }

  /** A request that was answered 200 has its key in `cache`, holding the text it was answered with. */
  predicate Remembered(request: Option<JsValue>, response: Response, cache: map<string, string>)
  {
    response.status == 200 ==>
      && response.payload.ItineraryPayload?
      && request.Some? && Valid(request.value) && Printable(RequestOf(request.value))
      && CacheKey(RequestOf(request.value)) in cache
      && cache[CacheKey(RequestOf(request.value))] == response.payload.itinerary
  }

  /** A cache that keeps every entry of another remembers what that one did. */
  lemma RememberedKept(request: Option<JsValue>, response: Response, c1: map<string, string>, c2: map<string, string>)
    requires Remembered(request, response, c1)
    requires forall k | k in c1 :: k in c2 && c2[k] == c1[k]
    ensures Remembered(request, response, c2)
  {
  }

  /** One request of a run: `Handle`, seen through the facts the run needs. */
  method Step(
    request: Option<JsValue>, cache: map<string, string>,
    generate: string -> Option<string>, appendLog: string -> bool, now: string)
    returns (response: Response, cache': map<string, string>)
    ensures response.status == 200 || response.status == 400 || response.status == 500
    ensures |cache'| == |cache| + (if IsGenerated(response) then 1 else 0)
    ensures forall k | k in cache :: k in cache' && cache'[k] == cache[k]
    ensures Remembered(request, response, cache')
  {
    var o := Handle(request, cache, generate, appendLog, now);
    response, cache' := o.response, o.cache;
  }

  /**
   * Requests handled one after another against the process-wide cache, which
   * starts empty. Each successful generation adds exactly one entry, and
   * every itinerary ever answered stays cached under its request's key.
   */
  method Serve(
    requests: seq<Option<JsValue>>,
    generate: nat -> string -> Option<string>, appendLog: nat -> string -> bool, clock: nat -> string)
    returns (responses: seq<Response>, cache: map<string, string>)
    ensures |responses| == |requests|
    ensures forall i | 0 <= i < |responses| ::
      responses[i].status == 200 || responses[i].status == 400 || responses[i].status == 500
    ensures |cache| == CountGenerated(responses)
    ensures forall i | 0 <= i < |responses| :: Remembered(requests[i], responses[i], cache)
  {
    responses, cache := [], map[];
    for n := 0 to |requests|
      invariant |responses| == n
      invariant forall i | 0 <= i < n ::
        responses[i].status == 200 || responses[i].status == 400 || responses[i].status == 500
      invariant |cache| == CountGenerated(responses)
      invariant forall i | 0 <= i < n :: Remembered(requests[i], responses[i], cache)
    {
      var response, cache' := Step(requests[n], cache, generate(n), appendLog(n), clock(n));
      var responses' := responses + [response];
      assert responses'[..n] == responses;
      forall i | 0 <= i < n
        ensures Remembered(requests[i], responses'[i], cache')
      {
        assert responses'[i] == responses[i];
        RememberedKept(requests[i], responses[i], cache, cache');
      }
      responses, cache := responses', cache';
    }
  }

  // ---- which fields matter ----

  /** Two bodies agree on the three fields the step reads. */
  predicate SameKeyFields(b1: JsValue, b2: JsValue)
  {
    && Field(b1, "destinations") == Field(b2, "destinations")
    && Field(b1, "preferences") == Field(b2, "preferences")
    && Field(b1, "budget") == Field(b2, "budget")
  }

  /**
   * Only destinations, preferences and budget decide the outcome: bodies that
   * differ in `days`, a provider or a model name are treated identically.
   */
  lemma OnlyKeyFieldsMatter(
    b1: JsValue, b2: JsValue, cache: map<string, string>,
    generate: string -> Option<string>, appendLog: string -> bool, now: string)
    requires Destructurable(b1) && Destructurable(b2) && SameKeyFields(b1, b2)
    ensures Handle(Some(b1), cache, generate, appendLog, now) == Handle(Some(b2), cache, generate, appendLog, now)
  {
    assert Validate(b1) == Validate(b2);
    assert Admit(Some(b1)) == Admit(Some(b2));
  }

  /** The key is a plain concatenation: a `-` moved between destinations and preferences gives the same key. */
  lemma KeyCollision(x: string, y: string, z: string, budget: JsValue)
    requires !ToStringThrows(budget)
    ensures CacheKey(Request([Str(x + "-" + y)], z, budget)) == CacheKey(Request([Str(x)], y + "-" + z, budget))
  {
    SingleDestination(x + "-" + y, z, budget);
    SingleDestination(x, y + "-" + z, budget);
    KeyTextsCollide(x, y, z, ToJsString(budget));
  }

  /** With one string destination the key and the prompt hold that string as it is. */
  lemma SingleDestination(x: string, preferences: string, budget: JsValue)
    requires !ToStringThrows(budget)
    ensures Printable(Request([Str(x)], preferences, budget))
    ensures CacheKey(Request([Str(x)], preferences, budget)) == KeyText(x, preferences, ToJsString(budget))
    ensures Prompt(Request([Str(x)], preferences, budget)) == PromptText(x, preferences, ToJsString(budget))
  {
    JoinSingle(Str(x), ",");
    JoinSingle(Str(x), ", ");
  }

  lemma KeyTextsCollide(x: string, y: string, z: string, budget: string)
    ensures KeyText(x + "-" + y, z, budget) == KeyText(x, y + "-" + z, budget)
  {
    assert x + "-" + y + "-" + z + "-" + budget == x + "-" + (y + "-" + z) + "-" + budget;
  }

  /** So two different requests share one cache key although their prompts differ. */
  lemma CollidingRequestsDiffer(x: string, y: string, z: string, budget: JsValue)
    requires !ToStringThrows(budget)
    ensures var r1, r2 := Request([Str(x + "-" + y)], z, budget), Request([Str(x)], y + "-" + z, budget);
      CacheKey(r1) == CacheKey(r2) && Prompt(r1) != Prompt(r2)
  {
    KeyCollision(x, y, z, budget);
    SingleDestination(x + "-" + y, z, budget);
    SingleDestination(x, y + "-" + z, budget);
    PromptTextsDiffer(x, y, z, ToJsString(budget));
  }

  /**
   * Concretely: once the first of two such bodies has been answered 200, the
   * second is answered from the cache with the first one's text, and its own
   * prompt is never sent.
   */
  lemma CollidingRequestsShareAnswer(
    b1: JsValue, b2: JsValue, x: string, y: string, z: string, cache: map<string, string>,
    generate1: string -> Option<string>, appendLog1: string -> bool, now1: string,
    generate2: string -> Option<string>, appendLog2: string -> bool, now2: string)
    requires Destructurable(b1) && Destructurable(b2)
    requires Field(b1, "destinations") == Arr([Str(x + "-" + y)]) && Field(b1, "preferences") == Str(z)
    requires Field(b2, "destinations") == Arr([Str(x)]) && Field(b2, "preferences") == Str(y + "-" + z)
    requires Field(b2, "budget") == Field(b1, "budget")
    requires Handle(Some(b1), cache, generate1, appendLog1, now1).response.status == 200
    ensures var o1 := Handle(Some(b1), cache, generate1, appendLog1, now1);
      var o2 := Handle(Some(b2), o1.cache, generate2, appendLog2, now2);
      && o2.response == Response(200, ItineraryPayload(o1.response.payload.itinerary, FromCache))
      && o2.cache == o1.cache
      && o2.prompt == None
  {
    var o1 := Handle(Some(b1), cache, generate1, appendLog1, now1);
    var budget := Field(b1, "budget");
    CollidingBodies(b1, b2, x, y, z);
    KeyCollision(x, y, z, budget);
    SingleDestination(x, y + "-" + z, budget);
    CacheHit(b2, o1.cache, generate2, appendLog2, now2);
  }

  /** The second body passes validation whenever the first does, and both carry the same budget. */
  lemma CollidingBodies(b1: JsValue, b2: JsValue, x: string, y: string, z: string)
    requires Valid(b1) && Destructurable(b2)
    requires Field(b1, "destinations") == Arr([Str(x + "-" + y)]) && Field(b1, "preferences") == Str(z)
    requires Field(b2, "destinations") == Arr([Str(x)]) && Field(b2, "preferences") == Str(y + "-" + z)
    requires Field(b2, "budget") == Field(b1, "budget")
    ensures Valid(b2) && !ToStringThrows(Field(b1, "budget"))
    ensures RequestOf(b1) == Request([Str(x + "-" + y)], z, Field(b1, "budget"))
    ensures RequestOf(b2) == Request([Str(x)], y + "-" + z, Field(b1, "budget"))
  {
    assert RulePasses(2, b1);
    assert (y + "-" + z)[|y|] == '-';
    assert RulePasses(0, b2) && RulePasses(1, b2) && RulePasses(2, b2);
  }

  /** Moving a `-` across the end of the destinations changes the character right after them in the prompt. */
  lemma PromptTextsDiffer(x: string, y: string, z: string, budget: string)
    ensures PromptText(x + "-" + y, z, budget) != PromptText(x, y + "-" + z, budget)
  {
    var p1, p2 := PromptText(x + "-" + y, z, budget), PromptText(x, y + "-" + z, budget);
    PromptTextMentions(x + "-" + y, z, budget);
    PromptTextAfterDestinations(x, y + "-" + z, budget);
    var n := |PromptOpening| + |x|;
    assert p1[n] == (x + "-" + y)[|x|] == '-';
    assert p2[n] == '.';
  }

  // ---- the texts ----

  /** The prompt names the destinations `', '`-joined in order, the preferences and the budget after a `$`. */
  lemma PromptMentions(req: Request)
    requires Printable(req)
    ensures Strings.OccursAt(JoinValues(req.destinations, ", "), Prompt(req), |PromptOpening|)
    ensures Strings.IsInfix(req.preferences, Prompt(req))
    ensures Strings.IsInfix("$" + ToJsString(req.budget), Prompt(req))
  {
    PromptTextMentions(JoinValues(req.destinations, ", "), req.preferences, ToJsString(req.budget));
  }

  lemma PromptTextMentions(destinations: string, preferences: string, budget: string)
    ensures Strings.OccursAt(destinations, PromptText(destinations, preferences, budget), |PromptOpening|)
    ensures Strings.IsInfix(preferences, PromptText(destinations, preferences, budget))
    ensures Strings.IsInfix("$" + budget, PromptText(destinations, preferences, budget))
  {
    var parts := PromptParts(destinations, preferences, budget);
    Strings.PartOccurs(parts, 1);
    assert parts[..1] == [PromptOpening];
    Strings.ConcatPair(PromptOpening, "");
    Strings.PartOccurs(parts, 3);
    Strings.PartOccurs(parts, 5);
  }

  /** Right after the destinations the prompt goes on with `. `. */
  lemma PromptAfterDestinations(req: Request)
    requires Printable(req)
    ensures var n := |PromptOpening| + |JoinValues(req.destinations, ", ")|;
      n < |Prompt(req)| && Prompt(req)[n] == '.'
  {
    PromptTextAfterDestinations(JoinValues(req.destinations, ", "), req.preferences, ToJsString(req.budget));
  }

  lemma PromptTextAfterDestinations(destinations: string, preferences: string, budget: string)
    ensures var r, n := PromptText(destinations, preferences, budget), |PromptOpening| + |destinations|;
      n < |r| && r[n] == '.'
  {
    var parts := PromptParts(destinations, preferences, budget);
    Strings.PartOccurs(parts, 2);
    assert parts[..2] == [PromptOpening, destinations];
    Strings.ConcatPair(PromptOpening, destinations);
  }

  /** The log entry ends with the itinerary verbatim followed by the separator line. */
  lemma LogEntryEnds(timestamp: string, req: Request, itinerary: string)
    requires Printable(req)
    ensures var e := LogEntry(timestamp, req, itinerary);
      var tail := itinerary + "\n" + Separator + "\n";
      |tail| <= |e| && e[|e| - |tail|..] == tail
  {
    LogTextEnds(timestamp, JoinValues(req.destinations, ", "), req.preferences, ToJsString(req.budget), itinerary);
  }

  lemma LogTextEnds(timestamp: string, destinations: string, preferences: string, budget: string, itinerary: string)
    ensures var e := LogText(timestamp, destinations, preferences, budget, itinerary);
      var tail := itinerary + "\n" + Separator + "\n";
      |tail| <= |e| && e[|e| - |tail|..] == tail
  {
    var parts := LogEntryParts(timestamp, destinations, preferences, budget, itinerary);
    Strings.EndsWithLastTwo(parts);
    assert parts[9] + parts[10] == itinerary + "\n" + Separator + "\n";
  }

  /** The log entry names the destinations `', '`-joined, the preferences and the budget after a `$`. */
  lemma LogEntryMentions(timestamp: string, req: Request, itinerary: string)
    requires Printable(req)
    ensures Strings.IsInfix(JoinValues(req.destinations, ", "), LogEntry(timestamp, req, itinerary))
    ensures Strings.IsInfix(req.preferences, LogEntry(timestamp, req, itinerary))
    ensures Strings.IsInfix("$" + ToJsString(req.budget), LogEntry(timestamp, req, itinerary))
  {
    LogTextMentions(timestamp, JoinValues(req.destinations, ", "), req.preferences, ToJsString(req.budget), itinerary);
  }

  lemma LogTextMentions(timestamp: string, destinations: string, preferences: string, budget: string, itinerary: string)
    ensures var e := LogText(timestamp, destinations, preferences, budget, itinerary);
      Strings.IsInfix(destinations, e) && Strings.IsInfix(preferences, e) && Strings.IsInfix("$" + budget, e)
  {
    var parts := LogEntryParts(timestamp, destinations, preferences, budget, itinerary);
    Strings.PartOccurs(parts, 3);
    Strings.PartOccurs(parts, 5);
    Strings.PartOccurs(parts, 7);
  }
}
