/**
 * The request pipeline of app.js with the sockets removed: the earlier
 * three-field `validateInput`, the cache key, the prompt, the log entry and
 * `handleOptimizeItinerary` as one step over an explicit cache.
 *
 * Text generation (`generateText`) and appending to `travels.log` are
 * parameters: `generate` answers `None` when the outbound call rejects, and
 * `appendLog` answers whether the append succeeded. `JSON.parse` is the
 * caller's: the step receives `None` when the body text is not JSON.
 */
module App {
  import opened Options
  import opened Decimals
  import opened JsValues
  import Strings

  // ---- validateInput (the earlier, three-field variant) ----

  const DestinationsMessage := "At least one destination is required"
  const PreferencesMessage := "Preferences are required"
  const BudgetMessage := "Budget must be a number"

  const RuleCount := 3

  /** Rule `k` of the body holds: 0 destinations, 1 preferences, 2 budget. */
  predicate RulePasses(k: nat, body: JsValue)
  {
    if k == 0 then Field(body, "destinations").Arr? && |Field(body, "destinations").elems| > 0
    else if k == 1 then Field(body, "preferences").Str? && !Strings.IsBlank(Field(body, "preferences").s)
    else !ToStringThrows(Field(body, "budget")) && !IsNaN(Field(body, "budget"))
  }

  /** Check `k` throws once reached: only the budget check converts its field. */
  predicate RuleThrows(k: nat, body: JsValue)
  {
    k == 2 && ToStringThrows(Field(body, "budget"))
  }

  function RuleMessage(k: nat): string
  {
    if k == 0 then DestinationsMessage
    else if k == 1 then PreferencesMessage
    else BudgetMessage
  }

  /** Rule `k` is the first rule the body breaks, and its check returns. */
  predicate FirstFailing(body: JsValue, k: nat)
  {
    k < RuleCount && !RulePasses(k, body) && !RuleThrows(k, body)
    && forall j | 0 <= j < k :: RulePasses(j, body)
  }

  /** Check `k` is reached and throws. */
  predicate FirstThrowing(body: JsValue, k: nat)
  {
    k < RuleCount && RuleThrows(k, body) && forall j | 0 <= j < k :: RulePasses(j, body)
  }

  /**
   * `validateInput(body)` of app.js: `Throw` when destructuring `null` or
   * `undefined`, or `Number(budget)`, throws.
   */
  function Validate(body: JsValue): (r: Completion<Option<string>>)
    ensures r == Normal(None) <==>
      Destructurable(body) && forall k | 0 <= k < RuleCount :: RulePasses(k, body)
    ensures forall k | 0 <= k < RuleCount ::
      r == Normal(Some(RuleMessage(k))) <==> Destructurable(body) && FirstFailing(body, k)
    ensures r == Throw <==> !Destructurable(body) || FirstThrowing(body, 2)
  {
    ChecksFollowRules(body);
    ChecksInOrder(body)
  }

  /** The checks of `validateInput` in source order. */
  function ChecksInOrder(body: JsValue): Completion<Option<string>>
  {
    var destinations, preferences := Field(body, "destinations"), Field(body, "preferences");
    var budget := Field(body, "budget");
    if !Destructurable(body) then Throw
    else if !destinations.Arr? || |destinations.elems| == 0 then Normal(Some(DestinationsMessage))
    else if !preferences.Str? || Strings.Trim(preferences.s) == "" then Normal(Some(PreferencesMessage))
    else if ToStringThrows(budget) then Throw
    else if IsNaN(budget) then Normal(Some(BudgetMessage))
    else Normal(None)
  }

  lemma ChecksFollowRules(body: JsValue)
    ensures var r := ChecksInOrder(body);
      && (r == Normal(None) <==> Destructurable(body) && forall k | 0 <= k < RuleCount :: RulePasses(k, body))
      && (forall k | 0 <= k < RuleCount ::
            r == Normal(Some(RuleMessage(k))) <==> Destructurable(body) && FirstFailing(body, k))
      && (r == Throw <==> !Destructurable(body) || FirstThrowing(body, 2))
  {
    RulesMatchChecks(body);
    MessagesDistinct();
    var r := ChecksInOrder(body);
    forall k | 0 <= k < RuleCount
      ensures r == Normal(Some(RuleMessage(k))) <==> Destructurable(body) && FirstFailing(body, k)
    {
      if k == 0 {
      } else if k == 1 {
      } else {
        assert k == 2;
      }
    }
  }

  lemma MessagesDistinct()
    ensures forall j, k | 0 <= j < k < RuleCount :: RuleMessage(j) != RuleMessage(k)
  {
    assert |DestinationsMessage| == 36 && |PreferencesMessage| == 24 && |BudgetMessage| == 23;
  }

  /** Each check as written rejects exactly when its rule fails, and the budget check throws exactly when its rule throws. */
  lemma RulesMatchChecks(body: JsValue)
    ensures var d := Field(body, "destinations"); (!d.Arr? || |d.elems| == 0) <==> !RulePasses(0, body)
    ensures var p := Field(body, "preferences"); (!p.Str? || Strings.Trim(p.s) == "") <==> !RulePasses(1, body)
    ensures ToStringThrows(Field(body, "budget")) <==> RuleThrows(2, body)
    ensures !RuleThrows(2, body) ==> (IsNaN(Field(body, "budget")) <==> !RulePasses(2, body))
    ensures !RuleThrows(0, body) && !RuleThrows(1, body)
    ensures RulePasses(2, body) ==> !RuleThrows(2, body)
    ensures (forall k | 0 <= k < RuleCount :: RulePasses(k, body)) <==>
      RulePasses(0, body) && RulePasses(1, body) && RulePasses(2, body)
    ensures FirstFailing(body, 0) <==> !RulePasses(0, body)
    ensures FirstFailing(body, 1) <==> RulePasses(0, body) && !RulePasses(1, body)
    ensures FirstFailing(body, 2) <==>
      RulePasses(0, body) && RulePasses(1, body) && !RulePasses(2, body) && !RuleThrows(2, body)
    ensures FirstThrowing(body, 2) <==> RulePasses(0, body) && RulePasses(1, body) && RuleThrows(2, body)
  {
  }

  /** The body gets past validation. */
  predicate Valid(body: JsValue)
  {
    Validate(body) == Normal(None)
  }

  /** The three fields of a validated body that the rest of the step reads. */
  datatype Request = Request(destinations: seq<JsValue>, preferences: string, budget: JsValue)

  function RequestOf(body: JsValue): (r: Request)
    requires Valid(body)
    ensures Arr(r.destinations) == Field(body, "destinations") && |r.destinations| > 0
    ensures Str(r.preferences) == Field(body, "preferences") && !Strings.IsBlank(r.preferences)
    ensures r.budget == Field(body, "budget") && !ToStringThrows(r.budget) && !IsNaN(r.budget)
  {
    assert RulePasses(0, body) && RulePasses(1, body) && RulePasses(2, body);
    Request(Field(body, "destinations").elems, Field(body, "preferences").s, Field(body, "budget"))
  }

  /**
   * The template literals of the key, the prompt and the log entry evaluate:
   * neither `destinations.join` nor `${budget}` throws.
   */
  predicate Printable(req: Request)
  {
    !ToStringThrows(Arr(req.destinations)) && !ToStringThrows(req.budget)
  }

  // ---- cache key, prompt and log entry ----

  /**
   * `${destinations.join(',')}-${preferences}-${budget}`: the comma-joined
   * destinations and a dash, then the preferences, then a dash and the budget.
   */
  function CacheKey(req: Request): (r: string)
    requires Printable(req)
    ensures var j, b := JoinValues(req.destinations, ","), ToJsString(req.budget);
      && |r| == |j| + |req.preferences| + |b| + 2
      && Strings.OccursAt(j + "-", r, 0)
      && Strings.OccursAt(req.preferences, r, |j| + 1)
      && Strings.OccursAt("-" + b, r, |r| - |b| - 1)
  {
    KeyText(JoinValues(req.destinations, ","), req.preferences, ToJsString(req.budget))
  }

  /** The key's template literal over its already converted interpolations. */
  function KeyText(destinations: string, preferences: string, budget: string): (r: string)
    ensures |r| == |destinations| + |preferences| + |budget| + 2
    ensures Strings.OccursAt(destinations + "-", r, 0)
    ensures Strings.OccursAt(preferences, r, |destinations| + 1)
    ensures Strings.OccursAt("-" + budget, r, |r| - |budget| - 1)
  {
    var opening, closing := destinations + "-", "-" + budget;
    var r := opening + preferences + closing;
    assert r[..|opening|] == opening;
    assert r[|opening|..|opening| + |preferences|] == preferences;
    assert r[|r| - |closing|..] == closing;
    r
  }

  /** The line break and twelve-space indentation inside the prompt's template literal. */
  const Indent := "\n            "

  const PromptOpening := "Create a detailed, day-by-day travel itinerary for the following destinations: "

  const PromptClosing :=
    ". " + Indent + "For each day, suggest:"
    + Indent + "1. Places to visit with brief descriptions"
    + Indent + "2. Recommended restaurants or local cuisine to try"
    + Indent + "3. Transportation options between locations"
    + Indent + "4. Estimated costs for activities and transportation"
    + Indent + "Optimize the route to minimize travel time and maximize experiences within the budget."

  /** The pieces of the prompt's template literal, interpolations already converted, in order. */
  function PromptParts(destinations: string, preferences: string, budget: string): seq<string>
  {
    [ PromptOpening, destinations,
      ". " + Indent + "Preferences: ", preferences,
      ". Budget: ", "$" + budget,
      PromptClosing ]
  }

  /** The prompt's template literal over its already converted interpolations. */
  function PromptText(destinations: string, preferences: string, budget: string): (r: string)
    ensures Strings.OccursAt(PromptOpening, r, 0)
  {
    var parts := PromptParts(destinations, preferences, budget);
    Strings.PartOccurs(parts, 0);
    Strings.Concat(parts)
  }

  /** The instruction text sent to the generator: the fixed opening, the request's values, the fixed instructions. */
  function Prompt(req: Request): (r: string)
    requires Printable(req)
    ensures Strings.OccursAt(PromptOpening, r, 0)
  {
    PromptText(JoinValues(req.destinations, ", "), req.preferences, ToJsString(req.budget))
  }

  const Separator := "----------------------------------------"

  /** The pieces of the record `logItinerary` appends, interpolations already converted. */
  function LogEntryParts(
    timestamp: string, destinations: string, preferences: string, budget: string, itinerary: string): seq<string>
  {
    [ "\nDate: ", timestamp,
      "\nDestinations: ", destinations,
      "\nPreferences: ", preferences,
      "\nBudget: ", "$" + budget,
      "\nItinerary:\n", itinerary,
      "\n" + Separator + "\n" ]
  }

  /** The log record's template literal over its already converted interpolations. */
  function LogText(
    timestamp: string, destinations: string, preferences: string, budget: string, itinerary: string): (r: string)
    ensures Strings.OccursAt("\nDate: ", r, 0) && Strings.OccursAt(timestamp, r, 7)
  {
    var parts := LogEntryParts(timestamp, destinations, preferences, budget, itinerary);
    Strings.PartOccurs(parts, 0);
    Strings.PartOccurs(parts, 1);
    assert parts[..1] == ["\nDate: "];
    Strings.ConcatPair("\nDate: ", "");
    Strings.Concat(parts)
  }

  /** The record appended to `travels.log`; `timestamp` is `new Date().toISOString()`. */
  function LogEntry(timestamp: string, req: Request, itinerary: string): (r: string)
    requires Printable(req)
    ensures Strings.OccursAt("\nDate: ", r, 0) && Strings.OccursAt(timestamp, r, 7)
  {
    LogText(timestamp, JoinValues(req.destinations, ", "), req.preferences, ToJsString(req.budget), itinerary)
  }

  // ---- handleOptimizeItinerary ----

  datatype Source = FromCache | Generated

  datatype Payload =
    | ErrorPayload(error: string)
    | ItineraryPayload(itinerary: string, source: Source)

  datatype Response = Response(status: nat, payload: Payload)

  /**
   * What one request leaves behind: the response, the cache afterwards, the
   * prompt sent to the generator if one was, and the log entry written if one was.
   */
  datatype Outcome = Outcome(response: Response, cache: map<string, string>, prompt: Option<string>, logged: Option<string>)

  const InternalError := "Internal server error"

  function ServerError(cache: map<string, string>, prompt: Option<string>): Outcome
  {
    Outcome(Response(500, ErrorPayload(InternalError)), cache, prompt, None)
  }

  /** A response that carries a freshly generated itinerary. */
  predicate IsGenerated(r: Response)
  {
    r.payload.ItineraryPayload? && r.payload.source == Generated
  }

  /** Storing under a new key adds one entry and keeps the others. */
  lemma AddEntry(cache: map<string, string>, key: string, text: string)
    requires key !in cache
    ensures |cache[key := text]| == |cache| + 1
    ensures forall k | k in cache :: k in cache[key := text] && cache[key := text][k] == cache[k]
  {
    assert cache[key := text].Keys == cache.Keys + {key};
  }

  /** How far a request body gets before the cache is consulted. */
  datatype Admission = Rejected(response: Response) | Admitted(req: Request)

  /**
   * `JSON.parse` and `validateInput`: a body that is not JSON, or on which the
   * validator throws, is a 500; an invalid one a 400 with the validator's message.
   */
  function Admit(parsed: Option<JsValue>): (a: Admission)
    ensures a.Admitted? <==> parsed.Some? && Valid(parsed.value)
    ensures a.Admitted? ==> a.req == RequestOf(parsed.value)
    ensures a.Rejected? && a.response.status == 400 <==>
      parsed.Some? && Validate(parsed.value).Normal? && Validate(parsed.value).value.Some?
    ensures a.Rejected? && a.response.status == 400 ==>
      a.response.payload == ErrorPayload(Validate(parsed.value).value.value)
    ensures a.Rejected? && a.response.status != 400 <==>
      parsed.None? || Validate(parsed.value).Throw?
    ensures a.Rejected? && a.response.status != 400 ==>
      a.response == Response(500, ErrorPayload(InternalError))
  {
    match parsed
    case None => Rejected(Response(500, ErrorPayload(InternalError)))
    case Some(body) =>
      match Validate(body)
      case Throw => Rejected(Response(500, ErrorPayload(InternalError)))
      case Normal(Some(message)) => Rejected(Response(400, ErrorPayload(message)))
      case Normal(None) => Admitted(RequestOf(body))
  }

  /**
   * A validated request against the cache. Building the key throws when a
   * destination cannot be converted to a string, which is a 500. Otherwise a
   * hit answers the stored text, and a miss builds the prompt, generates,
   * stores, logs and answers the new text.
   */
  function Answer(
    req: Request, cache: map<string, string>,
    generate: string -> Option<string>, appendLog: string -> bool, now: string): (o: Outcome)
    ensures o.response.status == 200 || o.response == Response(500, ErrorPayload(InternalError))
    ensures !Printable(req) ==> o == ServerError(cache, None)
    ensures Printable(req) && CacheKey(req) in cache ==>
      o == Outcome(Response(200, ItineraryPayload(cache[CacheKey(req)], FromCache)), cache, None, None)
    ensures Printable(req) && CacheKey(req) !in cache ==>
      && o.prompt == Some(Prompt(req))
      && (IsGenerated(o.response) <==> generate(Prompt(req)).Some?)
      && (IsGenerated(o.response) ==> o.response.payload.itinerary == generate(Prompt(req)).value)
    ensures o.response.status == 200 ==> o.response.payload.ItineraryPayload?
    ensures o.response.status == 200 ==>
      Printable(req) && CacheKey(req) in o.cache && o.cache[CacheKey(req)] == o.response.payload.itinerary
    ensures !IsGenerated(o.response) ==> o.cache == cache
    ensures IsGenerated(o.response) ==>
      Printable(req) && CacheKey(req) !in cache && o.cache == cache[CacheKey(req) := o.response.payload.itinerary]
    ensures IsGenerated(o.response) ==> |o.cache| == |cache| + 1
    ensures forall k | k in cache :: k in o.cache && o.cache[k] == cache[k]
    ensures IsGenerated(o.response) <==> o.prompt.Some? && o.response.status == 200
    ensures o.logged.Some? ==>
      IsGenerated(o.response) && o.logged == Some(LogEntry(now, req, o.response.payload.itinerary))
  {
    if !Printable(req) then ServerError(cache, None)
    else
      var key := CacheKey(req);
      if key in cache then
        Outcome(Response(200, ItineraryPayload(cache[key], FromCache)), cache, None, None)
      else
        Generate(req, cache, generate, appendLog, now)
  }

  /** A cache miss: build the prompt, generate, store the text and log the entry. */
  function Generate(
    req: Request, cache: map<string, string>,
    generate: string -> Option<string>, appendLog: string -> bool, now: string): (o: Outcome)
    requires Printable(req) && CacheKey(req) !in cache
    ensures o.prompt == Some(Prompt(req))
    ensures generate(Prompt(req)).None? ==> o == ServerError(cache, Some(Prompt(req)))
    ensures generate(Prompt(req)).Some? ==>
      && o.response == Response(200, ItineraryPayload(generate(Prompt(req)).value, Generated))
      && o.cache == cache[CacheKey(req) := generate(Prompt(req)).value]
      && |o.cache| == |cache| + 1
      && (forall k | k in cache :: k in o.cache && o.cache[k] == cache[k])
      && (o.logged.Some? ==> o.logged == Some(LogEntry(now, req, generate(Prompt(req)).value)))
  {
    var prompt := Prompt(req);
    match generate(prompt)
    case None => ServerError(cache, Some(prompt))
    case Some(text) =>
      var entry := LogEntry(now, req, text);
      AddEntry(cache, CacheKey(req), text);
      Outcome(Response(200, ItineraryPayload(text, Generated)), cache[CacheKey(req) := text], Some(prompt),
              if appendLog(entry) then Some(entry) else None)
  }

  /** One request through `handleOptimizeItinerary`. */
  function Handle(
    parsed: Option<JsValue>, cache: map<string, string>,
    generate: string -> Option<string>, appendLog: string -> bool, now: string): (o: Outcome)
    ensures o.response.status == 200 || o.response.status == 400 || o.response.status == 500
    ensures o.response.status == 200 <==> o.response.payload.ItineraryPayload?
    ensures o.response.status == 500 ==> o.response.payload == ErrorPayload(InternalError)
    ensures !IsGenerated(o.response) ==> o.cache == cache
    ensures forall k | k in cache :: k in o.cache && o.cache[k] == cache[k]
    ensures IsGenerated(o.response) ==> |o.cache| == |cache| + 1
    ensures o.logged.Some? ==> IsGenerated(o.response)
    ensures o.response.status == 200 ==>
      && parsed.Some? && Valid(parsed.value) && Printable(RequestOf(parsed.value))
      && CacheKey(RequestOf(parsed.value)) in o.cache
      && o.cache[CacheKey(RequestOf(parsed.value))] == o.response.payload.itinerary
  {
    match Admit(parsed)
    case Rejected(response) => Outcome(response, cache, None, None)
    case Admitted(req) => Answer(req, cache, generate, appendLog, now)
  }
}
