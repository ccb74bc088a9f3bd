# Travel itinerary optimizer: a Dafny model of the request pipeline

The server takes a JSON request naming destinations, preferences and a budget,
validates it, looks it up in an in-memory cache, and otherwise asks a text
generator for a day-by-day itinerary, caches it, appends a record to
`travels.log` and answers with it. This project models the decision-making of
that pipeline as pure Dafny functions and proves what it promises:

- `validate_input.dfy` (`ValidateInput`): the four-field validator of
  `utils/validateInput.js`, with its ordered checks and messages.
- `app.dfy` (`App`): the three-field validator `app.js` defines and uses, the
  cache key, the prompt, the `travels.log` record, and `handleOptimizeItinerary`
  as a step `Handle(parsed, cache, generate, appendLog, now)` returning the
  response, the new cache, the prompt sent (if any) and the record written (if
  any).
- `app_properties.dfy` (`AppProperties`): each branch of the step, logging
  failures being swallowed, idempotence of a repeated request, which request
  fields matter, a run of requests against a cache that starts empty, and what
  the texts contain.
- `validator_variants.dfy` (`ValidatorVariants`): where the two validators
  disagree and where they agree.
- `logger.dfy` (`Logger`): the pure parts of `logItinerary` in
  `utils/logger.js`, namely the sanitised destinations, the rewritten
  timestamp, the file name and the markdown text.
- `js_values.dfy`, `decimals.dfy`, `strings.dfy`, `options.dfy`: the
  JavaScript semantics the code leans on. These are JSON values, truthiness,
  `String(x)`, `Number(x)`, `Array.prototype.join`, `String.prototype.trim`
  with the ECMAScript white-space set, and exact decimal numbers with their
  printing and parsing.

The generator (`generateText`, `app.js:18-58`) is a parameter
`generate: string -> Option<string>`; `None` stands for a rejected promise.
Appending to `travels.log` is a parameter `appendLog: string -> bool`; `false`
stands for a failed append. Over a run of requests (`AppProperties.Serve`) both
are indexed by the request's position, so the generator may answer the same
prompt differently each time. The clock is a timestamp string passed in.
`JSON.parse` is modelled by its result: `None` for text that is not JSON,
`Some(v)` otherwise.

Conversions can throw. Destructuring `null` throws. So does `String(x)` or
`Number(x)` of a parsed object with its own `toString` field, and of an array
holding one at any depth. A JSON value is never a function, so that field is
not callable, and the inherited `valueOf` returns the object itself.
`JsValues.ToStringThrows` names these values. Each validator returns a
`Completion` (`Normal` or `Throw`). The handler turns a throw in validation,
in the cache key or in the prompt into its 500 answer.

Behaviour of the code worth noting:

- `app.js` calls its own three-field `validateInput` (61-73), not the one in
  `utils/validateInput.js`.
- That later validator lets white-space-only preferences through; only the
  `app.js` one trims them.
- `days` is never checked for being an integer: 1.5 passes.
- The prompt built in `app.js` names no day count.
- A budget such as `{"toString": 1}` makes both validators throw, not reject:
  the answer is 500, not 400.
- The cache key is `destinations.join(',')-preferences-budget`. It is not
  injective: `AppProperties.CollidingRequestsDiffer` shows two requests with
  different prompts that share one entry, and
  `AppProperties.CollidingRequestsShareAnswer` that the second is answered
  with the text generated for the first.

## Model

| member | source | states |
|---|---|---|
| ValidateInput.Validate | utils/validateInput.js:1-16 | The result is a normal null exactly when the body can be destructured and all four rules hold. It is rule k's message exactly when rule k is the first rule, in the order destinations, preferences, budget, days, that the body breaks. It throws exactly when the body is `null`/`undefined` or `Number(budget)` or `Number(days)` throws once the earlier rules pass. |
| ValidateInput.RulesMatchChecks | utils/validateInput.js:3-13 | Each check as written (falsiness, `Array.isArray`, `typeof`, `isNaN(Number(..))`, `< 1`) rejects exactly when the plain rule for that field fails, and the budget and days checks throw exactly when their conversion throws. |
| ValidateInput.BudgetRule | utils/validateInput.js:9 | A budget passes exactly when it is a non-zero number, `true`, or a non-empty string or array that reads as a number; so `0`, `""`, `null` and `false` fail. |
| ValidateInput.DaysRule | utils/validateInput.js:12 | `!days` adds nothing to the days check: it fails exactly when `Number(days)` is NaN or below one. |
| ValidateInput.NullishBodyThrows | utils/validateInput.js:2 | Destructuring a `null` or `undefined` body throws. |
| ValidateInput.MessagesDistinct | utils/validateInput.js:4-13 | The four messages are pairwise different, so a message identifies the rule that failed. |
| ValidateInput.MissingDestinations | utils/validateInput.js:3-4 | Missing, non-array or empty destinations yield the destinations message, whatever the other fields hold. |
| ValidateInput.BlankPreferencesPass | utils/validateInput.js:6-7 | A white-space-only preferences string is truthy and is reported neither as missing preferences nor as missing destinations. |
| ValidateInput.ZeroBudgetRejected | utils/validateInput.js:9-10 | A budget equal to zero yields the budget message once destinations and preferences pass. |
| ValidateInput.UnconvertibleBudgetThrows | utils/validateInput.js:9 | A budget object with its own `toString` field makes `Number(budget)` throw once destinations and preferences pass. |
| ValidateInput.FractionalDaysAccepted | utils/validateInput.js:12-14 | `days` of 1.5 passes: there is no integer check. |
| ValidateInput.SmallDaysRejected | utils/validateInput.js:12-13 | Days that read as a number below one yield the days message once the first three rules pass. |
| App.Validate | app.js:61-73 | The result is a normal null exactly when the body can be destructured, destinations is a non-empty array, preferences a string that is not blank and `Number(budget)` not NaN. It is the message of the first of these that fails. It throws exactly when the body is `null`/`undefined` or `Number(budget)` throws after the first two pass. |
| App.RulesMatchChecks | app.js:63-70 | Each check as written rejects exactly when its rule fails, and the budget check throws exactly when `Number(budget)` does; `preferences.trim() === ''` is exactly "blank". |
| App.MessagesDistinct | app.js:64-70 | The three messages are pairwise different. |
| App.RequestOf | app.js:111 | A validated body yields a non-empty destinations list, a non-blank preferences string and a budget that reads as a number, each taken from the body's own field. |
| App.CacheKey | app.js:112 | The key is the comma-joined destinations and a `-`, then the preferences, then `-` and the budget's string: its length is the sum of theirs plus two and each piece stands at its place. |
| App.Prompt | app.js:123-130 | The prompt opens with the fixed sentence asking for a day-by-day itinerary. |
| App.LogEntry | app.js:77-85 | The `travels.log` record opens with a line break, `Date: ` and the timestamp. |
| App.AddEntry | app.js:135 | Storing under a new key adds exactly one entry and keeps every other one. |
| App.Admit | app.js:103-109 | A request is admitted exactly when it parsed and passes validation. A validation failure is a 400 carrying the validator's message. Unparsable text or a validator that throws is a 500 `Internal server error`. |
| App.Answer | app.js:112-146 | Destinations or a budget that cannot be converted to a string make the key throw: 500, nothing else. A hit answers exactly the stored text from the cache. A miss sends the request's prompt; the answer is generated exactly when the generator succeeds, and then carries its text and adds it under the key, one new entry; otherwise it is a bare 500. Old entries are kept, and a record is only written for a generated answer. |
| App.Generate | app.js:123-141 | A miss sends the request's prompt. A generator failure is a 500 with the cache unchanged. A success is a 200 with the text marked generated, the cache gains exactly key ↦ text, and any record written is the one for this request and text. |
| App.Handle | app.js:101-147 | The status is 200, 400 or 500; a 200 carries an itinerary and a 500 the internal-error message. The cache changes only by one new entry on a generation, and only a generation is logged. After a 200 the request's key holds the answered text. |
| AppProperties.UnparsableBody | app.js:103 | Text that is not JSON is answered 500 `Internal server error`. Nothing is generated, cached or logged. |
| AppProperties.NullBody | app.js:62 | A `null` body throws while being destructured and is answered 500. Nothing else happens. |
| AppProperties.ValidationFailure | app.js:104-108 | A body breaking rule k first is answered 400 with rule k's message. The generator is not called, the cache is unchanged and nothing is logged. |
| AppProperties.ValidationThrows | app.js:69 | A body whose `Number(budget)` throws once destinations and preferences pass is answered 500. Nothing is generated, cached or logged. |
| AppProperties.UnprintableDestinations | app.js:112 | A valid body whose destinations hold an object with its own `toString` makes the key throw: 500, before the cache is read or the generator called. |
| AppProperties.CacheHit | app.js:115-119 | A valid request whose key is cached is answered 200 with the stored text and source `cache`. The generator is not called and the cache is unchanged. |
| AppProperties.CacheMiss | app.js:123-141 | On a miss the generator gets the prompt of the request. If it succeeds, the answer is 200 with that text and source `generated`, and the cache becomes the old one with key ↦ text added. |
| AppProperties.GenerationFailure | app.js:132-145 | A generator failure is answered 500 with the cache unchanged, because the store comes after the call. |
| AppProperties.LogFailureSwallowed | app.js:87-92 | Whether the log append succeeds changes neither the response, the cache nor the prompt sent. |
| AppProperties.GeneratedIsLogged | app.js:137-138 | After a successful generation, the record for that request and text is written whenever the append succeeds. |
| AppProperties.RepeatHitsCache | app.js:112-135 | After a request was answered 200, the same request is answered 200 from the cache with the same text. The generator is not called, whatever it would now return. |
| AppProperties.Serve | app.js:15 | Over a run of requests against a cache that starts empty, every status is 200, 400 or 500. The cache size is the number of generated answers, and every request answered 200 finds its text under its key at the end. |
| AppProperties.OnlyKeyFieldsMatter | app.js:111-112 | Two bodies agreeing on destinations, preferences and budget get the same outcome, whatever other fields (days, a provider) they carry. |
| AppProperties.KeyCollision | app.js:112 | Moving a `-` between the destination and the preferences gives the same cache key. |
| AppProperties.CollidingRequestsDiffer | app.js:112-124 | Such requests share one cache key although their prompts differ. |
| AppProperties.CollidingRequestsShareAnswer | app.js:111-119 | Once the first of two such bodies is answered 200, the second is answered 200 from the cache with the first one's text; its own prompt is never sent and the cache is unchanged. |
| AppProperties.PromptMentions | app.js:123-124 | The prompt holds the `', '`-joined destinations right after its opening sentence. It also contains the preferences and `$` followed by the budget. |
| AppProperties.PromptAfterDestinations | app.js:123 | The joined destinations in the prompt are followed by `.`. |
| AppProperties.LogEntryEnds | app.js:83-85 | The `travels.log` record ends with the itinerary verbatim, then the dashed separator line. |
| AppProperties.LogEntryMentions | app.js:79-81 | The record contains the `', '`-joined destinations, the preferences and `$` followed by the budget. |
| ValidatorVariants.BlankPreferencesDiffer | app.js:66-67 | White-space-only preferences are rejected by the `app.js` validator but pass the preferences check of `utils/validateInput.js`. |
| ValidatorVariants.ZeroBudgetDiffers | utils/validateInput.js:9-10 | A zero budget is accepted by the `app.js` validator and rejected with the budget message by `utils/validateInput.js`. |
| ValidatorVariants.UnconvertibleBudgetThrowsInBoth | utils/validateInput.js:9 | A budget that cannot be converted makes both validators throw once destinations and non-blank preferences pass. |
| ValidatorVariants.MissingDaysDiffers | utils/validateInput.js:12-13 | A body the `app.js` validator accepts, without `days`, is rejected with the days message by `utils/validateInput.js` when its budget passes there. |
| ValidatorVariants.EarlierIgnoresOtherFields | app.js:62 | The `app.js` verdict depends only on destinations, preferences and budget. |
| ValidatorVariants.EarlierRulesCarryOver | app.js:63-68 | What the `app.js` validator accepts passes the destinations and preferences checks of `utils/validateInput.js`. |
| ValidatorVariants.LaterBudgetIsNumber | utils/validateInput.js:9 | A budget `utils/validateInput.js` accepts is not NaN, so `app.js` accepts it too. |
| ValidatorVariants.AcceptedByEarlier | app.js:61-73 | Given the `app.js` validator accepts a body, `utils/validateInput.js` accepts it exactly when its budget and days rules hold. |
| ValidatorVariants.AcceptedByLater | utils/validateInput.js:1-16 | Given `utils/validateInput.js` accepts a body, `app.js` accepts it exactly when the preferences are not blank. |
| Logger.SafeDest | utils/logger.js:7 | The sanitised destinations contain only `[A-Za-z0-9_]` and are no longer than the `_`-joined list. |
| Logger.SafeDestKeepsSafeChars | utils/logger.js:7 | The sanitised destinations are a subsequence of the `_`-joined list. Every safe character occurs as often as there, and every other character not at all. |
| Logger.SafeDestIdempotent | utils/logger.js:7 | Sanitising again changes nothing. |
| Logger.SafeNamesKept | utils/logger.js:7 | Two names made of safe characters come through as `a_b`. |
| Logger.RewriteTimestamp | utils/logger.js:8 | The rewritten timestamp has the input's length and contains no `:` or `.`. Each of those became `-`, and every other character is unchanged. |
| Logger.Filename | utils/logger.js:9-10 | The file name contains a `/` exactly when the timestamp does, so with an ISO timestamp it stays in the logs directory. It ends in `.md`, and that is its only `.`. |
| Logger.Content | utils/logger.js:11 | The markdown opens with the `# Travel Itinerary` heading and the `**Date:**` label, followed by the local date. |
| Logger.LogItinerary | utils/logger.js:7-11 | `logItinerary` throws exactly when `destinations` is not an array or the destinations, the preferences or the budget cannot be converted to a string. Otherwise the file name holds a `/` exactly when the timestamp does and its only `.` is that of `.md`; the text opens with the heading and the local date, contains the `', '`-joined destinations, the preferences and `$` followed by the budget, and ends with the `---` rule and the itinerary. |
| Logger.SafeNamesFile | utils/logger.js:7-9 | Two destination names of safe characters give the file `itinerary_a_b_<rewritten timestamp>.md`. |
| Logger.ContentMentions | utils/logger.js:11 | The markdown contains the `', '`-joined destinations, the preferences and `$` followed by the budget. |
| Logger.ContentEnds | utils/logger.js:11 | The markdown ends with the `---` rule followed by the itinerary verbatim. |
| JsValues.Truthy | utils/validateInput.js:3-12 | A falsy value (`false`, `0`, `""`, `null`, `undefined`) converts without throwing and reads as 0 or NaN. |
| JsValues.ToNumber | app.js:69 | `Number` of `undefined` or of a plain object is NaN; of `null`, a boolean or a number it is finite. |
| JsValues.ToJsString | app.js:112 | A number prints as a non-empty string of digits, `-` and `.`. |
| JsValues.NumberOfString | app.js:112 | A number interpolated into a string reads back as the same number, in normal form. |
| JsValues.ArrayToNumber | app.js:69 | `Number([])` is 0 and `Number([x])` is x. |
| Decimals.PrintParse | app.js:112 | Parsing the printed form of a number gives back that number in normal form. |
| Strings.Trim | app.js:66 | `s.trim()` is empty exactly when every character of `s` is ECMAScript white space; otherwise neither its first nor its last character is white space. |

## Left out

- The HTTP server, routing, CORS headers, body streaming and response writing (`app.js:151-194`): plumbing around the step.
- `generateText` (`app.js:18-58`): an outbound HTTP client, represented by the `generate` parameter.
- The provider adapters (`ai/*.js`) and any choice between providers: `app.js` calls one generator, and the adapters are not part of this model.
- The file-system effects of both `logItinerary` functions (`app.js:88`, `utils/logger.js:5-6, 10, 12-13`): only the strings they write are modelled.
- Console output (`app.js:89-91, 143`, `utils/logger.js:13`): it has no effect on the outcome.
- Concurrent requests against the shared cache: requests are handled one after another.
- `new Date().toISOString()` and `toLocaleString()`: timestamps are parameters.
- IEEE-754 doubles: numbers are exact decimals, so rounding and very large or small magnitudes are not modelled.
- JsValues.StringToNumber: only decimal literals are read as numbers. Exponent forms (`1e3`), hexadecimal, binary and octal literals, and `Infinity` read as NaN here, although JavaScript reads them as numbers.
- JsValues.ToJsString: numbers print in plain decimal form; JavaScript's exponent form for very large or small magnitudes is not modelled.
- App.CacheKey, App.Prompt, App.LogEntry: defined only for requests whose destinations and budget convert to strings; the throw itself is modelled by App.Answer, which answers 500.
- Logger.SafeDest, Logger.Filename, Logger.Content: defined only where the conversions return; the throw is modelled by Logger.LogItinerary.
- JsValues.ToJsString: its contract states only the shape of a printed number; that it reads back as the same number is stated by JsValues.NumberOfString.
- JsValues.ToStringThrows: values that are not JSON (a callable `toString`, a custom `valueOf`, getters, prototypes) are outside the model; for JSON values an own `toString` field always throws.
- A `parsedData.response` that is not a string (`app.js:44`): the generator returns a string or fails.
