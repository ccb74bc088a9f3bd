/**
 * `validateInput` of utils/validateInput.js: four checks over the request
 * body, run in the order destinations, preferences, budget, days; the first
 * failing check's message is the result and `null` means the body passed.
 * Destructuring `null` or `undefined` throws, and so does `Number(x)` of a
 * value that cannot be converted (see `ToStringThrows`).
 *
 * The checks are written as the source writes them, with JavaScript
 * truthiness and `isNaN(Number(x))`; `RulePasses` and `RuleThrows` restate
 * each one in terms of the value's shape, and the validator's contract
 * relates the two.
 */
module ValidateInput {
  import opened Options
  import opened Decimals
  import opened JsValues
  import Strings

  const DestinationsMessage := "Please provide at least one destination."
  const PreferencesMessage := "Please provide your travel preferences."
  const BudgetMessage := "Please provide a valid budget."
  const DaysMessage := "Please provide a valid number of days."

  // ---- the four checks, as written (true means the check rejects) ----

  /** `!destinations || !Array.isArray(destinations) || destinations.length === 0` */
  predicate DestinationsFail(destinations: JsValue)
  {
    !Truthy(destinations) || !destinations.Arr? || |destinations.elems| == 0
  }

  /** `!preferences || typeof preferences !== 'string'` */
  predicate PreferencesFail(preferences: JsValue)
  {
    !Truthy(preferences) || !preferences.Str?
  }

  /** `Number(x)` is reached, `x` being truthy, and throws. */
  predicate ConversionThrows(x: JsValue)
  {
    Truthy(x) && ToStringThrows(x)
  }

  /** `!budget || isNaN(Number(budget))`, where `Number(budget)` returns. */
  predicate BudgetFail(budget: JsValue)
    requires !ToStringThrows(budget)
  {
    !Truthy(budget) || IsNaN(budget)
  }

  /** `!days || isNaN(Number(days)) || Number(days) < 1`, where `Number(days)` returns. */
  predicate DaysFail(days: JsValue)
    requires !ToStringThrows(days)
  {
    !Truthy(days) || IsNaN(days) || LessThanOne(ToNumber(days).value)
  }

  /** `validateInput(body)`: `Throw` when destructuring or a conversion throws. */
  function Validate(body: JsValue): (r: Completion<Option<string>>)
    ensures r == Normal(None) <==>
      Destructurable(body) && forall k | 0 <= k < RuleCount :: RulePasses(k, body)
    ensures forall k | 0 <= k < RuleCount ::
      r == Normal(Some(RuleMessage(k))) <==> Destructurable(body) && FirstFailing(body, k)
    ensures r == Throw <==>
      !Destructurable(body) || FirstThrowing(body, 2) || FirstThrowing(body, 3)
  {
    ChecksFollowRules(body);
    ChecksInOrder(body)
  }

  /** The checks of `validateInput` in source order. */
  function ChecksInOrder(body: JsValue): Completion<Option<string>>
  {
    var destinations, preferences := Field(body, "destinations"), Field(body, "preferences");
    var budget, days := Field(body, "budget"), Field(body, "days");
    if !Destructurable(body) then Throw
    else if DestinationsFail(destinations) then Normal(Some(DestinationsMessage))
    else if PreferencesFail(preferences) then Normal(Some(PreferencesMessage))
    else if ConversionThrows(budget) then Throw
    else if BudgetFail(budget) then Normal(Some(BudgetMessage))
    else if ConversionThrows(days) then Throw
    else if DaysFail(days) then Normal(Some(DaysMessage))
    else Normal(None)
  }

  // ---- the rules, stated by shape ----

  const RuleCount := 4

  /** A budget passes when it is a number other than zero, `true`, or a non-empty string or an array that reads as a number. */
  predicate BudgetAcceptable(budget: JsValue)
  {
    match budget
    case Num(d) => !IsZero(d)
    case Bool(b) => b
    case Str(s) => s != "" && StringToNumber(s).Finite?
    case Arr(_) => !ToStringThrows(budget) && ToNumber(budget).Finite?
    case _ => false
  }

  /** Rule `k` of the body holds: 0 destinations, 1 preferences, 2 budget, 3 days. */
  predicate RulePasses(k: nat, body: JsValue)
  {
    var v := Field(body, FieldOfRule(k));
    if k == 0 then v.Arr? && |v.elems| > 0
    else if k == 1 then v.Str? && v.s != ""
    else if k == 2 then BudgetAcceptable(v)
    else !ToStringThrows(v) && ToNumber(v).Finite? && !LessThanOne(ToNumber(v).value)
  }

  /** Check `k` throws once reached: the budget and days checks convert their field to a number. */
  predicate RuleThrows(k: nat, body: JsValue)
  {
    (k == 2 || k == 3) && ToStringThrows(Field(body, FieldOfRule(k)))
  }

  function FieldOfRule(k: nat): string
  {
    if k == 0 then "destinations"
    else if k == 1 then "preferences"
    else if k == 2 then "budget"
    else "days"
  }

  function RuleMessage(k: nat): string
  {
    if k == 0 then DestinationsMessage
    else if k == 1 then PreferencesMessage
    else if k == 2 then BudgetMessage
    else DaysMessage
  }

  /** Rule `k` is the first rule the body breaks, and its check returns. */
  predicate FirstFailing(body: JsValue, k: nat)
  {
    k < RuleCount && !RulePasses(k, body) && !RuleThrows(k, body)
    && forall j | 0 <= j < k :: RulePasses(j, body)
  }

  /** Check `k` is reached and throws. */
  predicate FirstThrowing(body: JsValue, k: nat)
  {
    k < RuleCount && RuleThrows(k, body) && forall j | 0 <= j < k :: RulePasses(j, body)
  }

  lemma ChecksFollowRules(body: JsValue)
    ensures var r := ChecksInOrder(body);
      && (r == Normal(None) <==> Destructurable(body) && forall k | 0 <= k < RuleCount :: RulePasses(k, body))
      && (forall k | 0 <= k < RuleCount ::
            r == Normal(Some(RuleMessage(k))) <==> Destructurable(body) && FirstFailing(body, k))
      && (r == Throw <==> !Destructurable(body) || FirstThrowing(body, 2) || FirstThrowing(body, 3))
  {
    RulesMatchChecks(body);
    MessagesDistinct();
    var r := ChecksInOrder(body);
    forall k | 0 <= k < RuleCount
      ensures r == Normal(Some(RuleMessage(k))) <==> Destructurable(body) && FirstFailing(body, k)
    {
      if k == 0 {
      } else if k == 1 {
      } else if k == 2 {
      } else {
        assert k == 3;
      }
    }
  }

  lemma MessagesDistinct()
    ensures forall j, k | 0 <= j < k < RuleCount :: RuleMessage(j) != RuleMessage(k)
  {
    assert |DestinationsMessage| == 40 && |PreferencesMessage| == 39;
    assert |BudgetMessage| == 30 && |DaysMessage| == 38;
  }

  /** Each check as written throws exactly when its rule throws, and otherwise rejects exactly when its rule does not hold. */
  lemma RulesMatchChecks(body: JsValue)
    ensures DestinationsFail(Field(body, "destinations")) <==> !RulePasses(0, body)
    ensures PreferencesFail(Field(body, "preferences")) <==> !RulePasses(1, body)
    ensures ConversionThrows(Field(body, "budget")) <==> RuleThrows(2, body)
    ensures !RuleThrows(2, body) ==> (BudgetFail(Field(body, "budget")) <==> !RulePasses(2, body))
    ensures ConversionThrows(Field(body, "days")) <==> RuleThrows(3, body)
    ensures !RuleThrows(3, body) ==> (DaysFail(Field(body, "days")) <==> !RulePasses(3, body))
    ensures !RuleThrows(0, body) && !RuleThrows(1, body)
    ensures RulePasses(2, body) ==> !RuleThrows(2, body)
    ensures RulePasses(3, body) ==> !RuleThrows(3, body)
    ensures (forall k | 0 <= k < RuleCount :: RulePasses(k, body)) <==>
      RulePasses(0, body) && RulePasses(1, body) && RulePasses(2, body) && RulePasses(3, body)
  {
    ShapeRulesMatch(body);
    BudgetRuleMatches(body);
    DaysRuleMatches(body);
  }

  lemma ShapeRulesMatch(body: JsValue)
    ensures DestinationsFail(Field(body, "destinations")) <==> !RulePasses(0, body)
    ensures PreferencesFail(Field(body, "preferences")) <==> !RulePasses(1, body)
    ensures !RuleThrows(0, body) && !RuleThrows(1, body)
  {
  }

  lemma BudgetRuleMatches(body: JsValue)
    ensures ConversionThrows(Field(body, "budget")) <==> RuleThrows(2, body)
    ensures !RuleThrows(2, body) ==> (BudgetFail(Field(body, "budget")) <==> !RulePasses(2, body))
    ensures RulePasses(2, body) ==> !RuleThrows(2, body)
  {
    var budget := Field(body, "budget");
    if !ToStringThrows(budget) {
      BudgetRule(budget);
    }
  }

  lemma DaysRuleMatches(body: JsValue)
    ensures ConversionThrows(Field(body, "days")) <==> RuleThrows(3, body)
    ensures !RuleThrows(3, body) ==> (DaysFail(Field(body, "days")) <==> !RulePasses(3, body))
    ensures RulePasses(3, body) ==> !RuleThrows(3, body)
  {
    var days := Field(body, "days");
    if !ToStringThrows(days) {
      DaysRule(days);
    }
  }

  /** `!budget` matters: `0`, `null`, `false` and `""` all read as the number 0 and are rejected for being falsy. */
  lemma BudgetRule(budget: JsValue)
    requires !ToStringThrows(budget)
    ensures BudgetFail(budget) <==> !BudgetAcceptable(budget)
  {
  }

  /** `!days` adds nothing: every falsy value reads as a number below one or as NaN. */
  lemma DaysRule(days: JsValue)
    requires !ToStringThrows(days)
    ensures DaysFail(days) <==> !(ToNumber(days).Finite? && !LessThanOne(ToNumber(days).value))
  {
  }

  // ---- the promises of the validator, case by case ----

  /** Destructuring `null` or `undefined` throws before any check runs. */
  lemma NullishBodyThrows(body: JsValue)
    requires body.Null? || body.Undefined?
    ensures Validate(body) == Throw
  {
  }

  /** A missing, non-array or empty `destinations` is reported first, whatever else the body holds. */
  lemma MissingDestinations(body: JsValue)
    requires Destructurable(body)
    requires var d := Field(body, "destinations"); !d.Arr? || d.elems == []
    ensures Validate(body) == Normal(Some(DestinationsMessage))
  {
    assert FirstFailing(body, 0);
  }

  /** A white-space-only preferences string is truthy and passes the preferences check. */
  lemma BlankPreferencesPass(body: JsValue)
    requires Destructurable(body)
    requires RulePasses(0, body)
    requires var p := Field(body, "preferences"); p.Str? && p.s != "" && Strings.IsBlank(p.s)
    ensures Validate(body) != Normal(Some(PreferencesMessage))
    ensures Validate(body) != Normal(Some(DestinationsMessage))
  {
    MessagesDistinct();
  }

  /** A budget of `0` is rejected as invalid even though it is a number. */
  lemma ZeroBudgetRejected(body: JsValue, scale: nat)
    requires Destructurable(body)
    requires RulePasses(0, body) && RulePasses(1, body)
    requires Field(body, "budget") == Num(Decimal(0, scale))
    ensures Validate(body) == Normal(Some(BudgetMessage))
  {
    assert FirstFailing(body, 2);
  }

  /** A budget object with its own `toString` field makes `Number(budget)` throw. */
  lemma UnconvertibleBudgetThrows(body: JsValue, fields: map<string, JsValue>)
    requires Destructurable(body)
    requires RulePasses(0, body) && RulePasses(1, body)
    requires Field(body, "budget") == Obj(fields) && "toString" in fields
    ensures Validate(body) == Throw
  {
    assert FirstThrowing(body, 2);
  }

  /** There is no integer check on `days`: 1.5 days is accepted. */
  lemma FractionalDaysAccepted(body: JsValue)
    requires Destructurable(body)
    requires RulePasses(0, body) && RulePasses(1, body) && RulePasses(2, body)
    requires Field(body, "days") == Num(Decimal(15, 1))
    ensures Validate(body) == Normal(None)
  {
  }

  /** Days below one are rejected, however they are written. */
  lemma SmallDaysRejected(body: JsValue, d: Decimal)
    requires Destructurable(body)
    requires RulePasses(0, body) && RulePasses(1, body) && RulePasses(2, body)
    requires !ToStringThrows(Field(body, "days"))
    requires ToNumber(Field(body, "days")) == Finite(d) && LessThanOne(d)
    ensures Validate(body) == Normal(Some(DaysMessage))
  {
    assert !RulePasses(3, body) && !RuleThrows(3, body);
    assert FirstFailing(body, 3);
  }
}
