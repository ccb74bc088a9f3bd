/**
 * The two input validators side by side: the four-field one of
 * utils/validateInput.js and the three-field one app.js defines and uses.
 * They disagree on white-space-only preferences, on a zero budget and on
 * `days`, and agree otherwise.
 */
module ValidatorVariants {
  import opened Options
  import opened Decimals
  import opened JsValues
  import Strings
  import ValidateInput
  import App

  /** White-space-only preferences: app.js trims and rejects them, utils/validateInput.js lets them through. */
  lemma BlankPreferencesDiffer(body: JsValue)
    requires Destructurable(body)
    requires var d := Field(body, "destinations"); d.Arr? && |d.elems| > 0
    requires var p := Field(body, "preferences"); p.Str? && p.s != "" && Strings.IsBlank(p.s)
    ensures App.Validate(body) == Normal(Some(App.PreferencesMessage))
    ensures ValidateInput.RulePasses(1, body)
    ensures ValidateInput.Validate(body) != Normal(Some(ValidateInput.PreferencesMessage))
  {
    assert App.FirstFailing(body, 1);
    ValidateInput.MessagesDistinct();
  }

  /** A budget of zero: app.js accepts it as a number, utils/validateInput.js rejects it as falsy. */
  lemma ZeroBudgetDiffers(body: JsValue, scale: nat)
    requires Destructurable(body)
    requires var d := Field(body, "destinations"); d.Arr? && |d.elems| > 0
    requires var p := Field(body, "preferences"); p.Str? && !Strings.IsBlank(p.s)
    requires Field(body, "budget") == Num(Decimal(0, scale))
    ensures App.Validate(body) == Normal(None)
    ensures ValidateInput.Validate(body) == Normal(Some(ValidateInput.BudgetMessage))
  {
    assert Strings.IsBlank("");
    assert ValidateInput.FirstFailing(body, 2);
  }

  /** A budget whose conversion throws makes both validators throw, once destinations and preferences pass both. */
  lemma UnconvertibleBudgetThrowsInBoth(body: JsValue)
    requires Destructurable(body)
    requires var d := Field(body, "destinations"); d.Arr? && |d.elems| > 0
    requires var p := Field(body, "preferences"); p.Str? && !Strings.IsBlank(p.s)
    requires ToStringThrows(Field(body, "budget"))
    ensures App.Validate(body) == Throw
    ensures ValidateInput.Validate(body) == Throw
  {
    assert Strings.IsBlank("");
    assert App.FirstThrowing(body, 2);
    assert ValidateInput.FirstThrowing(body, 2);
  }

  /** Only utils/validateInput.js reads `days`: a body without it passes app.js and fails there. */
  lemma MissingDaysDiffers(body: JsValue)
    requires Destructurable(body)
    requires App.Validate(body) == Normal(None)
    requires ValidateInput.RulePasses(2, body)
    requires Field(body, "days") == Undefined
    ensures ValidateInput.Validate(body) == Normal(Some(ValidateInput.DaysMessage))
  {
    EarlierRulesCarryOver(body);
    assert !ValidateInput.RuleThrows(3, body) && !ValidateInput.RulePasses(3, body);
    assert ValidateInput.FirstFailing(body, 3);
  }

  /** The app.js verdict depends on the three fields it reads and on nothing else. */
  lemma EarlierIgnoresOtherFields(a: JsValue, b: JsValue)
    requires Destructurable(a) && Destructurable(b)
    requires Field(a, "destinations") == Field(b, "destinations")
    requires Field(a, "preferences") == Field(b, "preferences")
    requires Field(a, "budget") == Field(b, "budget")
    ensures App.Validate(a) == App.Validate(b)
  {
  }

  /** Whatever app.js accepts passes the first two rules of utils/validateInput.js. */
  lemma EarlierRulesCarryOver(body: JsValue)
    requires Destructurable(body)
    requires App.Validate(body) == Normal(None)
    ensures ValidateInput.RulePasses(0, body) && ValidateInput.RulePasses(1, body)
  {
    assert App.RulePasses(0, body) && App.RulePasses(1, body);
    assert Strings.IsBlank("");
  }

  /** An acceptable budget of utils/validateInput.js is a number to app.js as well. */
  lemma LaterBudgetIsNumber(budget: JsValue)
    requires ValidateInput.BudgetAcceptable(budget)
    ensures !ToStringThrows(budget) && !IsNaN(budget)
  {
  }

  /** Given app.js accepts a body, utils/validateInput.js accepts it exactly when its budget and days rules hold. */
  lemma AcceptedByEarlier(body: JsValue)
    requires Destructurable(body)
    requires App.Validate(body) == Normal(None)
    ensures ValidateInput.Validate(body) == Normal(None) <==>
      ValidateInput.RulePasses(2, body) && ValidateInput.RulePasses(3, body)
  {
    EarlierRulesCarryOver(body);
  }

  /** Given utils/validateInput.js accepts a body, app.js accepts it exactly when the preferences are not blank. */
  lemma AcceptedByLater(body: JsValue)
    requires Destructurable(body)
    requires ValidateInput.Validate(body) == Normal(None)
    ensures Field(body, "preferences").Str?
    ensures App.Validate(body) == Normal(None) <==> !Strings.IsBlank(Field(body, "preferences").s)
  {
    assert ValidateInput.RulePasses(0, body) && ValidateInput.RulePasses(1, body);
    assert ValidateInput.RulePasses(2, body);
    LaterBudgetIsNumber(Field(body, "budget"));
    assert App.RulePasses(0, body) && App.RulePasses(2, body);
  }
}
