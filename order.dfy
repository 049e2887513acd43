/**
 * The "Add Order" modal wired by `initAddOrderModal`: choosing a plan fills in
 * its price, submitting a valid form closes the modal, resets the form and
 * announces the order in a success toast, and closing the modal resets the form.
 */
module Order {
  import opened Wrappers
  import opened Format
  import opened Toast

  /** `planPrices[plan]`, in cents: 99.00, 299.00 and 599.00; no price for any other plan. */
  function PlanPrice(plan: string): (cents: Option<nat>)
    ensures cents.Some? <==> plan in {"basic", "premium", "enterprise"}
    ensures cents.Some? ==> cents.value > 0 && cents.value % 100 == 0
  {
    match plan
    case "basic" => Some(9900)
    case "premium" => Some(29900)
    case "enterprise" => Some(59900)
    case _ => None
  }

  /**
   * The amount field after a plan is chosen: a priced plan writes its price with
   * two decimals into the field, when there is one; otherwise nothing changes.
   */
  function AmountAfterChange(amount: Option<string>, plan: string): (after: Option<string>)
    ensures after.Some? <==> amount.Some?
    ensures after != amount ==> PlanPrice(plan).Some? && after == Some(ToFixed2(PlanPrice(plan).value))
  {
    var price := PlanPrice(plan);
    if price.Some? && amount.Some? then Some(ToFixed2(price.value)) else amount
  }

  lemma WholeDollars(d: nat, s: string)
    requires DecimalString(d) == s
    ensures ToFixed2(100 * d) == s + ".00"
  {
    assert (100 * d) / 100 == d && (100 * d) % 100 == 0;
    assert TwoDecimals(0) == "00";
  }

  /** The three prices as `toFixed(2)` writes them. */
  lemma PriceStrings()
    ensures ToFixed2(9900) == "99.00" && ToFixed2(29900) == "299.00" && ToFixed2(59900) == "599.00"
  {
    assert DecimalString(9) == "9";
    WholeDollars(99, "99");
    assert DecimalString(2) == "2";
    assert DecimalString(29) == "29";
    WholeDollars(299, "299");
    assert DecimalString(5) == "5";
    assert DecimalString(59) == "59";
    WholeDollars(599, "599");
  }

  /**
   * The three plans fill in "99.00", "299.00" and "599.00"; any other choice, or a
   * page without the amount field, leaves the amount as it was.
   */
  lemma PlanChangeAmounts(amount: Option<string>, plan: string)
    ensures amount.Some? && plan == "basic" ==> AmountAfterChange(amount, plan) == Some("99.00")
    ensures amount.Some? && plan == "premium" ==> AmountAfterChange(amount, plan) == Some("299.00")
    ensures amount.Some? && plan == "enterprise" ==> AmountAfterChange(amount, plan) == Some("599.00")
    ensures amount.None? || plan !in {"basic", "premium", "enterprise"} ==>
      AmountAfterChange(amount, plan) == amount
  {
    PriceStrings();
  }

  /** A template literal's rendering of a value that may be `undefined`. */
  function Display(v: Option<string>): string {
    if v.Some? then v.value else "undefined"
  }

  const OrderPrefix := "Order created for "
  const Separator := " - "

  /** `Order created for ${customerName} - ${selectedPlan}`. */
  function OrderMessage(name: Option<string>, planText: Option<string>): string {
    OrderPrefix + Display(name) + Separator + Display(planText)
  }

  /**
   * The message names the customer right after the fixed prefix and ends with the
   * plan's text, each shown as "undefined" when it could not be read.
   */
  lemma OrderMessageParts(name: Option<string>, planText: Option<string>)
    ensures var m := OrderMessage(name, planText);
      var n := |OrderPrefix| + |Display(name)|;
      && |m| == n + |Separator| + |Display(planText)|
      && m[..|OrderPrefix|] == OrderPrefix
      && m[|OrderPrefix|..n] == Display(name)
      && m[n..n + |Separator|] == Separator
      && m[n + |Separator|..] == Display(planText)
  {
    var m := OrderMessage(name, planText);
    var a, b := OrderPrefix + Display(name), Separator + Display(planText);
    assert m == a + b;
    assert m[..|a|] == a;
    assert m[|a|..] == b;
  }

  /** An option of the plan select: its `value` and its visible `text`. */
  datatype PlanOption = PlanOption(value: string, text: string)

  /**
   * `productPlan?.options[productPlan.selectedIndex]?.text`: `undefined` without
   * the select or without a selected option.
   */
  function SelectedPlanText(plans: Option<seq<PlanOption>>, index: int): (text: Option<string>)
    ensures text.Some? <==> plans.Some? && 0 <= index < |plans.value|
    ensures text.Some? ==> text.value == plans.value[index].text
  {
    if plans.Some? && 0 <= index < |plans.value| then Some(plans.value[index].text) else None
  }

  /**
   * The fields the handlers read and write: the customer name and the amount
   * (`None` when the page has no such field) and the selected plan's index.
   */
  datatype OrderForm = OrderForm(customerName: Option<string>, planIndex: int, amount: Option<string>)

  /** The modal, its form, and the page's toasts. */
  class OrderModal {
    const plans: Option<seq<PlanOption>>
    const defaults: OrderForm
    const toasts: ToastHost
    var form: OrderForm
    var shown: bool

    constructor (plans: Option<seq<PlanOption>>, defaults: OrderForm, toasts: ToastHost, form: OrderForm, shown: bool)
      ensures this.plans == plans && this.defaults == defaults && this.toasts == toasts
      ensures this.form == form && this.shown == shown
    {
      this.plans := plans;
      this.defaults := defaults;
      this.toasts := toasts;
      this.form := form;
      this.shown := shown;
    }

    /** `addOrderForm.reset()`: every field back to its default. */
    method ResetForm()
      modifies this
      ensures form == defaults && shown == old(shown)
    {
      form := defaults;
    }

    /**
     * The user picks option `i` of the plan select: the select's index moves to it,
     * and its `change` handler fills in the price of the option's value. The plan
     * text a later submit reads is then that option's text.
     */
    method OnPlanChange(i: int)
      requires plans.Some? && 0 <= i < |plans.value|
      modifies this
      ensures form == old(form).(planIndex := i, amount := AmountAfterChange(old(form).amount, plans.value[i].value))
      ensures SelectedPlanText(plans, form.planIndex) == Some(plans.value[i].text)
      ensures shown == old(shown)
    {
      form := form.(planIndex := i);
      var price := PlanPrice(plans.value[i].value);
      if price.Some? && form.amount.Some? {
        form := form.(amount := Some(ToFixed2(price.value)));
      }
    }

    /**
     * The submit button's click handler, given the outcome of `checkValidity()` and
     * the toast id. An invalid form changes nothing here. A valid one hides the
     * modal, resets the form and appends exactly one success toast whose message
     * uses the name and plan read before the reset.
     */
    method OnSubmit(valid: bool, toastId: string)
      modifies this, toasts
      ensures !valid ==> form == old(form) && shown == old(shown) && toasts.container == old(toasts.container)
      ensures valid ==> form == defaults && !shown
      ensures valid ==>
        var message := OrderMessage(old(form).customerName, SelectedPlanText(plans, old(form).planIndex));
        toasts.container == Some(Shown(Items(old(toasts.container)), ToastItem(toastId, SuccessIcon, message, true)))
    {
      if !valid {
        return;
      }
      var customerName := form.customerName;
      var selectedPlan := SelectedPlanText(plans, form.planIndex);
      shown := false;
      ResetForm();
      toasts.ShowToast(OrderMessage(customerName, selectedPlan), Some("success"), toastId);
    }

    /** The `hidden.bs.modal` handler. */
    method OnHidden()
      modifies this
      ensures form == defaults && shown == old(shown)
    {
      ResetForm();
    }
  }
}
