/**
  The pricing cards: the monthly/annual switch and, for each plan, the amount,
  the billing caption, the "/ period" suffix and the button label.

  Amounts stay as the plan's price text; the `Number` conversion and the
  currency formatting of the animated figure are not modelled.
 */
module Pricing {
  import opened Wrappers
  import opened JsText

  /** A plan as the component receives it. */
  datatype PricingPlan = PricingPlan(
    name: string,
    price: string,
    yearlyPrice: string,
    period: string,
    features: seq<string>,
    description: string,
    buttonText: string,
    href: string,
    isPopular: bool)

  /** A rendered card. `highlighted` is the primary border and button colouring of a popular plan. */
  datatype Card = Card(
    popularBadge: bool,
    name: string,
    amount: string,
    periodSuffix: Option<string>,
    caption: string,
    features: seq<string>,
    button: string,
    href: string,
    highlighted: bool,
    description: string)

  /** The period for which the "/ period" suffix is not shown. */
  const NoSuffixPeriod: string := "Next 3 months"

  /** The label of a card's button: the Professional plan always says "Get Started", and "contact sales" in any case reads "Upgrade". */
  function ButtonLabel(plan: PricingPlan): (text: string)
    ensures plan.name == "Professional" ==> text == "Get Started"
    ensures plan.name != "Professional" && Lower(plan.buttonText) == "contact sales" ==> text == "Upgrade"
    ensures plan.name != "Professional" && Lower(plan.buttonText) != "contact sales" ==> text == plan.buttonText
  {
    if plan.name == "Professional" then "Get Started"
    else if Lower(plan.buttonText) == "contact sales" then "Upgrade"
    else plan.buttonText
  }

  /**
    The card of a plan: the monthly price and "billed monthly" while monthly,
    the yearly price and "billed annually" otherwise; the suffix unless the
    period is "Next 3 months"; the badge and colouring when popular.
   */
  function CardOf(plan: PricingPlan, isMonthly: bool): (card: Card)
    ensures card.amount == if isMonthly then plan.price else plan.yearlyPrice
    ensures card.caption == if isMonthly then "billed monthly" else "billed annually"
    ensures card.periodSuffix.None? <==> plan.period == NoSuffixPeriod
    ensures card.periodSuffix.Some? ==> card.periodSuffix.value == plan.period
    ensures card.popularBadge <==> plan.isPopular
    ensures card.highlighted <==> plan.isPopular
    ensures card.button == ButtonLabel(plan)
    ensures card.name == plan.name && card.href == plan.href
    ensures card.features == plan.features && card.description == plan.description
  {
    Card(
      plan.isPopular,
      plan.name,
      if isMonthly then plan.price else plan.yearlyPrice,
      if plan.period != NoSuffixPeriod then Some(plan.period) else None,
      if isMonthly then "billed monthly" else "billed annually",
      plan.features,
      ButtonLabel(plan),
      plan.href,
      plan.isPopular,
      plan.description)
  }

  /** A label that is not "Upgrade" lowers to something other than "contact sales". */
  lemma UpgradeIsNotContactSales()
    ensures Lower("Upgrade") != "contact sales"
    ensures Lower("Get Started") != "contact sales"
  {
    assert |Lower("Upgrade")| == 7;
    assert |Lower("Get Started")| == 11;
  }

  /** No card ever shows a button reading "contact sales", in any letter case. */
  lemma {:induction false} NoContactSalesButton(plan: PricingPlan, isMonthly: bool)
    ensures Lower(CardOf(plan, isMonthly).button) != "contact sales"
  {
    UpgradeIsNotContactSales();
  }

  /** The enterprise wording "Contact Sales" is shown as "Upgrade". */
  lemma ContactSalesShownAsUpgrade(plan: PricingPlan)
    requires plan.name != "Professional" && plan.buttonText == "Contact Sales"
    ensures ButtonLabel(plan) == "Upgrade"
  {
    assert Lower("Contact Sales") == "contact sales" by {
      var l := Lower("Contact Sales");
      assert |l| == 13;
      assert l[0] == LowerChar('C') == 'c';
      assert l[8] == LowerChar('S') == 's';
      assert forall i :: 0 <= i < 13 && i != 0 && i != 8 ==> l[i] == "Contact Sales"[i];
    }
  }

  /** The cards follow the plans one for one, in order. */
  function Cards(plans: seq<PricingPlan>, isMonthly: bool): (cards: seq<Card>)
    ensures |cards| == |plans|
    ensures forall i :: 0 <= i < |plans| ==> cards[i] == CardOf(plans[i], isMonthly)
  {
    seq(|plans|, i requires 0 <= i < |plans| => CardOf(plans[i], isMonthly))
  }

  /** The component's state: whether monthly prices are shown. */
  class PricingView {
    var isMonthly: bool

    /** The view starts on monthly prices. */
    constructor()
      ensures isMonthly
    {
      isMonthly := true;
    }

    /** The switch is on ("Pay Annually") exactly when prices are not monthly. */
    function SwitchChecked(): (checked: bool)
      reads this
      ensures checked <==> !isMonthly
    {
      !isMonthly
    }

    /** `handleToggle`: the switch's new position decides the billing period; the confetti is left out. */
    method HandleToggle(checked: bool)
      modifies this
      ensures isMonthly == !checked
      ensures SwitchChecked() == checked
    {
      isMonthly := !checked;
    }

    /** The cards currently shown. */
    function Shown(plans: seq<PricingPlan>): (cards: seq<Card>)
      reads this
    {
      Cards(plans, isMonthly)
    }
  }
}
