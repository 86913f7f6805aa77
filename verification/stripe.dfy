/** Payments on the back end: the payment-intent guard, the price of each
  * premium plan, the checkout-session request, and the entitlement flags a
  * completed session grants. The Stripe API itself is not modelled: the
  * retrieved session is an input and the created session is the request
  * that would be sent. */
module Stripe {
  import opened Wrappers
  import opened JsStrings
  import opened JsonValues
  import opened HttpErrors
  import ExceptionFilters

  // The error messages the service answers with.
  const AmountRequiredMessage := "Amount (number, in smallest currency unit) required"

  /** `createIntent`: the amount must be a non-zero number; a missing
    * amount, zero or any other JSON value is refused. */
  function CreateIntent(amount: Option<Json>): (r: Result<(), HttpError>)
    ensures r.Ok? <==> amount.Some? && amount.value.JNumber? && JsonTruthy(amount.value)
    ensures r.Err? ==> r.error == BadRequest(AmountRequiredMessage)
  {
    if amount.None? || !JsonTruthy(amount.value) || !amount.value.JNumber? then
      Err(BadRequest(AmountRequiredMessage))
    else Ok(())
  }

  /** The zero amount is refused, a negative one is not. */
  lemma ZeroAmountRefused()
    ensures CreateIntent(Some(JNumber("0"))).Err?
    ensures CreateIntent(Some(JNumber("0.0"))).Err?
    ensures CreateIntent(Some(JNumber("-5"))).Ok?
    ensures CreateIntent(Some(JString("500"))).Err?
  {
    assert ZeroNumeral("0.0") by {
      assert "0.0"[1..] == ".0" && ".0"[1..] == "0" && "0"[1..] == "";
    }
    assert !ZeroNumeral("-5") by {
      assert "-5"[1..] == "5";
    }
  }

  // -------------------------------------------------------------- prices

  /** The price in cents of a plan: the two single plans cost 500, the full
    * plan and any unknown plan 800. */
  function Price(planType: string): (cents: int)
    ensures cents == 500 <==> planType == "TAILORING" || planType == "MOCK"
    ensures cents == 800 <==> planType != "TAILORING" && planType != "MOCK"
  {
    if planType == "TAILORING" || planType == "MOCK" then 500 else 800
  }

  function ProductName(planType: string): string {
    if planType == "TAILORING" then "Tailored Resume Access"
    else if planType == "MOCK" then "Mock Interviews Access"
    else "Full Premium (Tailoring + Mock Interviews)"
  }

  /** The full plan costs less than the two single plans together. */
  lemma FullPlanIsCheaper()
    ensures Price("FULL") < Price("TAILORING") + Price("MOCK")
  {
  }

  /** The `switch` of `createCheckoutsession`: `amount` and `productName`
    * start at 0 and "" and are set by the case for the plan. */
  method PlanPrice(planType: string) returns (amount: int, productName: string)
    ensures amount == Price(planType) && productName == ProductName(planType)
    ensures amount > 0 && productName != ""
  {
    amount := 0;
    productName := "";
    if planType == "TAILORING" {
      amount := 500;
      productName := "Tailored Resume Access";
    } else if planType == "MOCK" {
      amount := 500;
      productName := "Mock Interviews Access";
    } else {
      amount := 800;
      productName := "Full Premium (Tailoring + Mock Interviews)";
    }
  }

  datatype LineItem = LineItem(currency: string, productName: string, unitAmount: int, quantity: int)

  /** The checkout session requested from Stripe. */
  datatype CheckoutRequest = CheckoutRequest(
    lineItems: seq<LineItem>,
    successUrl: string,
    cancelUrl: string,
    mode: string,
    customerEmail: string,
    planType: string)

  const SessionSuffix := "?session_id={CHECKOUT_SESSION_ID}"

  /** `createCheckoutsession`: one line item of quantity 1 at the plan's
    * price, the plan in the metadata, and both return URLs carrying the
    * session id placeholder. */
  method CreateCheckoutSession(planType: string, successUrl: string, cancelUrl: string, customerEmail: string)
    returns (request: CheckoutRequest)
    ensures |request.lineItems| == 1
    ensures request.lineItems[0] == LineItem("usd", ProductName(planType), Price(planType), 1)
    ensures request.successUrl == successUrl + SessionSuffix
    ensures request.cancelUrl == cancelUrl + SessionSuffix
    ensures request.mode == "payment" && request.customerEmail == customerEmail
    ensures request.planType == planType
  {
    var amount, productName := PlanPrice(planType);
    request := CheckoutRequest(
      [LineItem("usd", productName, amount, 1)],
      successUrl + SessionSuffix,
      cancelUrl + SessionSuffix,
      "payment",
      customerEmail,
      planType);
  }

  /** The total a checkout charges: unit price times quantity, summed. */
  function Total(items: seq<LineItem>): int {
    if |items| == 0 then 0 else items[0].unitAmount * items[0].quantity + Total(items[1..])
  }

  /** A checkout request charges exactly the plan's price. */
  lemma CheckoutChargesPrice(request: CheckoutRequest, planType: string)
    requires |request.lineItems| == 1
    requires request.lineItems[0] == LineItem("usd", ProductName(planType), Price(planType), 1)
    ensures Total(request.lineItems) == Price(planType)
  {
    assert request.lineItems[1..] == [];
  }

  // -------------------------------------------------------- entitlements

  /** The three premium flags of a user row. */
  datatype Flags = Flags(isPremium: bool, isTailoringPremium: bool, isMockInterviewsPremium: bool)

  /** The flags the `data` object of a completed session sets to true. */
  function Granted(planType: Option<string>): (g: Flags)
    ensures planType == Some("TAILORING") ==> g == Flags(false, true, false)
    ensures planType == Some("MOCK") ==> g == Flags(false, false, true)
    ensures planType != Some("TAILORING") && planType != Some("MOCK") ==> g == Flags(true, true, true)
  {
    if planType == Some("TAILORING") then Flags(false, true, false)
    else if planType == Some("MOCK") then Flags(false, false, true)
    else Flags(true, true, true)
  }

  /** Writing `data`: a flag it names becomes true, the others keep their
    * value. */
  function Apply(f: Flags, data: Flags): Flags {
    Flags(f.isPremium || data.isPremium,
          f.isTailoringPremium || data.isTailoringPremium,
          f.isMockInterviewsPremium || data.isMockInterviewsPremium)
  }

  /** A flag that was set stays set. */
  predicate Includes(f': Flags, f: Flags) {
    (f.isPremium ==> f'.isPremium)
    && (f.isTailoringPremium ==> f'.isTailoringPremium)
    && (f.isMockInterviewsPremium ==> f'.isMockInterviewsPremium)
  }

  /** The retrieved checkout session: its status and the plan in its
    * metadata. */
  datatype Session = Session(status: Option<string>, planType: Option<string>)

  datatype CheckResult = CheckResult(success: bool, message: Option<string>)

  /** `checkSession`. A complete session with an e-mail address writes the
    * plan's flags to the user with that address; anything else is "Payment
    * is not complete" and writes nothing. An address with no user makes the
    * update fail, which the database filter answers with "Record not
    * found". */
  method CheckSession(session: Session, customerEmail: string, users: map<string, Flags>)
    returns (r: Result<CheckResult, HttpError>, users': map<string, Flags>)
    ensures !(session.status == Some("complete") && customerEmail != "") ==>
      r == Err(BadRequest("Payment is not complete")) && users' == users
    ensures (&& session.status == Some("complete") && customerEmail != ""
             && customerEmail !in users) ==>
      r == Err(ExceptionFilters.PrismaMapping(ExceptionFilters.KnownRequest("P2025"))) && users' == users
    ensures r.Ok? <==> session.status == Some("complete") && customerEmail != "" && customerEmail in users
    ensures r.Ok? ==>
      && r.value == CheckResult(true, Some("complete"))
      && users' == users[customerEmail := Apply(users[customerEmail], Granted(session.planType))]
    ensures users'.Keys == users.Keys
    ensures forall e :: e in users ==> Includes(users'[e], users[e])
  {
    users' := users;
    if !(session.status == Some("complete") && customerEmail != "") {
      return Err(BadRequest("Payment is not complete")), users';
    }
    var data := Flags(false, false, false);
    if session.planType == Some("TAILORING") {
      data := data.(isTailoringPremium := true);
    } else if session.planType == Some("MOCK") {
      data := data.(isMockInterviewsPremium := true);
    } else {
      data := data.(isPremium := true);
      data := data.(isTailoringPremium := true);
      data := data.(isMockInterviewsPremium := true);
    }
    if customerEmail !in users {
      return Err(ExceptionFilters.PrismaMapping(ExceptionFilters.KnownRequest("P2025"))), users';
    }
    users' := users[customerEmail := Apply(users[customerEmail], data)];
    r := Ok(CheckResult(session.status == Some("complete"), session.status));
  }
}
