/** The premium section of the home page: which features a user already
  * has, which plans are offered, and the buy button's handler, which asks
  * the back end for a checkout session and sends the browser to it. */
module Premium {
  import opened Wrappers
  import opened JsStrings
  import opened JsonValues
  import Stripe

  // --------------------------------------------------------- entitlements

  /** The `premiumAccess` prop; the two per-feature flags are optional. */
  datatype Access = Access(isPremium: bool, isTailoringPremium: Option<bool>, isMockInterviewsPremium: Option<bool>)

  /** `!!flag` for an optional boolean. */
  predicate IsSet(flag: Option<bool>) { flag == Some(true) }

  datatype Entitlement = Entitlement(hasTailoring: bool, hasMock: bool, hasFull: bool)

  /** The three booleans derived from `premiumAccess`. Full premium is
    * computed as "premium, or both single features"; it holds exactly when
    * both features are available. */
  function Entitlements(access: Option<Access>): (e: Entitlement)
    ensures e.hasTailoring <==> access.Some? && (access.value.isPremium || IsSet(access.value.isTailoringPremium))
    ensures e.hasMock <==> access.Some? && (access.value.isPremium || IsSet(access.value.isMockInterviewsPremium))
    ensures e.hasFull <==> e.hasTailoring && e.hasMock
    ensures access.None? ==> e == Entitlement(false, false, false)
    ensures access.Some? && access.value.isPremium ==> e == Entitlement(true, true, true)
  {
    var premium := access.Some? && access.value.isPremium;
    var tailoring := access.Some? && IsSet(access.value.isTailoringPremium);
    var mock := access.Some? && IsSet(access.value.isMockInterviewsPremium);
    Entitlement(premium || tailoring, premium || mock, premium || (tailoring && mock))
  }

  /** The access a user row with these flags is shown with. */
  function AccessOf(f: Stripe.Flags): Access {
    Access(f.isPremium, Some(f.isTailoringPremium), Some(f.isMockInterviewsPremium))
  }

  /** Paying for a plan unlocks it, and never takes away a feature the
    * user had: after a completed checkout session for `planType`, the
    * section treats the plan's features as owned. */
  lemma PurchaseUnlocksPlan(f: Stripe.Flags, planType: string)
    ensures var e := Entitlements(Some(AccessOf(Stripe.Apply(f, Stripe.Granted(Some(planType))))));
            && (planType == "TAILORING" ==> e.hasTailoring)
            && (planType == "MOCK" ==> e.hasMock)
            && (planType != "TAILORING" && planType != "MOCK" ==> e.hasFull)
    ensures var before := Entitlements(Some(AccessOf(f)));
            var after := Entitlements(Some(AccessOf(Stripe.Apply(f, Stripe.Granted(Some(planType))))));
            && (before.hasTailoring ==> after.hasTailoring)
            && (before.hasMock ==> after.hasMock)
            && (before.hasFull ==> after.hasFull)
  {
  }

  /** Buying both single plans gives full premium. */
  lemma BothSinglesGiveFull(f: Stripe.Flags)
    ensures Entitlements(Some(AccessOf(Stripe.Apply(Stripe.Apply(f, Stripe.Granted(Some("TAILORING"))),
                                                    Stripe.Granted(Some("MOCK")))))).hasFull
  {
  }

  // --------------------------------------------------------------- offers

  /** What the section renders: the sign-in prompt, the "already have
    * access" note, or the plan cards, each shown or not, whose buttons are
    * disabled while a checkout is being created. */
  datatype Offer =
    | SignInPrompt
    | AllOwned
    | Cards(tailoring: bool, mock: bool, full: bool, disabled: bool)

  function Offered(isAuthenticated: bool, loading: bool, e: Entitlement): (o: Offer)
    ensures !isAuthenticated <==> o == SignInPrompt
    ensures o == AllOwned <==> isAuthenticated && e.hasTailoring && e.hasMock && e.hasFull
    ensures o.Cards? ==>
      && o.tailoring == !e.hasTailoring && o.mock == !e.hasMock && o.full == !e.hasFull
      && (o.tailoring || o.mock || o.full)
      && o.disabled == loading
  {
    if !isAuthenticated then SignInPrompt
    else
      var showTailoring := !e.hasTailoring;
      var showMock := !e.hasMock;
      var showFull := !e.hasFull;
      if !(showTailoring || showMock || showFull) then AllOwned
      else Cards(showTailoring, showMock, showFull, loading)
  }

  /** With the entitlements derived from the access data, the full plan is
    * offered exactly when a single plan is, and the "already have access"
    * note appears exactly when both features are owned. */
  lemma FullOfferedWithSingles(isAuthenticated: bool, loading: bool, access: Option<Access>)
    ensures var o := Offered(isAuthenticated, loading, Entitlements(access));
            o.Cards? ==> (o.full <==> o.tailoring || o.mock)
    ensures var e := Entitlements(access);
            Offered(isAuthenticated, loading, e) == AllOwned <==> isAuthenticated && e.hasTailoring && e.hasMock
  {
  }

  // ------------------------------------------------------------- checkout

  /** The body posted to `/stripe/create-checkout-session`. */
  datatype CheckoutRequest = CheckoutRequest(successUrl: string, cancelUrl: string, planType: string, customerEmail: string)

  /** How the request ended: a response with its `ok` flag and JSON body,
    * or an exception (network failure, unreadable body) with its
    * message. */
  datatype CheckoutReply =
    | Replied(ok: bool, body: Json)
    | Failed(message: string)

  const SignInRoute := "/api/auth/signin"
  const SignInToast := "Please sign in to upgrade to premium."
  const Unexpected := "Unexpected error creating checkout session."

  /** The message of the error thrown for a refused request:
    * `String(checkoutData.message || "Unable to create checkout session.")`. */
  function RefusalText(message: Option<Json>): string {
    ToJsString(OrElse(message, JString("Unable to create checkout session.")))
  }

  /** The status message and the redirect a reply leads to. Exactly one of
    * the two is present, and a shown message is never empty. A `null` body
    * makes reading its `message` (refused) or `url` (accepted) throw a
    * `TypeError`, whose message is shown. */
  function ReplyOutcome(reply: CheckoutReply): (r: (Option<string>, Option<string>))
    ensures r.0.Some? <==> r.1.None?
    ensures r.0.Some? ==> r.0.value != ""
    ensures r.1.Some? <==> (&& reply.Replied? && reply.ok && Get(reply.body, "url").Some?
                            && JsonTruthy(Get(reply.body, "url").value))
    ensures r.1.Some? ==> r.1.value == ToJsString(Get(reply.body, "url").value)
    ensures reply.Replied? && reply.body.JNull? ==> r.0 == Some(NullRead(if reply.ok then "url" else "message"))
    ensures reply.Replied? && reply.ok && !reply.body.JNull? && r.0.Some? ==>
              r.0 == Some("Stripe checkout URL missing in response.")
    ensures reply.Replied? && !reply.ok && !reply.body.JNull? ==>
              var text := RefusalText(Get(reply.body, "message"));
              r.0 == Some(if text != "" then text else Unexpected)
    ensures reply.Failed? && reply.message != "" ==> r.0 == Some(reply.message)
    ensures reply.Failed? && reply.message == "" ==> r.0 == Some(Unexpected)
  {
    var error :=
      match reply
      case Failed(m) => m
      case Replied(ok, body) =>
        if body.JNull? then NullRead(if ok then "url" else "message")
        else if !ok then RefusalText(Get(body, "message"))
        else
          var url := Get(body, "url");
          if url.Some? && JsonTruthy(url.value) then ""
          else "Stripe checkout URL missing in response.";
    if reply.Replied? && reply.ok && Get(reply.body, "url").Some? && JsonTruthy(Get(reply.body, "url").value) then
      (None, Some(ToJsString(Get(reply.body, "url").value)))
    else
      (Some(if error != "" then error else Unexpected), None)
  }

  /** A refusal whose body carries a non-empty string message shows that
    * message. */
  lemma RefusalShowsServerMessage(body: Json, text: string)
    requires Get(body, "message") == Some(JString(text)) && text != ""
    ensures ReplyOutcome(Replied(false, body)) == (Some(text), None)
  {
  }

  /** The state of the premium section with checkout. */
  class CheckoutSection {
    var loading: bool
    var statusMessage: Option<string>
    /** Requests sent to the back end, oldest first. */
    var requests: seq<CheckoutRequest>
    /** Toasts shown, oldest first. */
    var toasts: seq<string>
    /** The last `router.push` target. */
    var route: Option<string>
    /** The last `window.location.href` assignment. */
    var location: Option<string>

    constructor ()
      ensures !loading && statusMessage == None && requests == [] && toasts == []
      ensures route == None && location == None
    {
      loading := false;
      statusMessage := None;
      requests := [];
      toasts := [];
      route := None;
      location := None;
    }

    /** `handleBuy`. Without a session e-mail nothing is sent and the user
      * is sent to sign in. Otherwise one request is sent, the status message
      * is cleared, and the reply either redirects to the checkout page or
      * sets a message; `loading` is true only while the request runs. */
    method HandleBuy(planType: string, email: Option<string>, origin: string, reply: CheckoutReply)
      modifies this
      ensures !Truthy(email) ==>
        && toasts == old(toasts) + [SignInToast] && route == Some(SignInRoute)
        && loading == old(loading) && statusMessage == old(statusMessage)
        && requests == old(requests) && location == old(location)
      ensures Truthy(email) ==>
        && requests == old(requests)
             + [CheckoutRequest(origin + "/premium/success", origin + "/premium/canceled", planType, email.value)]
        && !loading
        && statusMessage == ReplyOutcome(reply).0
        && location == (if ReplyOutcome(reply).1.Some? then ReplyOutcome(reply).1 else old(location))
        && toasts == old(toasts) && route == old(route)
      ensures old(!loading) ==> !loading
    {
      if !Truthy(email) {
        toasts := toasts + [SignInToast];
        route := Some(SignInRoute);
        return;
      }
      loading := true;
      statusMessage := None;
      requests := requests + [CheckoutRequest(origin + "/premium/success", origin + "/premium/canceled", planType, email.value)];
      var error: Option<string> := None;
      match reply {
        case Failed(m) =>
          error := Some(m);
        case Replied(ok, body) =>
          if body.JNull? {
            error := Some(NullRead(if ok then "url" else "message"));
          } else if !ok {
            error := Some(RefusalText(Get(body, "message")));
          } else {
            var url := Get(body, "url");
            if url.Some? && JsonTruthy(url.value) {
              location := Some(ToJsString(url.value));
            } else {
              error := Some("Stripe checkout URL missing in response.");
            }
          }
      }
      if error.Some? {
        statusMessage := Some(if error.value != "" then error.value else Unexpected);
      }
      loading := false;
    }
  }
}
