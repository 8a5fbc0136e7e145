/** The older Stripe webhook (src/app/api/stripe/webhook/route.ts): it keeps
 *  no event record, takes the tier from the subscription's metadata and
 *  looks the user up by customer id, then by subscription id. */
module StripeLegacyWebhook {
  import opened Wrappers
  import Lists

  /** The `subscriptionDetails` stored on a user; times are in ms. */
  datatype Details = Details(status: string, tier: string, startMs: int, endMs: int,
                             subscriptionId: string, cancelAtPeriodEnd: bool)

  datatype User = User(userId: string, stripeCustomerId: Option<string>, tier: string,
                       details: Option<Details>, dateUpdated: int)

  /** A subscription object; `metadataTier` is `metadata.tier`, and the
   *  period bounds are in seconds. */
  datatype Subscription = Subscription(id: string, customer: string, status: string, metadataTier: Option<string>,
                                       periodStart: int, periodEnd: int, cancelAtPeriodEnd: bool)

  datatype Event =
    | SubscriptionUpdated(sub: Subscription)
    | SubscriptionDeleted(sub: Subscription)
    | OtherEvent(eventType: string)

  datatype Response = Response(status: int, body: string)

  /** `status === 'active' ? (metadata.tier || 'free') : 'free'`. */
  function LegacyTier(sub: Subscription): (t: string)
    ensures sub.status != "active" ==> t == "free"
    ensures sub.status == "active" && sub.metadataTier.Some? && sub.metadataTier.value != "" ==> t == sub.metadataTier.value
    ensures sub.status == "active" && (sub.metadataTier.None? || sub.metadataTier.value == "") ==> t == "free"
  {
    if sub.status != "active" then "free"
    else if sub.metadataTier.Some? && sub.metadataTier.value != "" then sub.metadataTier.value
    else "free"
  }

  predicate HasCustomer(u: User, customer: string)
  {
    u.stripeCustomerId == Some(customer)
  }

  predicate HasSubscription(u: User, subscriptionId: string)
  {
    u.details.Some? && u.details.value.subscriptionId == subscriptionId
  }

  /** The user an event is applied to: a match on the customer id wins over
   *  a match on the stored subscription id; -1 when neither exists. */
  function FindUser(users: seq<User>, sub: Subscription): (i: int)
    ensures -1 <= i < |users|
    ensures i == -1 <==> forall j :: 0 <= j < |users| ==>
      !HasCustomer(users[j], sub.customer) && !HasSubscription(users[j], sub.id)
    ensures 0 <= i && (exists j :: 0 <= j < |users| && HasCustomer(users[j], sub.customer)) ==>
      HasCustomer(users[i], sub.customer)
    ensures 0 <= i && !HasCustomer(users[i], sub.customer) ==> HasSubscription(users[i], sub.id)
  {
    var byCustomer := Lists.FindIndex(users, u => HasCustomer(u, sub.customer));
    if byCustomer >= 0 then byCustomer
    else Lists.FindIndex(users, u => HasSubscription(u, sub.id))
  }

  /** The record written for a subscription event. */
  function Updated(u: User, sub: Subscription, now: int): (r: User)
    ensures r.userId == u.userId && r.stripeCustomerId == u.stripeCustomerId
    ensures r.tier == LegacyTier(sub) && r.details.Some? && r.details.value.tier == r.tier
    ensures r.details.value.subscriptionId == sub.id && r.details.value.status == sub.status
    ensures r.details.value.endMs == sub.periodEnd * 1000 && r.dateUpdated == now
  {
    var tier := LegacyTier(sub);
    u.(tier := tier,
       details := Some(Details(sub.status, tier, sub.periodStart * 1000, sub.periodEnd * 1000, sub.id, sub.cancelAtPeriodEnd)),
       dateUpdated := now)
  }

  /** `POST`. `signatureValid` is Stripe's verdict on the signature, `now`
   *  the clock, and `dbFails` a database error while updating. */
  function Post(users: seq<User>, signatureValid: bool, e: Event, now: int, dbFails: bool): (r: (seq<User>, Response))
    ensures !signatureValid ==> r == (users, Response(400, "Webhook signature verification failed"))
    ensures signatureValid && e.OtherEvent? ==> r == (users, Response(200, "received"))
    ensures r.1.status != 200 ==> r.0 == users
    ensures |r.0| == |users|
  {
    if !signatureValid then (users, Response(400, "Webhook signature verification failed"))
    else match e
      case OtherEvent(_) => (users, Response(200, "received"))
      case _ =>
        var sub := e.sub;
        var i := FindUser(users, sub);
        if i < 0 then (users, Response(404, "User not found"))
        else if dbFails then (users, Response(500, "Webhook processing failed"))
        else (users[i := Updated(users[i], sub, now)], Response(200, "received"))
  }

  /** A subscription event for an unknown customer and subscription is a 404
   *  and writes nothing; a known one is a 200 that rewrites exactly the
   *  user `FindUser` picks. */
  lemma SubscriptionEventOutcome(users: seq<User>, e: Event, now: int)
    requires !e.OtherEvent?
    ensures var (users', resp) := Post(users, true, e, now, false);
      var i := FindUser(users, e.sub);
      && (resp.status == 404 <==> forall j :: 0 <= j < |users| ==>
            !HasCustomer(users[j], e.sub.customer) && !HasSubscription(users[j], e.sub.id))
      && (resp.status == 404 ==> users' == users)
      && (resp.status != 404 ==>
            (&& resp.status == 200 && 0 <= i
             && users'[i].tier == LegacyTier(e.sub)
             && forall j :: 0 <= j < |users| && j != i ==> users'[j] == users[j]))
  {
  }

  /** Updates and deletions are handled alike: a deleted subscription's
   *  status is not active, so the user drops to free. */
  lemma DeletionDropsToFree(users: seq<User>, sub: Subscription, now: int)
    requires sub.status != "active"
    requires FindUser(users, sub) >= 0
    ensures var (users', resp) := Post(users, true, SubscriptionDeleted(sub), now, false);
      resp.status == 200 && users'[FindUser(users, sub)].tier == "free"
  {
  }
}
