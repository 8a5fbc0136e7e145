/** The Stripe webhook endpoint: signature gate, per-event idempotency record
 *  with a bounded retry count, and the subscription handlers
 *  (src/app/api/webhooks/stripe/route.ts). Stripe, the database and the
 *  subscription-change action are outside the model: their effects are
 *  recorded, and a handler failure is an input. `Handle` and `Process` are
 *  the intended handlers; the route imports the subscription-change action
 *  from a module that does not define it, and `HandleAsWritten` and
 *  `ProcessAsWritten` model that reading. */
module StripeWebhook {
  import opened Wrappers

  const MaxRetryAttempts: nat := 3

  datatype EventRecord = EventRecord(processed: bool, retryCount: nat)

  datatype StripeUser = StripeUser(id: string, stripeCustomerId: Option<string>, tier: string,
                                   cancelAtPeriodEnd: bool, currentPeriodEnd: Option<int>,
                                   subscriptionId: Option<string>)

  /** The subscription object of an event; `priceIds` are the items' prices
   *  in order, and `currentPeriodEnd` is in seconds. */
  datatype Subscription = Subscription(id: string, customer: string, status: string, cancelAtPeriodEnd: bool,
                                       currentPeriodEnd: int, priceIds: seq<string>)

  datatype Payload =
    | SubscriptionUpserted(sub: Subscription)      // created or updated
    | SubscriptionDeleted(sub: Subscription)
    | TrialWillEnd
    | CheckoutCompleted(userId: string, tier: string, customerId: string, periodEnd: int)
    | PaymentSucceeded
    | Unhandled(eventType: string)

  datatype Event = Event(id: string, payload: Payload)

  /** Calls made to services outside the model. */
  datatype Effect =
    | CancelSubscription(subscriptionId: string)
    | SubscriptionChange(userId: string, customerId: string, tier: string, periodEndMs: int)

  datatype Store = Store(events: map<string, EventRecord>, users: seq<StripeUser>, effects: seq<Effect>)

  /** The price ids configured for the paid tiers. */
  datatype Prices = Prices(pro: string, power: string)

  /** `processWebhookEvent`'s outcomes: `true`, `true` without work, `false`,
   *  and a thrown error. */
  datatype Outcome = Done | AlreadyProcessed | RetriesExhausted | Threw

  /** Where a call outside the model throws, if one does: before the handler
   *  writes anything (the user lookup, the Stripe retrieval), or after the
   *  handler's writes and calls were made (the subscription-change action of
   *  a deletion, the log calls, or marking the event processed). */
  datatype Fault = NoFault | BeforeHandler | AfterHandler

  datatype Response = Response(status: int, body: string)

  /** The tier a price id buys; any unknown price buys nothing. */
  function PriceTier(priceId: string, prices: Prices): (t: string)
    ensures t == "pro" <==> priceId == prices.pro
    ensures t == "power" <==> priceId != prices.pro && priceId == prices.power
    ensures t == "free" <==> priceId != prices.pro && priceId != prices.power
  {
    if priceId == prices.pro then "pro" else if priceId == prices.power then "power" else "free"
  }

  /** Only an active subscription confers its tier. */
  function EffectiveTier(status: string, priceTier: string): (t: string)
    ensures status != "active" ==> t == "free"
    ensures status == "active" ==> t == priceTier
  {
    if status == "active" then priceTier else "free"
  }

  /** The first user with this Stripe customer id (the id is unique). */
  function FindByCustomer(users: seq<StripeUser>, customer: string): (i: int)
    ensures -1 <= i < |users|
    ensures i == -1 <==> forall j :: 0 <= j < |users| ==> users[j].stripeCustomerId != Some(customer)
    ensures 0 <= i ==> users[i].stripeCustomerId == Some(customer)
  {
    if |users| == 0 then -1
    else if users[0].stripeCustomerId == Some(customer) then 0
    else
      var k := FindByCustomer(users[1..], customer);
      assert forall j :: 1 <= j < |users| ==> users[j] == users[1..][j - 1];
      if k < 0 then -1 else k + 1
  }

  /** The switch over event types as intended, for calls outside the model
   *  that do not throw: the store after the handler's writes and calls, and whether the
   *  handler itself throws (reading the first item of a subscription without
   *  items, after the user lookup and the cancellation of an older
   *  subscription). */
  function Handle(s: Store, payload: Payload, prices: Prices): (r: (Store, bool))
    ensures r.0.events == s.events && |r.0.users| == |s.users| && s.effects <= r.0.effects
    ensures (payload.TrialWillEnd? || payload.PaymentSucceeded? || payload.Unhandled?) ==> r == (s, false)
    ensures r.1 <==> payload.SubscriptionUpserted? && |payload.sub.priceIds| == 0 &&
                     FindByCustomer(s.users, payload.sub.customer) >= 0
    ensures r.1 ==> r.0.users == s.users
    ensures ((payload.SubscriptionUpserted? || payload.SubscriptionDeleted?) &&
             FindByCustomer(s.users, payload.sub.customer) < 0) ==> r == (s, false)
    ensures payload.SubscriptionUpserted? && FindByCustomer(s.users, payload.sub.customer) >= 0 ==>
      var sub := payload.sub;
      var u := s.users[FindByCustomer(s.users, sub.customer)];
      r.0.effects == s.effects +
        (if u.subscriptionId.Some? && u.subscriptionId.value != "" && u.subscriptionId.value != sub.id
         then [CancelSubscription(u.subscriptionId.value)] else [])
    ensures !r.1 && payload.SubscriptionUpserted? ==>
      var sub := payload.sub;
      var i := FindByCustomer(s.users, sub.customer);
      0 <= i ==> r.0.users == s.users[i := s.users[i].(
            tier := EffectiveTier(sub.status, PriceTier(sub.priceIds[0], prices)),
            cancelAtPeriodEnd := sub.cancelAtPeriodEnd,
            currentPeriodEnd := Some(sub.currentPeriodEnd * 1000),
            subscriptionId := Some(sub.id))]
    ensures payload.SubscriptionDeleted? ==>
      var sub := payload.sub;
      var i := FindByCustomer(s.users, sub.customer);
      0 <= i ==>
        (&& r.0.users[i].tier == s.users[i].tier
         && !r.0.users[i].cancelAtPeriodEnd
         && r.0.effects == s.effects + [SubscriptionChange(s.users[i].id, sub.customer, "free", sub.currentPeriodEnd * 1000)])
  {
    match payload
    case SubscriptionUpserted(sub) =>
      var i := FindByCustomer(s.users, sub.customer);
      if i < 0 then (s, false)
      else
        var u := s.users[i];
        var cancels := if u.subscriptionId.Some? && u.subscriptionId.value != "" && u.subscriptionId.value != sub.id
                       then [CancelSubscription(u.subscriptionId.value)] else [];
        var cancelled := s.(effects := s.effects + cancels);
        if |sub.priceIds| == 0 then (cancelled, true)
        else
          var tier := EffectiveTier(sub.status, PriceTier(sub.priceIds[0], prices));
          var u' := u.(tier := tier, cancelAtPeriodEnd := sub.cancelAtPeriodEnd,
                       currentPeriodEnd := Some(sub.currentPeriodEnd * 1000), subscriptionId := Some(sub.id));
          (cancelled.(users := s.users[i := u']), false)
    case SubscriptionDeleted(sub) =>
      var i := FindByCustomer(s.users, sub.customer);
      if i < 0 then (s, false)
      else
        var u := s.users[i];
        var end := sub.currentPeriodEnd * 1000;
        (s.(users := s.users[i := u.(cancelAtPeriodEnd := false, currentPeriodEnd := Some(end))],
            effects := s.effects + [SubscriptionChange(u.id, sub.customer, "free", end)]), false)
    case CheckoutCompleted(userId, tier, customerId, periodEnd) =>
      (s.(effects := s.effects + [SubscriptionChange(userId, customerId, tier, periodEnd * 1000)]), false)
    case _ => (s, false)
  }

  /** `processWebhookEvent`. `fault` says whether, and where, a call outside
   *  the model throws. */
  function Process(s: Store, e: Event, prices: Prices, fault: Fault): (r: (Store, Outcome))
    ensures e.id in s.events && s.events[e.id].processed ==> r == (s, AlreadyProcessed)
    ensures !(e.id in s.events && s.events[e.id].processed) ==>
      var count := if e.id in s.events then s.events[e.id].retryCount + 1 else 1;
      && e.id in r.0.events && r.0.events[e.id].retryCount == count
      && (r.1 == RetriesExhausted <==> count > MaxRetryAttempts)
      && (r.1 == Done <==> r.0.events[e.id].processed)
      && (r.1 == Done <==> count <= MaxRetryAttempts && fault.NoFault? && !Handle(s, e.payload, prices).1)
      && (r.1 == RetriesExhausted || (r.1 == Threw && fault.BeforeHandler?) ==> r.0.users == s.users && r.0.effects == s.effects)
      && (r.1 == Done || (r.1 == Threw && !fault.BeforeHandler?) ==>
            r.0.users == Handle(s, e.payload, prices).0.users && r.0.effects == Handle(s, e.payload, prices).0.effects)
    ensures forall id :: id != e.id ==> (id in r.0.events <==> id in s.events)
    ensures forall id :: id != e.id && id in s.events ==> r.0.events[id] == s.events[id]
  {
    if e.id in s.events && s.events[e.id].processed then (s, AlreadyProcessed)
    else
      var count := if e.id in s.events then s.events[e.id].retryCount + 1 else 1;
      var s1 := s.(events := s.events[e.id := EventRecord(false, count)]);
      if count > MaxRetryAttempts then (s1, RetriesExhausted)
      else if fault.BeforeHandler? then (s1, Threw)
      else
        HandleIgnoresEvents(s, s1, e.payload, prices);
        var (s2, threw) := Handle(s1, e.payload, prices);
        if threw || fault.AfterHandler? then (s2, Threw)
        else (s2.(events := s2.events[e.id := EventRecord(true, count)]), Done)
  }

  /** The handlers never read the event records. */
  lemma HandleIgnoresEvents(s: Store, s1: Store, payload: Payload, prices: Prices)
    requires s1.users == s.users && s1.effects == s.effects
    ensures Handle(s1, payload, prices).1 == Handle(s, payload, prices).1
    ensures Handle(s1, payload, prices).0 == Handle(s, payload, prices).0.(events := s1.events)
  {
  }

  /** The handlers as written. The subscription-change action is imported
   *  from the settings actions, which define no such function, so each call
   *  of it is a call of `undefined`: a checkout throws before writing
   *  anything, and a known customer's deletion throws after the user row
   *  was written. No change is ever requested; every other event is handled
   *  as intended. */
  function HandleAsWritten(s: Store, payload: Payload, prices: Prices): (r: (Store, bool))
    ensures payload.CheckoutCompleted? ==> r == (s, true)
    ensures payload.SubscriptionDeleted? && FindByCustomer(s.users, payload.sub.customer) >= 0 ==>
      r.1 && r.0.users == Handle(s, payload, prices).0.users && r.0.effects == s.effects && r.0.events == s.events
    ensures !payload.CheckoutCompleted? &&
            !(payload.SubscriptionDeleted? && FindByCustomer(s.users, payload.sub.customer) >= 0) ==>
      r == Handle(s, payload, prices)
  {
    match payload
    case CheckoutCompleted(_, _, _, _) => (s, true)
    case SubscriptionDeleted(sub) =>
      var h := Handle(s, payload, prices).0;
      if FindByCustomer(s.users, sub.customer) < 0 then (h, false) else (h.(effects := s.effects), true)
    case _ => Handle(s, payload, prices)
  }

  /** `processWebhookEvent` around the handlers as written. */
  function ProcessAsWritten(s: Store, e: Event, prices: Prices, fault: Fault): (r: (Store, Outcome))
    ensures e.id in s.events && s.events[e.id].processed ==> r == (s, AlreadyProcessed)
    ensures !(e.id in s.events && s.events[e.id].processed) ==>
      var count := if e.id in s.events then s.events[e.id].retryCount + 1 else 1;
      && e.id in r.0.events && r.0.events[e.id].retryCount == count
      && (r.1 == RetriesExhausted <==> count > MaxRetryAttempts)
      && (r.1 == Done <==> r.0.events[e.id].processed)
      && (r.1 == Done <==> count <= MaxRetryAttempts && fault.NoFault? && !HandleAsWritten(s, e.payload, prices).1)
  {
    if e.id in s.events && s.events[e.id].processed then (s, AlreadyProcessed)
    else
      var count := if e.id in s.events then s.events[e.id].retryCount + 1 else 1;
      var s1 := s.(events := s.events[e.id := EventRecord(false, count)]);
      if count > MaxRetryAttempts then (s1, RetriesExhausted)
      else if fault.BeforeHandler? then (s1, Threw)
      else
        HandleIgnoresEvents(s, s1, e.payload, prices);
        var (s2, threw) := HandleAsWritten(s1, e.payload, prices);
        if threw || fault.AfterHandler? then (s2, Threw)
        else (s2.(events := s2.events[e.id := EventRecord(true, count)]), Done)
  }

  /** A checkout, or the deletion of a known customer's subscription. */
  predicate ChangesSubscription(s: Store, payload: Payload)
  {
    payload.CheckoutCompleted? || (payload.SubscriptionDeleted? && FindByCustomer(s.users, payload.sub.customer) >= 0)
  }

  /** As written, an event that should request a subscription change is
   *  never completed, whatever else fails: every delivery throws (a 500)
   *  until the retry budget is spent, no change is requested, and the
   *  event stays unprocessed. */
  lemma ChangeEventsNeverComplete(s: Store, e: Event, prices: Prices, fault: Fault)
    requires ChangesSubscription(s, e.payload)
    requires !(e.id in s.events && s.events[e.id].processed)
    ensures var (s1, outcome) := ProcessAsWritten(s, e, prices, fault);
      outcome in {Threw, RetriesExhausted} && !s1.events[e.id].processed && s1.effects == s.effects &&
      ChangesSubscription(s1, e.payload)
  {
    var count := if e.id in s.events then s.events[e.id].retryCount + 1 else 1;
    var s1 := s.(events := s.events[e.id := EventRecord(false, count)]);
    HandleIgnoresEvents(s, s1, e.payload, prices);
    if e.payload.SubscriptionDeleted? {
      FindByCustomerOfUpdate(Handle(s, e.payload, prices).0.users, s.users, e.payload.sub.customer);
    }
  }

  /** A handler's writes keep every user's customer id, so a lookup by
   *  customer finds the same user afterwards. */
  lemma FindByCustomerOfUpdate(after: seq<StripeUser>, before: seq<StripeUser>, customer: string)
    requires |after| == |before|
    requires forall j :: 0 <= j < |before| ==> after[j].stripeCustomerId == before[j].stripeCustomerId
    ensures FindByCustomer(after, customer) == FindByCustomer(before, customer)
  {
    if |before| > 0 {
      FindByCustomerOfUpdate(after[1..], before[1..], customer);
    }
  }

  /** The two readings of the same checkout, delivered for the first time
   *  with nothing else failing: as intended it completes and requests the
   *  new tier; as written it throws and requests nothing. */
  lemma CheckoutNeedsChangeAction(s: Store, id: string, userId: string, tier: string, customer: string,
                                  periodEnd: int, prices: Prices)
    requires id !in s.events
    ensures var e := Event(id, CheckoutCompleted(userId, tier, customer, periodEnd));
      var intended := Process(s, e, prices, NoFault);
      var written := ProcessAsWritten(s, e, prices, NoFault);
      intended.1 == Done && intended.0.effects == s.effects + [SubscriptionChange(userId, customer, tier, periodEnd * 1000)] &&
      written.1 == Threw && written.0.effects == s.effects
  {
  }

  /** `POST`: the status code and body for a request. `signature` is the
   *  header; `signatureValid` is whether Stripe accepts it for the body. */
  function Post(s: Store, signature: Option<string>, signatureValid: bool, e: Event, prices: Prices, fault: Fault)
    : (r: (Store, Response))
    ensures signature.None? || !signatureValid ==> r.0 == s && r.1.status == 400
    ensures signature.Some? && signatureValid ==>
      (r.1.status == 200 <==> Process(s, e, prices, fault).1 in {Done, AlreadyProcessed})
    ensures r.1.status in {200, 400, 500}
  {
    if signature.None? then (s, Response(400, "Missing stripe-signature header"))
    else if !signatureValid then (s, Response(400, "Invalid webhook signature"))
    else
      var (s', outcome) := Process(s, e, prices, fault);
      match outcome
      case Done => (s', Response(200, "received"))
      case AlreadyProcessed => (s', Response(200, "received"))
      case RetriesExhausted => (s', Response(500, "Failed to process webhook"))
      case Threw => (s', Response(500, "Internal server error"))
  }

  /** Delivers the same event once per entry of `fails`, counting the
   *  handler runs (attempts that got past the retry gate) and completions. */
  function Deliver(s: Store, e: Event, prices: Prices, fails: seq<Fault>): (r: (Store, nat, nat))
    decreases |fails|
  {
    if |fails| == 0 then (s, 0, 0)
    else
      var (s1, outcome) := Process(s, e, prices, fails[0]);
      var (s2, runs, done) := Deliver(s1, e, prices, fails[1..]);
      (s2, runs + (if outcome in {Done, Threw} then 1 else 0), done + (if outcome == Done then 1 else 0))
  }

  /** The retries still allowed for an event in a store. */
  function Budget(s: Store, id: string): nat
  {
    if id !in s.events then MaxRetryAttempts
    else if s.events[id].processed then 0
    else if s.events[id].retryCount >= MaxRetryAttempts then 0
    else MaxRetryAttempts - s.events[id].retryCount
  }

  lemma {:induction false} DeliverBounded(s: Store, e: Event, prices: Prices, fails: seq<Fault>)
    ensures var (_, runs, done) := Deliver(s, e, prices, fails);
      runs <= Budget(s, e.id)
      && done <= (if e.id in s.events && s.events[e.id].processed then 0 else 1)
      && done <= runs
    decreases |fails|
  {
    if |fails| > 0 {
      var (s1, outcome) := Process(s, e, prices, fails[0]);
      DeliverBounded(s1, e, prices, fails[1..]);
      if outcome == Done {
        assert Budget(s1, e.id) == 0;
      }
    }
  }

  /** However often Stripe redelivers an event, and whatever fails on the
   *  way, its handler runs at most three times and completes at most once. */
  lemma AtMostThreeRunsOneCompletion(s: Store, e: Event, prices: Prices, fails: seq<Fault>)
    ensures var (_, runs, done) := Deliver(s, e, prices, fails);
      runs <= MaxRetryAttempts && done <= 1
  {
    DeliverBounded(s, e, prices, fails);
  }

  /** Redelivering a completed event changes nothing and reports success. */
  lemma RedeliveryIsIdempotent(s: Store, e: Event, prices: Prices, fails: Fault, fails2: Fault)
    requires Process(s, e, prices, fails).1 == Done
    ensures var s1 := Process(s, e, prices, fails).0;
      Process(s1, e, prices, fails2) == (s1, AlreadyProcessed)
  {
  }

  /** An update without items for a customer nobody has is answered 200 and
   *  marked processed: the lookup comes before the items are read. */
  lemma UnknownCustomerWithoutItems(s: Store, id: string, sub: Subscription, prices: Prices)
    requires |sub.priceIds| == 0 && FindByCustomer(s.users, sub.customer) < 0
    requires !(id in s.events && s.events[id].processed)
    requires (if id in s.events then s.events[id].retryCount + 1 else 1) <= MaxRetryAttempts
    ensures var (s1, r) := Post(s, Some("t=1"), true, Event(id, SubscriptionUpserted(sub)), prices, NoFault);
      r.status == 200 && s1.events[id].processed && s1.users == s.users && s1.effects == s.effects
  {
  }

  /** A known user's update without items still cancels the user's older
   *  subscription, then throws: a 500, the event left for a retry, and the
   *  user's row unchanged. */
  lemma KnownCustomerWithoutItems(s: Store, id: string, sub: Subscription, prices: Prices, previous: string)
    requires |sub.priceIds| == 0
    requires FindByCustomer(s.users, sub.customer) >= 0
    requires s.users[FindByCustomer(s.users, sub.customer)].subscriptionId == Some(previous)
    requires previous != "" && previous != sub.id
    requires !(id in s.events && s.events[id].processed)
    requires (if id in s.events then s.events[id].retryCount + 1 else 1) <= MaxRetryAttempts
    ensures var (s1, r) := Post(s, Some("t=1"), true, Event(id, SubscriptionUpserted(sub)), prices, NoFault);
      r.status == 500 && !s1.events[id].processed && s1.users == s.users &&
      s1.effects == s.effects + [CancelSubscription(previous)]
  {
  }

  /** A throw after a deletion's writes (in the subscription-change action,
   *  or while marking the event processed) keeps the user's row written and
   *  the change requested, while the event stays unprocessed for a retry. */
  lemma LateFailureKeepsWrites(s: Store, id: string, sub: Subscription, prices: Prices)
    requires FindByCustomer(s.users, sub.customer) >= 0
    requires !(id in s.events && s.events[id].processed)
    requires (if id in s.events then s.events[id].retryCount + 1 else 1) <= MaxRetryAttempts
    ensures var i := FindByCustomer(s.users, sub.customer);
      var (s1, r) := Post(s, Some("t=1"), true, Event(id, SubscriptionDeleted(sub)), prices, AfterHandler);
      r.status == 500 && !s1.events[id].processed &&
      s1.users[i] == s.users[i].(cancelAtPeriodEnd := false, currentPeriodEnd := Some(sub.currentPeriodEnd * 1000)) &&
      |s1.effects| == |s.effects| + 1
  {
  }

  /** Event types without a handler are still marked processed. */
  lemma UnhandledTypesAreMarked(s: Store, id: string, t: string, prices: Prices)
    requires !(id in s.events && s.events[id].processed)
    requires (if id in s.events then s.events[id].retryCount + 1 else 1) <= MaxRetryAttempts
    ensures var (s1, outcome) := Process(s, Event(id, Unhandled(t)), prices, NoFault);
      outcome == Done && s1.events[id].processed && s1.users == s.users
  {
  }
}
