/**
 The consumer of payment provider events. Every event that takes effect is recorded under its
 provider id in the same transaction; an event whose id is recorded is not handled again.
 */
module Billing {
  import opened Base

  type OrgId = string
  type Ref = string
  type EventId = string
  type Instant = int

  datatype PlanName = FREE | STARTER | PRO | BUSINESS
  datatype Plan = Plan(id: nat, priceCents: int)
  datatype Provider = STRIPE | MERCADO_PAGO | PAGARME | MANUAL
  datatype Status = ACTIVE | TRIALING | PAST_DUE | CANCELED | SUSPENDED
  datatype EventType = PAYMENT | ADJUSTMENT
  datatype EventStatus = COMPLETED | FAILED

  datatype Subscription = Subscription(
    id: nat,
    orgId: OrgId,
    planId: nat,
    status: Status,
    provider: Option<Provider>,
    customerRef: Option<Ref>,
    externalRef: Option<Ref>,
    periodStart: Instant,
    periodEnd: Instant,
    canceledAt: Option<Instant>)

  datatype BillingEvent = BillingEvent(
    subscriptionId: nat,
    providerEventId: EventId,
    kind: EventType,
    status: EventStatus,
    amountCents: int)

  datatype Session = Session(
    orgId: Option<string>,
    planName: Option<string>,
    subscription: Option<Ref>,
    customer: Option<Ref>)

  datatype Invoice = Invoice(
    subscription: Option<Ref>,
    start: Option<int>,
    end: Option<int>,
    amountPaid: int,
    amountDue: int)

  datatype ProviderSubscription = ProviderSubscription(
    ref: Ref,
    priceId: Option<string>,
    planName: Option<string>,
    status: string,
    customer: Option<Ref>,
    start: Option<int>,
    end: Option<int>,
    canceledAt: Option<int>)

  datatype Payload =
    | CheckoutCompleted(session: Session)
    | InvoicePaid(invoice: Invoice)
    | InvoicePaymentFailed(invoice: Invoice)
    | SubscriptionUpdated(subscription: ProviderSubscription)
    | SubscriptionDeleted(subscription: ProviderSubscription)
    | Other(name: string)

  /**
   One delivery of an event, with what the handler reads around it: the clock, the plans and
   the configured prices, the id a new row would get, and which row the store would offer when
   several carry the same reference.
   */
  datatype Delivery = Delivery(
    id: EventId,
    payload: Payload,
    now: Instant,
    plans: map<PlanName, Plan>,
    prices: Prices,
    newId: nat,
    pick: nat)

  datatype Prices = Prices(starter: string, pro: string, business: string)

  datatype Error = MissingMetadata | PlanNotFound

  /** What handling a payload comes to. */
  datatype Outcome =
    | Applied(rows: seq<Subscription>, event: BillingEvent)
    | Ignored
    | Refused(error: Error)

  datatype Store = Store(rows: seq<Subscription>, events: seq<BillingEvent>)

  // ---------------------------------------------------------------- conversions

  /** Seconds to milliseconds; zero counts as absent. */
  function FromUnix(value: Option<int>): Option<Instant> {
    if value.None? || value.value == 0 then None else Some(value.value * 1000)
  }

  function Or<T>(first: Option<T>, second: T): T {
    if first.Some? then first.value else second
  }

  function OrElse<T>(first: Option<T>, second: Option<T>): Option<T> {
    if first.Some? then first else second
  }

  function ToPlanName(value: Option<string>): Option<PlanName> {
    if value.None? then None
    else if value.value == "SCALE" || value.value == "BUSINESS" then Some(BUSINESS)
    else if value.value == "FREE" then Some(FREE)
    else if value.value == "STARTER" then Some(STARTER)
    else if value.value == "PRO" then Some(PRO)
    else None
  }

  /** A configured, non-empty price decides; the metadata is only asked when none matches. */
  function PlanFrom(prices: Prices, s: ProviderSubscription): Option<PlanName> {
    if prices.starter != "" && s.priceId == Some(prices.starter) then Some(STARTER)
    else if prices.pro != "" && s.priceId == Some(prices.pro) then Some(PRO)
    else if prices.business != "" && s.priceId == Some(prices.business) then Some(BUSINESS)
    else ToPlanName(s.planName)
  }

  function StatusFrom(status: string): Status {
    if status == "active" then ACTIVE
    else if status == "trialing" then TRIALING
    else if status == "past_due" || status == "unpaid" then PAST_DUE
    else if status == "canceled" then CANCELED
    else SUSPENDED
  }

  predicate Present(value: Option<string>) { value.Some? && value.value != "" }

  // ---------------------------------------------------------------- lookups

  /** The row of an organisation. */
  function OfOrg(rows: seq<Subscription>, orgId: OrgId): (r: Option<nat>)
    ensures r.None? <==> forall s <- rows :: s.orgId != orgId
    ensures r.Some? ==> r.value < |rows| && rows[r.value].orgId == orgId
  {
    if rows == [] then None
    else if rows[|rows| - 1].orgId == orgId then Some(|rows| - 1)
    else
      assert rows == rows[..|rows| - 1] + [rows[|rows| - 1]];
      OfOrg(rows[..|rows| - 1], orgId)
  }

  predicate Carries(s: Subscription, ref: Ref) { s.externalRef == Some(ref) }

  function LastWith(rows: seq<Subscription>, ref: Ref): (r: Option<nat>)
    ensures r.None? <==> forall s <- rows :: !Carries(s, ref)
    ensures r.Some? ==> r.value < |rows| && Carries(rows[r.value], ref)
  {
    if rows == [] then None
    else if Carries(rows[|rows| - 1], ref) then Some(|rows| - 1)
    else
      assert rows == rows[..|rows| - 1] + [rows[|rows| - 1]];
      LastWith(rows[..|rows| - 1], ref)
  }

  /** Some row with the reference: the one the store picks, if it carries the reference. */
  function FindFirst(rows: seq<Subscription>, ref: Ref, pick: nat): (r: Option<nat>)
    ensures r.None? <==> forall s <- rows :: !Carries(s, ref)
    ensures r.Some? ==> r.value < |rows| && Carries(rows[r.value], ref)
    ensures pick < |rows| && Carries(rows[pick], ref) ==> r == Some(pick)
  {
    if pick < |rows| && Carries(rows[pick], ref) then Some(pick) else LastWith(rows, ref)
  }

  // ---------------------------------------------------------------- the handlers

  const THIRTY_DAYS: Instant := 30 * 86400000

  function Record(d: Delivery, row: Subscription, kind: EventType, status: EventStatus, amount: int): BillingEvent {
    BillingEvent(row.id, d.id, kind, status, amount)
  }

  function NewRow(d: Delivery, s: Session, orgId: OrgId, planId: nat): Subscription {
    Subscription(d.newId, orgId, planId, ACTIVE, Some(STRIPE), s.customer, s.subscription,
                 d.now, d.now + THIRTY_DAYS, None)
  }

  /** A second checkout keeps the period, and the customer when the session names none. */
  function CheckedOut(row: Subscription, s: Session, planId: nat): Subscription {
    row.(planId := planId, status := ACTIVE, provider := Some(STRIPE),
         customerRef := OrElse(s.customer, row.customerRef), externalRef := s.subscription, canceledAt := None)
  }

  function Checkout(rows: seq<Subscription>, d: Delivery, s: Session): Outcome {
    var name := ToPlanName(s.planName);
    if !Present(s.orgId) || name.None? || !Present(s.subscription) then Refused(MissingMetadata)
    else if name.value !in d.plans then Refused(PlanNotFound)
    else
      var plan := d.plans[name.value];
      var at := OfOrg(rows, s.orgId.value);
      var row := if at.None? then NewRow(d, s, s.orgId.value, plan.id)
                 else CheckedOut(rows[at.value], s, plan.id);
      Applied(if at.None? then rows + [row] else rows[at.value := row],
              Record(d, row, PAYMENT, COMPLETED, plan.priceCents))
  }

  function Invoiced(row: Subscription, invoice: Invoice, paid: bool): Subscription {
    row.(status := if paid then ACTIVE else PAST_DUE,
         periodStart := Or(FromUnix(invoice.start), row.periodStart),
         periodEnd := Or(FromUnix(invoice.end), row.periodEnd),
         canceledAt := if paid then None else row.canceledAt)
  }

  function InvoiceOutcome(rows: seq<Subscription>, d: Delivery, invoice: Invoice, paid: bool): Outcome {
    if !Present(invoice.subscription) then Ignored
    else
      var at := FindFirst(rows, invoice.subscription.value, d.pick);
      if at.None? then Ignored
      else
        var row := Invoiced(rows[at.value], invoice, paid);
        Applied(rows[at.value := row],
                Record(d, row, PAYMENT, if paid then COMPLETED else FAILED,
                       if paid then invoice.amountPaid else invoice.amountDue))
  }

  /** The status a subscription event leads to; a deletion cancels whatever it says. */
  function NewStatus(s: ProviderSubscription, deleted: bool): Status {
    if deleted then CANCELED else StatusFrom(s.status)
  }

  function PlanIdFrom(d: Delivery, s: ProviderSubscription, current: nat): nat {
    var name := PlanFrom(d.prices, s);
    if name.Some? && name.value in d.plans then d.plans[name.value].id else current
  }

  function Synced(row: Subscription, d: Delivery, s: ProviderSubscription, deleted: bool): Subscription {
    row.(status := NewStatus(s, deleted),
         planId := PlanIdFrom(d, s, row.planId),
         provider := Some(STRIPE),
         customerRef := OrElse(s.customer, row.customerRef),
         periodStart := Or(FromUnix(s.start), row.periodStart),
         periodEnd := Or(FromUnix(s.end), row.periodEnd),
         canceledAt := if NewStatus(s, deleted) == CANCELED then Some(Or(FromUnix(s.canceledAt), d.now)) else None)
  }

  function SyncOutcome(rows: seq<Subscription>, d: Delivery, s: ProviderSubscription, deleted: bool): Outcome {
    var at := FindFirst(rows, s.ref, d.pick);
    if at.None? then Ignored
    else
      var row := Synced(rows[at.value], d, s, deleted);
      Applied(rows[at.value := row], Record(d, row, ADJUSTMENT, COMPLETED, 0))
  }

  function Handle(rows: seq<Subscription>, d: Delivery): Outcome {
    match d.payload
    case CheckoutCompleted(session) => Checkout(rows, d, session)
    case InvoicePaid(invoice) => InvoiceOutcome(rows, d, invoice, true)
    case InvoicePaymentFailed(invoice) => InvoiceOutcome(rows, d, invoice, false)
    case SubscriptionUpdated(s) => SyncOutcome(rows, d, s, false)
    case SubscriptionDeleted(s) => SyncOutcome(rows, d, s, true)
    case Other(_) => Ignored
  }

  // ---------------------------------------------------------------- runs

  predicate Recorded(events: seq<BillingEvent>, id: EventId) {
    exists e <- events :: e.providerEventId == id
  }

  /** What one delivery comes to: a recorded id is answered without being handled. */
  function Reply(s: Store, d: Delivery): Outcome {
    if Recorded(s.events, d.id) then Ignored else Handle(s.rows, d)
  }

  function Step(s: Store, d: Delivery): Store {
    var r := Reply(s, d);
    if r.Applied? then Store(r.rows, s.events + [r.event]) else s
  }

  function Run(s: Store, ds: seq<Delivery>): Store
    decreases |ds|
  {
    if ds == [] then s else Run(Step(s, ds[0]), ds[1..])
  }

  /** The deliveries of a run that took effect, in order. */
  function Effective(s: Store, ds: seq<Delivery>): seq<Delivery>
    decreases |ds|
  {
    if ds == [] then []
    else (if Reply(s, ds[0]).Applied? then [ds[0]] else []) + Effective(Step(s, ds[0]), ds[1..])
  }

  /** Handling the events one after the other, with no look at what is recorded. */
  function Fold(rows: seq<Subscription>, ds: seq<Delivery>): seq<Subscription>
    decreases |ds|
  {
    if ds == [] then rows
    else
      var r := Handle(rows, ds[0]);
      Fold(if r.Applied? then r.rows else rows, ds[1..])
  }

  function Ids(events: seq<BillingEvent>): seq<EventId> {
    seq(|events|, (k: nat) requires k < |events| => events[k].providerEventId)
  }

  function DeliveryIds(ds: seq<Delivery>): seq<EventId> {
    seq(|ds|, (k: nat) requires k < |ds| => ds[k].id)
  }

  lemma RecordedMeansInIds(events: seq<BillingEvent>, id: EventId)
    ensures Recorded(events, id) <==> id in Ids(events)
  {
    if Recorded(events, id) {
      var e :| e in events && e.providerEventId == id;
      var k :| 0 <= k < |events| && events[k] == e;
      assert Ids(events)[k] == id;
    }
    if id in Ids(events) {
      var k :| 0 <= k < |events| && Ids(events)[k] == id;
      assert events[k] in events;
    }
  }

  // ---------------------------------------------------------------- theorems: idempotence

  /** The rows are the fold of the effective deliveries, recorded once each, in that order. */
  lemma {:induction false} SubscriptionsAreTheFold(s: Store, ds: seq<Delivery>)
    ensures Run(s, ds).rows == Fold(s.rows, Effective(s, ds))
    ensures Ids(Run(s, ds).events) == Ids(s.events) + DeliveryIds(Effective(s, ds))
    decreases |ds|
  {
    if ds == [] {
    } else {
      SubscriptionsAreTheFold(Step(s, ds[0]), ds[1..]);
      var rest := Effective(Step(s, ds[0]), ds[1..]);
      if Reply(s, ds[0]).Applied? {
        assert Effective(s, ds) == [ds[0]] + rest;
        assert ([ds[0]] + rest)[1..] == rest;
        assert Ids(Step(s, ds[0]).events) == Ids(s.events) + [ds[0].id];
        assert DeliveryIds([ds[0]] + rest) == [ds[0].id] + DeliveryIds(rest);
      } else {
        assert Effective(s, ds) == rest;
      }
    }
  }

  /** No provider event id is ever recorded twice. */
  lemma {:induction false} RecordedAtMostOnce(s: Store, ds: seq<Delivery>)
    requires Distinct(Ids(s.events))
    ensures Distinct(Ids(Run(s, ds).events)) && Ids(s.events) <= Ids(Run(s, ds).events)
    decreases |ds|
  {
    if ds != [] {
      var t := Step(s, ds[0]);
      if Reply(s, ds[0]).Applied? {
        RecordedMeansInIds(s.events, ds[0].id);
        assert Ids(t.events) == Ids(s.events) + [ds[0].id];
      }
      RecordedAtMostOnce(t, ds[1..]);
    }
  }

  /** Whatever is redelivered under a recorded id, at whatever later time, changes nothing. */
  lemma RedeliveryChangesNothing(s: Store, ds: seq<Delivery>, d: Delivery)
    requires Distinct(Ids(s.events))
    requires d.id in Ids(s.events) || d.id in DeliveryIds(Effective(s, ds))
    ensures Step(Run(s, ds), d) == Run(s, ds)
  {
    SubscriptionsAreTheFold(s, ds);
    RecordedMeansInIds(Run(s, ds).events, d.id);
  }

  /** Dropping everything that took no effect leaves the same rows and the same record. */
  lemma {:induction false} OnlyEffectiveDeliveriesMatter(s: Store, ds: seq<Delivery>)
    ensures Run(s, Effective(s, ds)) == Run(s, ds)
    ensures Effective(s, Effective(s, ds)) == Effective(s, ds)
    decreases |ds|
  {
    if ds != [] {
      var t := Step(s, ds[0]);
      OnlyEffectiveDeliveriesMatter(t, ds[1..]);
      var rest := Effective(t, ds[1..]);
      if Reply(s, ds[0]).Applied? {
        assert Effective(s, ds) == [ds[0]] + rest;
        assert ([ds[0]] + rest)[1..] == rest;
      } else {
        assert Effective(s, ds) == rest;
      }
    }
  }

  /** A delivery is recorded exactly when it takes effect; otherwise the store is as before. */
  lemma RecordedExactlyWhenApplied(s: Store, d: Delivery)
    ensures Reply(s, d).Applied? <==> Step(s, d) != s
    ensures Reply(s, d).Applied? <==> !Recorded(s.events, d.id) && Recorded(Step(s, d).events, d.id)
  {
    RecordedMeansInIds(s.events, d.id);
    RecordedMeansInIds(Step(s, d).events, d.id);
    if Reply(s, d).Applied? {
      assert Step(s, d).events[|s.events|].providerEventId == d.id;
      assert |Step(s, d).events| == |s.events| + 1;
      assert Step(s, d).events[|s.events|] in Step(s, d).events;
    }
  }

  /** An event that was ignored is not recorded: redelivered later, it can still take effect. */
  lemma IgnoredCanLandLater()
    ensures exists s: Store, early: Delivery, checkout: Delivery ::
              && Reply(s, early) == Ignored
              && Reply(Step(Step(s, early), checkout), early).Applied?
  {
    var prices := Prices("", "", "");
    var plans := map[PRO := Plan(1, 4900)];
    var early := Delivery("e1", InvoicePaid(Invoice(Some("sub"), None, None, 4900, 4900)), 10, plans, prices, 1, 0);
    var session := Session(Some("org"), Some("PRO"), Some("sub"), None);
    var checkout := Delivery("e2", CheckoutCompleted(session), 20, plans, prices, 1, 0);
    var s := Store([], []);
    assert Reply(s, early) == Ignored;
    assert Step(s, early) == s;
    var t := Step(s, checkout);
    assert OfOrg(s.rows, "org").None?;
    assert t.rows == [NewRow(checkout, session, "org", 1)];
    assert Carries(t.rows[0], "sub");
    assert !Recorded(t.events, "e1");
    assert Reply(t, early).Applied?;
  }

  // ---------------------------------------------------------------- theorems: what can still land

  function NonEmpty(value: Option<Ref>): Option<Ref> { if Present(value) then value else None }

  /** The provider subscription an event is about, if it names one. */
  function RefOf(p: Payload): Option<Ref> {
    match p
    case InvoicePaid(invoice) => NonEmpty(invoice.subscription)
    case InvoicePaymentFailed(invoice) => NonEmpty(invoice.subscription)
    case SubscriptionUpdated(s) => NonEmpty(Some(s.ref))
    case SubscriptionDeleted(s) => NonEmpty(Some(s.ref))
    case _ => None
  }

  /** An event nobody can ever act on: a checkout lacking metadata, or any other that names no subscription. */
  predicate Hopeless(p: Payload) {
    match p
    case CheckoutCompleted(s) => !Present(s.orgId) || ToPlanName(s.planName).None? || !Present(s.subscription)
    case _ => RefOf(p).None?
  }

  /** The same event again, at whatever time and whatever plans and prices there are by then. */
  predicate Redelivers(d: Delivery, e: Delivery) { e.id == d.id && e.payload == d.payload }

  predicate StaysOut(s: Store, ds: seq<Delivery>, d: Delivery, e: Delivery) {
    Redelivers(d, e) ==> !Reply(Run(s, ds), e).Applied?
  }

  lemma {:induction false} RecordedStays(s: Store, ds: seq<Delivery>, id: EventId)
    requires Recorded(s.events, id)
    ensures Recorded(Run(s, ds).events, id)
    decreases |ds|
  {
    if ds != [] {
      assert forall e <- s.events :: e in Step(s, ds[0]).events;
      RecordedStays(Step(s, ds[0]), ds[1..], id);
    }
  }

  predicate NoneCarriesEmpty(rows: seq<Subscription>) { forall r <- rows :: !Carries(r, "") }

  lemma HandleKeepsRefs(rows: seq<Subscription>, d: Delivery)
    requires NoneCarriesEmpty(rows) && Handle(rows, d).Applied?
    ensures NoneCarriesEmpty(Handle(rows, d).rows)
  {
    var later := Handle(rows, d).rows;
    forall i | 0 <= i < |later| ensures !Carries(later[i], "") {
      if i < |rows| { assert rows[i] in rows; }
    }
  }

  lemma {:induction false} RunKeepsRefs(s: Store, ds: seq<Delivery>)
    requires NoneCarriesEmpty(s.rows)
    ensures NoneCarriesEmpty(Run(s, ds).rows)
    decreases |ds|
  {
    if ds != [] {
      if Reply(s, ds[0]).Applied? { HandleKeepsRefs(s.rows, ds[0]); }
      RunKeepsRefs(Step(s, ds[0]), ds[1..]);
    }
  }

  lemma HopelessStaysOut(s: Store, ds: seq<Delivery>, d: Delivery, e: Delivery)
    requires !Reply(s, d).Applied? && Hopeless(d.payload) && !Recorded(s.events, d.id) && Redelivers(d, e)
    ensures !Reply(Run(s, ds), e).Applied?
  {
    if d.payload.SubscriptionUpdated? || d.payload.SubscriptionDeleted? { RunKeepsRefs(s, ds); }
  }

  /** A checkout that links a new organisation's row to a subscription. */
  function Linking(id: EventId, ref: Ref): Delivery {
    Delivery(id, CheckoutCompleted(Session(Some("org"), Some("PRO"), Some(ref), None)), 0,
             map[PRO := Plan(0, 0)], Prices("", "", ""), 0, 0)
  }

  lemma LinkingLinks(s: Store, id: EventId, ref: Ref)
    requires ref != "" && !Recorded(s.events, id)
    ensures var t := Step(s, Linking(id, ref));
            && (exists r <- t.rows :: Carries(r, ref))
            && |t.events| == |s.events| + 1 && t.events[..|s.events|] == s.events
            && t.events[|s.events|].providerEventId == id
  {
    var d := Linking(id, ref);
    var t := Step(s, d);
    var at := OfOrg(s.rows, "org");
    assert Checkout(s.rows, d, d.payload.session).Applied?;
    assert Carries(t.rows[Or(at, |s.rows|)], ref);
  }

  /** Once its subscription is linked, an event about it takes effect. */
  lemma LandsOnceLinked(s: Store, d: Delivery)
    requires !Recorded(s.events, d.id) && RefOf(d.payload).Some?
    ensures exists ds :: Reply(Run(s, ds), d).Applied?
  {
    var id := UnusedString((set k | 0 <= k < |s.events| :: s.events[k].providerEventId) + {d.id});
    var ref := RefOf(d.payload).value;
    var checkout := Linking(id, ref);
    LinkingLinks(s, id, ref);
    var t := Step(s, checkout);
    assert Run(s, [checkout]) == t;
    assert !Recorded(t.events, d.id);
    assert Handle(t.rows, d).Applied?;
    assert Reply(Run(s, [checkout]), d).Applied?;
  }

  lemma LandsWithAPlan(s: Store, d: Delivery)
    requires !Recorded(s.events, d.id) && d.payload.CheckoutCompleted? && !Hopeless(d.payload)
    ensures exists e :: Redelivers(d, e) && Reply(Run(s, []), e).Applied?
  {
    var name := ToPlanName(d.payload.session.planName).value;
    var e := d.(plans := d.plans[name := Plan(0, 0)]);
    assert Redelivers(d, e) && Reply(Run(s, []), e).Applied?;
  }

  /**
   A delivery that was ignored or refused is not recorded. Redelivered, it never takes effect,
   whatever comes first, exactly when its id is recorded already or nobody can act on it.
   */
  lemma NeverLandsExactly(s: Store, d: Delivery)
    requires !Reply(s, d).Applied?
    ensures (forall ds, e :: StaysOut(s, ds, d, e)) <==> Recorded(s.events, d.id) || Hopeless(d.payload)
  {
    if Recorded(s.events, d.id) {
      forall ds, e ensures StaysOut(s, ds, d, e) { RecordedStays(s, ds, d.id); }
    } else if Hopeless(d.payload) {
      forall ds, e ensures StaysOut(s, ds, d, e) {
        if Redelivers(d, e) { HopelessStaysOut(s, ds, d, e); }
      }
    } else if d.payload.CheckoutCompleted? {
      LandsWithAPlan(s, d);
      var e :| Redelivers(d, e) && Reply(Run(s, []), e).Applied?;
      assert !StaysOut(s, [], d, e);
    } else {
      LandsOnceLinked(s, d);
      var ds :| Reply(Run(s, ds), d).Applied?;
      assert !StaysOut(s, ds, d, d);
    }
  }

  // ---------------------------------------------------------------- theorems: the rows

  predicate OneRowPerOrg(rows: seq<Subscription>) {
    forall i, j :: 0 <= i < j < |rows| ==> rows[i].orgId != rows[j].orgId
  }

  /** Each row keeps its place, its id and its organisation. */
  predicate RowsKeepTheirPlace(rows: seq<Subscription>, later: seq<Subscription>) {
    && |rows| <= |later|
    && forall i :: 0 <= i < |rows| ==> later[i].id == rows[i].id && later[i].orgId == rows[i].orgId
  }

  lemma HandleKeepsRows(rows: seq<Subscription>, d: Delivery)
    requires OneRowPerOrg(rows) && Handle(rows, d).Applied?
    ensures OneRowPerOrg(Handle(rows, d).rows) && RowsKeepTheirPlace(rows, Handle(rows, d).rows)
  {
    match d.payload
    case CheckoutCompleted(session) =>
      var at := OfOrg(rows, session.orgId.value);
      KeepsRows(rows, Or(at, |rows|), Handle(rows, d).rows);
    case InvoicePaid(invoice) =>
      KeepsRows(rows, FindFirst(rows, invoice.subscription.value, d.pick).value, Handle(rows, d).rows);
    case InvoicePaymentFailed(invoice) =>
      KeepsRows(rows, FindFirst(rows, invoice.subscription.value, d.pick).value, Handle(rows, d).rows);
    case SubscriptionUpdated(s) =>
      KeepsRows(rows, FindFirst(rows, s.ref, d.pick).value, Handle(rows, d).rows);
    case SubscriptionDeleted(s) =>
      KeepsRows(rows, FindFirst(rows, s.ref, d.pick).value, Handle(rows, d).rows);
  }

  /** `later` is `rows` with one row replaced under its organisation, or a new organisation's row added. */
  predicate OneRowWritten(rows: seq<Subscription>, at: nat, later: seq<Subscription>) {
    && at < |later|
    && if at < |rows| then
         && later == rows[at := later[at]]
         && later[at].id == rows[at].id && later[at].orgId == rows[at].orgId
       else
         && later == rows + [later[at]]
         && forall s <- rows :: s.orgId != later[at].orgId
  }

  lemma KeepsRows(rows: seq<Subscription>, at: nat, later: seq<Subscription>)
    requires OneRowPerOrg(rows) && OneRowWritten(rows, at, later)
    ensures OneRowPerOrg(later) && RowsKeepTheirPlace(rows, later)
  {}

  /** Over any run an organisation has at most one subscription, and keeps the one it has. */
  lemma {:induction false} OneSubscriptionPerOrg(s: Store, ds: seq<Delivery>)
    requires OneRowPerOrg(s.rows)
    ensures OneRowPerOrg(Run(s, ds).rows) && RowsKeepTheirPlace(s.rows, Run(s, ds).rows)
    decreases |ds|
  {
    if ds != [] {
      if Reply(s, ds[0]).Applied? { HandleKeepsRows(s.rows, ds[0]); }
      OneSubscriptionPerOrg(Step(s, ds[0]), ds[1..]);
    }
  }

  /** A cancellation time goes with CANCELED; only PAST_DUE may carry one as well. */
  predicate Stamped(row: Subscription) {
    && (row.status == CANCELED ==> row.canceledAt.Some?)
    && (row.canceledAt.Some? ==> row.status == CANCELED || row.status == PAST_DUE)
  }

  predicate AllStamped(rows: seq<Subscription>) { forall r <- rows :: Stamped(r) }

  lemma {:induction false} StampsFollowStatus(s: Store, ds: seq<Delivery>)
    requires AllStamped(s.rows)
    ensures AllStamped(Run(s, ds).rows)
    decreases |ds|
  {
    if ds != [] {
      if Reply(s, ds[0]).Applied? { HandleKeepsStamps(s.rows, ds[0]); }
      StampsFollowStatus(Step(s, ds[0]), ds[1..]);
    }
  }

  lemma HandleKeepsStamps(rows: seq<Subscription>, d: Delivery)
    requires AllStamped(rows) && Handle(rows, d).Applied?
    ensures AllStamped(Handle(rows, d).rows)
  {
    var later := Handle(rows, d).rows;
    forall i | 0 <= i < |later| ensures Stamped(later[i]) {
      if i < |rows| { assert rows[i] in rows; }
    }
  }

  /** The row a delivery changes, if it is handled at all; a new row comes after the others. */
  function Touched(rows: seq<Subscription>, d: Delivery): Option<nat> {
    match d.payload
    case CheckoutCompleted(session) =>
      if Checkout(rows, d, session).Applied? then Some(Or(OfOrg(rows, session.orgId.value), |rows|)) else None
    case InvoicePaid(invoice) =>
      if Present(invoice.subscription) then FindFirst(rows, invoice.subscription.value, d.pick) else None
    case InvoicePaymentFailed(invoice) =>
      if Present(invoice.subscription) then FindFirst(rows, invoice.subscription.value, d.pick) else None
    case SubscriptionUpdated(s) => FindFirst(rows, s.ref, d.pick)
    case SubscriptionDeleted(s) => FindFirst(rows, s.ref, d.pick)
    case Other(_) => None
  }

  /** A delivery changes no row but the one it touches. */
  lemma OnlyTheTouchedRowChanges(rows: seq<Subscription>, d: Delivery)
    ensures Handle(rows, d).Applied? <==> Touched(rows, d).Some?
    ensures Handle(rows, d).Applied? ==>
              forall i | 0 <= i < |rows| :: Some(i) != Touched(rows, d) ==> Handle(rows, d).rows[i] == rows[i]
    ensures Handle(rows, d).Applied? ==>
              && Touched(rows, d).value < |Handle(rows, d).rows|
              && Handle(rows, d).event.subscriptionId == Handle(rows, d).rows[Touched(rows, d).value].id
  {}

  predicate SaysCanceled(p: Payload) {
    p.SubscriptionDeleted? || (p.SubscriptionUpdated? && p.subscription.status == "canceled")
  }

  /** Being canceled is not final: a row stays so exactly until some other event touches it. */
  lemma CanceledStaysExactly(rows: seq<Subscription>, d: Delivery, i: nat)
    requires i < |rows| && rows[i].status == CANCELED && Handle(rows, d).Applied?
    ensures Handle(rows, d).rows[i].status == CANCELED <==> Touched(rows, d) != Some(i) || SaysCanceled(d.payload)
  {
    OnlyTheTouchedRowChanges(rows, d);
  }

  /** The period a payload names, in seconds. */
  function NamedPeriod(p: Payload): (Option<int>, Option<int>) {
    match p
    case InvoicePaid(invoice) => (invoice.start, invoice.end)
    case InvoicePaymentFailed(invoice) => (invoice.start, invoice.end)
    case SubscriptionUpdated(s) => (s.start, s.end)
    case SubscriptionDeleted(s) => (s.start, s.end)
    case _ => (None, None)
  }

  function NamedCustomer(p: Payload): Option<Ref> {
    match p
    case CheckoutCompleted(session) => session.customer
    case SubscriptionUpdated(s) => s.customer
    case SubscriptionDeleted(s) => s.customer
    case _ => None
  }

  /** Every way a delivery may change a field of a row that was there. */
  predicate MayBecome(row: Subscription, later: Subscription, d: Delivery) {
    var (start, end) := NamedPeriod(d.payload);
    && later.id == row.id && later.orgId == row.orgId
    // only a checkout links the row to a provider subscription; invoices leave plan, provider and customer alone
    && (later.externalRef != row.externalRef ==>
          d.payload.CheckoutCompleted? && later.externalRef == d.payload.session.subscription)
    && (d.payload.InvoicePaid? || d.payload.InvoicePaymentFailed? ==>
          later.planId == row.planId && later.provider == row.provider)
    && (later.planId != row.planId ==> exists name :: name in d.plans && d.plans[name].id == later.planId)
    && (later.customerRef != row.customerRef ==> later.customerRef == NamedCustomer(d.payload))
    // a period moves only to what the event names
    && (later.periodStart != row.periodStart ==>
          start.Some? && start.value != 0 && later.periodStart == start.value * 1000)
    && (later.periodEnd != row.periodEnd ==> end.Some? && end.value != 0 && later.periodEnd == end.value * 1000)
    // a cancellation time is new only with a cancellation, and goes with every renewal
    && (later.canceledAt != row.canceledAt && later.canceledAt.Some? ==>
          SaysCanceled(d.payload) && later.status == CANCELED)
    && (later.status == ACTIVE && (later != row) ==> later.canceledAt.None?)
  }

  lemma RowsBecomeOnly(rows: seq<Subscription>, d: Delivery, i: nat)
    requires i < |rows| && AllStamped(rows) && Handle(rows, d).Applied?
    ensures i < |Handle(rows, d).rows| && MayBecome(rows[i], Handle(rows, d).rows[i], d)
  {
    OnlyTheTouchedRowChanges(rows, d);
  }

  /** A row that appears is an organisation's first, active for thirty days from the checkout on. */
  lemma NewRowsAreFirst(rows: seq<Subscription>, d: Delivery)
    requires Handle(rows, d).Applied? && |Handle(rows, d).rows| > |rows|
    ensures var row := Handle(rows, d).rows[|rows|];
            && d.payload.CheckoutCompleted? && Some(row.orgId) == d.payload.session.orgId
            && (forall s <- rows :: s.orgId != row.orgId)
            && row.status == ACTIVE && row.canceledAt.None?
            && row.periodStart == d.now && row.periodEnd - row.periodStart == 30 * 24 * 3600 * 1000
            && row.externalRef == d.payload.session.subscription && Present(row.externalRef)
            && |Handle(rows, d).rows| == |rows| + 1
  {}

  // ---------------------------------------------------------------- theorems: what each payload does

  /** The provider's words for a status; a word the service does not know suspends. */
  lemma StatusWords(word: string)
    ensures StatusFrom(word) == ACTIVE <==> word == "active"
    ensures StatusFrom(word) == TRIALING <==> word == "trialing"
    ensures StatusFrom(word) == PAST_DUE <==> word == "past_due" || word == "unpaid"
    ensures StatusFrom(word) == CANCELED <==> word == "canceled"
    ensures StatusFrom(word) == SUSPENDED <==> word !in ["active", "trialing", "past_due", "unpaid", "canceled"]
  {}

  /** The words for a plan; SCALE is an old name of BUSINESS. */
  lemma PlanWords(value: Option<string>)
    ensures ToPlanName(value) == Some(BUSINESS) <==> value == Some("BUSINESS") || value == Some("SCALE")
    ensures ToPlanName(value) == Some(FREE) <==> value == Some("FREE")
    ensures ToPlanName(value) == Some(STARTER) <==> value == Some("STARTER")
    ensures ToPlanName(value) == Some(PRO) <==> value == Some("PRO")
    ensures ToPlanName(value).None? <==>
              value.None? || value.value !in ["BUSINESS", "SCALE", "FREE", "STARTER", "PRO"]
  {}

  /** A price that is configured decides the plan, in the order of the configuration; else the metadata does. */
  lemma PlanByPrice(p: Prices, s: ProviderSubscription)
    ensures var starter := p.starter != "" && s.priceId == Some(p.starter);
            var pro := p.pro != "" && s.priceId == Some(p.pro);
            var business := p.business != "" && s.priceId == Some(p.business);
            && (starter ==> PlanFrom(p, s) == Some(STARTER))
            && (!starter && pro ==> PlanFrom(p, s) == Some(PRO))
            && (!starter && !pro && business ==> PlanFrom(p, s) == Some(BUSINESS))
            && (!starter && !pro && !business ==> PlanFrom(p, s) == ToPlanName(s.planName))
  {}

  /** A time the provider sends, in seconds, or the one the row has when it sends none or zero. */
  predicate Moved(before: Instant, after: Instant, named: Option<int>) {
    after == if named.Some? && named.value != 0 then named.value * 1000 else before
  }

  /** A paid invoice makes its subscription ACTIVE, with no cancellation time, and is recorded as COMPLETED. */
  lemma PaidInvoiceOutcome(rows: seq<Subscription>, d: Delivery, i: nat)
    requires d.payload.InvoicePaid? && Touched(rows, d) == Some(i)
    ensures var r, invoice := Handle(rows, d), d.payload.invoice;
            && r.Applied? && i < |rows| == |r.rows|
            && var row, later := rows[i], r.rows[i];
            && row.externalRef == invoice.subscription
            && later.status == ACTIVE && later.canceledAt == None
            && Moved(row.periodStart, later.periodStart, invoice.start)
            && Moved(row.periodEnd, later.periodEnd, invoice.end)
            && later.planId == row.planId && later.provider == row.provider
            && later.customerRef == row.customerRef && later.externalRef == row.externalRef
            && later.id == row.id && later.orgId == row.orgId
            && r.event == BillingEvent(row.id, d.id, PAYMENT, COMPLETED, invoice.amountPaid)
  {}

  /** A failed one makes it PAST_DUE, leaves a cancellation time alone, and is recorded as FAILED. */
  lemma FailedInvoiceOutcome(rows: seq<Subscription>, d: Delivery, i: nat)
    requires d.payload.InvoicePaymentFailed? && Touched(rows, d) == Some(i)
    ensures var r, invoice := Handle(rows, d), d.payload.invoice;
            && r.Applied? && i < |rows| == |r.rows|
            && var row, later := rows[i], r.rows[i];
            && row.externalRef == invoice.subscription
            && later.status == PAST_DUE && later.canceledAt == row.canceledAt
            && Moved(row.periodStart, later.periodStart, invoice.start)
            && Moved(row.periodEnd, later.periodEnd, invoice.end)
            && later.planId == row.planId && later.provider == row.provider
            && later.customerRef == row.customerRef && later.externalRef == row.externalRef
            && later.id == row.id && later.orgId == row.orgId
            && r.event == BillingEvent(row.id, d.id, PAYMENT, FAILED, invoice.amountDue)
  {}

  /** A checkout leaves its organisation ACTIVE on the plan of its metadata, and a row that was there its period. */
  lemma CheckoutOutcome(rows: seq<Subscription>, d: Delivery, i: nat)
    requires d.payload.CheckoutCompleted? && Touched(rows, d) == Some(i)
    ensures var r, s := Handle(rows, d), d.payload.session;
            && r.Applied? && i < |r.rows| && ToPlanName(s.planName).Some? && ToPlanName(s.planName).value in d.plans
            && var later, plan := r.rows[i], d.plans[ToPlanName(s.planName).value];
            && later.status == ACTIVE && later.canceledAt == None && later.planId == plan.id
            && later.provider == Some(STRIPE) && later.externalRef == s.subscription && s.orgId == Some(later.orgId)
            && r.event == BillingEvent(later.id, d.id, PAYMENT, COMPLETED, plan.priceCents)
            && (i < |rows| ==>
                  && later.id == rows[i].id && later.orgId == rows[i].orgId
                  && later.periodStart == rows[i].periodStart && later.periodEnd == rows[i].periodEnd
                  && later.customerRef == if s.customer.Some? then s.customer else rows[i].customerRef)
            && (i == |rows| ==>
                  && later.id == d.newId && later.customerRef == s.customer
                  && later.periodStart == d.now && later.periodEnd == d.now + 2_592_000_000)
  {}

  /**
   A subscription event brings the row in line: CANCELED after a deletion and otherwise what the
   provider's word names, with a cancellation time exactly when CANCELED.
   */
  lemma SubscriptionOutcome(rows: seq<Subscription>, d: Delivery, i: nat)
    requires d.payload.SubscriptionUpdated? || d.payload.SubscriptionDeleted?
    requires Touched(rows, d) == Some(i)
    ensures var r, s := Handle(rows, d), d.payload.subscription;
            && r.Applied? && i < |rows| == |r.rows|
            && var row, later, plan := rows[i], r.rows[i], PlanFrom(d.prices, s);
            && row.externalRef == Some(s.ref)
            && later.status == (if d.payload.SubscriptionDeleted? then CANCELED else StatusFrom(s.status))
            && (later.status != CANCELED ==> later.canceledAt == None)
            && (later.status == CANCELED ==>
                  later.canceledAt.Some? && Moved(d.now, later.canceledAt.value, s.canceledAt))
            && later.planId == (if plan.Some? && plan.value in d.plans then d.plans[plan.value].id else row.planId)
            && later.provider == Some(STRIPE)
            && later.customerRef == (if s.customer.Some? then s.customer else row.customerRef)
            && Moved(row.periodStart, later.periodStart, s.start) && Moved(row.periodEnd, later.periodEnd, s.end)
            && later.id == row.id && later.orgId == row.orgId && later.externalRef == row.externalRef
            && r.event == BillingEvent(row.id, d.id, ADJUSTMENT, COMPLETED, 0)
  {}

  predicate NotEmpty(value: Option<string>) { value.Some? && |value.value| > 0 }

  /**
   What is handled at all: an invoice or a subscription event when a row carries its reference,
   a checkout with its metadata when the plan exists. Only a checkout is ever refused.
   */
  lemma HandledExactly(rows: seq<Subscription>, d: Delivery)
    ensures var r, p := Handle(rows, d), d.payload;
            && (p.InvoicePaid? || p.InvoicePaymentFailed? ==>
                  !r.Refused? && (r.Applied? <==> NotEmpty(p.invoice.subscription)
                                                  && exists s <- rows :: s.externalRef == p.invoice.subscription))
            && (p.SubscriptionUpdated? || p.SubscriptionDeleted? ==>
                  !r.Refused? && (r.Applied? <==> exists s <- rows :: s.externalRef == Some(p.subscription.ref)))
            && (p.Other? ==> r == Ignored)
            && (p.CheckoutCompleted? ==>
                  var s, plan := p.session, ToPlanName(p.session.planName);
                  && (r == Refused(MissingMetadata) <==>
                        !NotEmpty(s.orgId) || plan.None? || !NotEmpty(s.subscription))
                  && (r == Refused(PlanNotFound) <==>
                        NotEmpty(s.orgId) && plan.Some? && NotEmpty(s.subscription) && plan.value !in d.plans)
                  && (r.Applied? <==>
                        NotEmpty(s.orgId) && plan.Some? && NotEmpty(s.subscription) && plan.value in d.plans))
  {
    match d.payload
    case InvoicePaid(invoice) =>
      assert invoice.subscription.Some? ==>
          forall s <- rows :: Carries(s, invoice.subscription.value) <==> s.externalRef == invoice.subscription;
    case InvoicePaymentFailed(invoice) =>
      assert invoice.subscription.Some? ==>
          forall s <- rows :: Carries(s, invoice.subscription.value) <==> s.externalRef == invoice.subscription;
    case SubscriptionUpdated(p) =>
      assert forall s <- rows :: Carries(s, p.ref) <==> s.externalRef == Some(p.ref);
    case SubscriptionDeleted(p) =>
      assert forall s <- rows :: Carries(s, p.ref) <==> s.externalRef == Some(p.ref);
    case _ =>
  }

  // ---------------------------------------------------------------- theorems: reordering

  function After(rows: seq<Subscription>, d: Delivery): seq<Subscription> {
    var r := Handle(rows, d);
    if r.Applied? then r.rows else rows
  }

  predicate SameRefs(a: seq<Subscription>, b: seq<Subscription>) {
    |a| == |b| && forall i :: 0 <= i < |a| ==> a[i].externalRef == b[i].externalRef
  }

  lemma {:induction false} SameRefsSameLast(a: seq<Subscription>, b: seq<Subscription>, ref: Ref)
    requires SameRefs(a, b)
    ensures LastWith(a, ref) == LastWith(b, ref)
  {
    if a != [] { SameRefsSameLast(a[..|a| - 1], b[..|b| - 1], ref); }
  }

  lemma SameRefsSameTouched(a: seq<Subscription>, b: seq<Subscription>, d: Delivery)
    requires SameRefs(a, b) && !d.payload.CheckoutCompleted?
    ensures Touched(a, d) == Touched(b, d)
  {
    match d.payload
    case InvoicePaid(invoice) =>
      if Present(invoice.subscription) { SameRefsSameLast(a, b, invoice.subscription.value); }
    case InvoicePaymentFailed(invoice) =>
      if Present(invoice.subscription) { SameRefsSameLast(a, b, invoice.subscription.value); }
    case SubscriptionUpdated(s) => SameRefsSameLast(a, b, s.ref);
    case SubscriptionDeleted(s) => SameRefsSameLast(a, b, s.ref);
    case Other(_) =>
  }

  /** What a delivery other than a checkout makes of the row it touches. */
  function Changed(row: Subscription, d: Delivery): Subscription {
    match d.payload
    case CheckoutCompleted(_) => row
    case InvoicePaid(invoice) => Invoiced(row, invoice, true)
    case InvoicePaymentFailed(invoice) => Invoiced(row, invoice, false)
    case SubscriptionUpdated(s) => Synced(row, d, s, false)
    case SubscriptionDeleted(s) => Synced(row, d, s, true)
    case Other(_) => row
  }

  lemma AfterChangesOneRow(rows: seq<Subscription>, d: Delivery)
    requires !d.payload.CheckoutCompleted?
    ensures Touched(rows, d).None? ==> After(rows, d) == rows
    ensures Touched(rows, d).Some? ==>
              && Touched(rows, d).value < |rows|
              && After(rows, d) == rows[Touched(rows, d).value := Changed(rows[Touched(rows, d).value], d)]
    ensures SameRefs(rows, After(rows, d))
  {}

  /** Events about different subscriptions may arrive in either order. */
  lemma DifferentSubscriptionsCommute(rows: seq<Subscription>, d: Delivery, e: Delivery)
    requires !d.payload.CheckoutCompleted? && !e.payload.CheckoutCompleted?
    requires Touched(rows, d).None? || Touched(rows, d) != Touched(rows, e)
    ensures After(After(rows, d), e) == After(After(rows, e), d)
  {
    AfterChangesOneRow(rows, d);
    AfterChangesOneRow(rows, e);
    AfterChangesOneRow(After(rows, d), e);
    AfterChangesOneRow(After(rows, e), d);
    SameRefsSameTouched(rows, After(rows, d), e);
    SameRefsSameTouched(rows, After(rows, e), d);
  }

  // ---------------------------------------------------------------- the service

  class BillingService {
    var rows: seq<Subscription>
    var events: seq<BillingEvent>

    function View(): Store
      reads this
    {
      Store(rows, events)
    }

    /** The effect of an outcome on the store. */
    ghost predicate Became(before: Store, r: Outcome)
      reads this
    {
      View() == if r.Applied? then Store(r.rows, before.events + [r.event]) else before
    }

    /** The transaction of the webhook: a refusal leaves the store as it was. */
    method HandleWebhook(d: Delivery) returns (processed: bool, error: Option<Error>)
      modifies this
      ensures View() == Step(old(View()), d)
      ensures processed <==> Reply(old(View()), d).Applied?
      ensures error == if Reply(old(View()), d).Refused? then Some(Reply(old(View()), d).error) else None
    {
      processed, error := false, None;
      var duplicate := Recorded(events, d.id);
      if duplicate { return; }
      match d.payload
      case CheckoutCompleted(session) => processed, error := ProcessCheckoutCompleted(d, session);
      case InvoicePaid(invoice) => processed := ProcessInvoice(d, invoice, true);
      case InvoicePaymentFailed(invoice) => processed := ProcessInvoice(d, invoice, false);
      case SubscriptionUpdated(s) => processed := ProcessStripeSubscription(d, s, false);
      case SubscriptionDeleted(s) => processed := ProcessStripeSubscription(d, s, true);
      case Other(_) =>
    }

    method ProcessCheckoutCompleted(d: Delivery, s: Session) returns (processed: bool, error: Option<Error>)
      modifies this
      ensures Became(old(View()), Checkout(old(rows), d, s))
      ensures processed <==> Checkout(old(rows), d, s).Applied?
      ensures error == if processed then None else Some(Checkout(old(rows), d, s).error)
    {
      var name := ToPlanName(s.planName);
      if !Present(s.orgId) || name.None? || !Present(s.subscription) { return false, Some(MissingMetadata); }
      if name.value !in d.plans { return false, Some(PlanNotFound); }
      var plan := d.plans[name.value];
      var at := OfOrg(rows, s.orgId.value);
      var row;
      if at.None? {
        row := Subscription(
          d.newId, s.orgId.value, plan.id, ACTIVE, Some(STRIPE), s.customer, s.subscription,
          d.now, d.now + 30 * 86400000, None);
        rows := rows + [row];
      } else {
        row := rows[at.value].(
          planId := plan.id, status := ACTIVE, provider := Some(STRIPE),
          externalRef := s.subscription, canceledAt := None);
        if s.customer.Some? { row := row.(customerRef := s.customer); }
        rows := rows[at.value := row];
      }
      CreateProviderEvent(Record(d, row, PAYMENT, COMPLETED, plan.priceCents));
      return true, None;
    }

    method ProcessInvoice(d: Delivery, invoice: Invoice, paid: bool) returns (processed: bool)
      modifies this
      ensures Became(old(View()), InvoiceOutcome(old(rows), d, invoice, paid))
      ensures processed <==> InvoiceOutcome(old(rows), d, invoice, paid).Applied?
      ensures processed ==>
                && |events| == |old(events)| + 1 && |rows| == |old(rows)|
                && (var event := events[|old(events)|];
                    if paid then event.status == COMPLETED && event.amountCents == invoice.amountPaid
                    else event.status == FAILED && event.amountCents == invoice.amountDue)
                && forall i :: 0 <= i < |rows| && rows[i] != old(rows)[i] ==>
                     if paid then rows[i].status == ACTIVE && rows[i].canceledAt.None?
                     else rows[i].status == PAST_DUE && rows[i].canceledAt == old(rows)[i].canceledAt
    {
      if !Present(invoice.subscription) { return false; }
      var at := FindFirst(rows, invoice.subscription.value, d.pick);
      if at.None? { return false; }
      var row := rows[at.value].(status := if paid then ACTIVE else PAST_DUE);
      var start, end := FromUnix(invoice.start), FromUnix(invoice.end);
      if start.Some? { row := row.(periodStart := start.value); }
      if end.Some? { row := row.(periodEnd := end.value); }
      if paid { row := row.(canceledAt := None); }
      rows := rows[at.value := row];
      var amount := if paid then invoice.amountPaid else invoice.amountDue;
      CreateProviderEvent(Record(d, row, PAYMENT, if paid then COMPLETED else FAILED, amount));
      return true;
    }

    method ProcessStripeSubscription(d: Delivery, s: ProviderSubscription, deleted: bool) returns (processed: bool)
      modifies this
      ensures Became(old(View()), SyncOutcome(old(rows), d, s, deleted))
      ensures processed <==> SyncOutcome(old(rows), d, s, deleted).Applied?
    {
      var at := FindFirst(rows, s.ref, d.pick);
      if at.None? { return false; }
      var status := if deleted then CANCELED else StatusFrom(s.status);
      var row := rows[at.value].(status := status, provider := Some(STRIPE));
      var name := PlanFrom(d.prices, s);
      if name.Some? && name.value in d.plans { row := row.(planId := d.plans[name.value].id); }
      if s.customer.Some? { row := row.(customerRef := s.customer); }
      var start, end := FromUnix(s.start), FromUnix(s.end);
      if start.Some? { row := row.(periodStart := start.value); }
      if end.Some? { row := row.(periodEnd := end.value); }
      if status == CANCELED {
        var canceled := FromUnix(s.canceledAt);
        row := row.(canceledAt := Some(if canceled.Some? then canceled.value else d.now));
      } else {
        row := row.(canceledAt := None);
      }
      rows := rows[at.value := row];
      CreateProviderEvent(Record(d, row, ADJUSTMENT, COMPLETED, 0));
      return true;
    }

    method CreateProviderEvent(event: BillingEvent)
      modifies this`events
      ensures events == old(events) + [event]
    {
      events := events + [event];
    }
  }
}
