/** The local mirror of Stripe subscriptions. A row is rebuilt from two event streams, the subscription's
    and its schedule's, which Stripe delivers in any relative order; a few requests write it as well. */
module SubscriptionMirror {
  import opened Options
  import opened OrgData
  import Text

  // ------------------------------------------------------------------ rows and payloads

  /** Rows are keyed by Stripe subscription id. Times are Unix epochs. */
  datatype Row = Row(
    customer: nat, user: Option<nat>, status: SubscriptionStatus, plan: nat, seatLimit: int,
    trialEndsAt: Option<int>, periodStart: int, periodEnd: int, canceledAt: Option<int>, cancelAt: Option<int>,
    scheduledPlan: Option<nat>, scheduledAt: Option<int>, currency: string, createdAt: int)

  datatype Customer = Customer(user: Option<nat>, org: Option<nat>)

  /** What the webhook handlers look up: customers by Stripe id, plan ids by Stripe price id. */
  datatype Catalog = Catalog(customerIds: map<string, nat>, customers: map<nat, Customer>, prices: map<string, nat>)

  /** A JSON field that ought to be an integer. */
  datatype Field = Absent | Null | Number(value: int) | Malformed

  datatype Item = Item(
    price: string, priceCurrency: Option<string>, quantity: Option<int>, periodStart: Field, periodEnd: Field)

  /** `status` is None when the payload's word is no known status. */
  datatype SubData = SubData(
    id: string, customer: string, items: seq<Item>, periodStart: Field, periodEnd: Field,
    status: Option<SubscriptionStatus>, trialEnd: Option<int>, canceledAt: Option<int>, cancelAt: Option<int>,
    currency: Option<string>)

  /** A phase item names its price by id or holds the expanded price object. */
  datatype PriceRef = Bare(id: Option<string>) | Expanded(id: Option<string>)

  datatype Phase = Phase(items: seq<PriceRef>, startDate: Option<int>, endDate: Option<int>)

  datatype ScheduleData = ScheduleData(subscription: Option<string>, phases: seq<Phase>)

  datatype State = State(catalog: Catalog, rows: map<string, Row>, canceledOrgs: seq<nat>)

  datatype Event =
    | SubscriptionChanged(data: SubData, now: int)
    | SubscriptionDeleted(id: string, now: int)
    | ScheduleChanged(schedule: ScheduleData)
    | ScheduleCleared(subscription: Option<string>)
    | ReleasePending(customer: nat, picked: string)
    | MirrorCancelState(customer: nat, picked: string, status: Option<SubscriptionStatus>,
                        cancelAt: Option<int>, canceledAt: Option<int>)
    | SeatUpdate(id: string, seats: int)

  // ------------------------------------------------------------------ subscription events

  /** `first_item.get(f, sub_data.get(f))`: a null on the item is not replaced by the subscription's value. */
  function ItemFirst(item: Field, sub: Field): Option<int> {
    match item
    case Number(n) => Some(n)
    case Absent => if sub.Number? then Some(sub.value) else None
    case _ => None
  }

  /** One of the two places holds an integer. */
  predicate Findable(item: Field, sub: Field) { item.Number? || sub.Number? }

  /** The item's value is no integer, and the subscription's integer is not consulted. */
  predicate PassesOver(item: Field, sub: Field) { (item.Null? || item.Malformed?) && sub.Number? }

  /** The reader means to fail only when neither place yields an integer. Exactly when it does more: when a null
      or a non-integer on the item hides the subscription's integer. */
  lemma ItemFirstFindsIff(item: Field, sub: Field)
    ensures (ItemFirst(item, sub).Some? <==> Findable(item, sub)) <==> !PassesOver(item, sub)
    ensures ItemFirst(item, sub).Some? ==> Findable(item, sub)
  {
  }

  predicate Truthy(s: Option<string>) { s.Some? && s.value != "" }

  function Currency(sub: Option<string>, price: Option<string>): string {
    Text.Lower(if Truthy(sub) then sub.value else if Truthy(price) then price.value else "usd")
  }

  /** `int(quantity or 1)`. */
  function Seats(quantity: Option<int>): int { if quantity.Some? && quantity.value != 0 then quantity.value else 1 }

  /** The payload resolves: an item, both period bounds, a known customer, price and status. */
  predicate Resolves(catalog: Catalog, data: SubData) {
    && data.items != []
    && ItemFirst(data.items[0].periodStart, data.periodStart).Some?
    && ItemFirst(data.items[0].periodEnd, data.periodEnd).Some?
    && data.customer in catalog.customerIds && catalog.customerIds[data.customer] in catalog.customers
    && data.items[0].price in catalog.prices
    && data.status.Some?
  }

  /** `_build_subscription_row`. */
  function BuildRow(catalog: Catalog, data: SubData, existing: Option<Row>, now: int): Row
    requires Resolves(catalog, data)
  {
    var item, customer := data.items[0], catalog.customerIds[data.customer];
    Row(customer, catalog.customers[customer].user, data.status.value, catalog.prices[item.price], Seats(item.quantity),
        data.trialEnd, ItemFirst(item.periodStart, data.periodStart).value,
        ItemFirst(item.periodEnd, data.periodEnd).value,
        data.canceledAt, data.cancelAt,
        if existing.Some? then existing.value.scheduledPlan else None,
        if existing.Some? then existing.value.scheduledAt else None,
        Currency(data.currency, item.priceCurrency),
        if existing.Some? then existing.value.createdAt else now)
  }

  function Existing(rows: map<string, Row>, id: string): Option<Row> { if id in rows then Some(rows[id]) else None }

  function ChangedStep(s: State, data: SubData, now: int): State {
    if Resolves(s.catalog, data)
    then s.(rows := s.rows[data.id := BuildRow(s.catalog, data, Existing(s.rows, data.id), now)]) else s
  }

  /** The org to delete when this subscription ends. */
  function DispatchedOrg(catalog: Catalog, row: Row): seq<nat> {
    if row.user == None && row.customer in catalog.customers && catalog.customers[row.customer].org.Some?
    then [catalog.customers[row.customer].org.value] else []
  }

  function DeletedStep(s: State, id: string, now: int): State {
    if id !in s.rows then s
    else s.(rows := s.rows[id := s.rows[id].(status := Canceled, canceledAt := Some(now))],
            canceledOrgs := s.canceledOrgs + DispatchedOrg(s.catalog, s.rows[id]))
  }

  /** A payload with a null bound on its item changes nothing, although the subscription has the bound; the same
      payload without the field goes through and mirrors that bound. */
  lemma NullBoundFails(s: State, data: SubData, now: int)
    requires |data.items| == 1 && data.items[0].periodEnd == Null && data.periodEnd.Number?
    requires Resolves(s.catalog, data.(items := [data.items[0].(periodEnd := Absent)]))
    ensures !Resolves(s.catalog, data) && ChangedStep(s, data, now) == s
    ensures var after := ChangedStep(s, data.(items := [data.items[0].(periodEnd := Absent)]), now);
            data.id in after.rows && after.rows[data.id].periodEnd == data.periodEnd.value
  {
  }

  // ------------------------------------------------------------------ schedule events

  /** `end_date or start_date`: a zero counts as missing. */
  function Boundary(current: Phase, next: Phase): Option<int> {
    if current.endDate.Some? && current.endDate.value != 0 then current.endDate else next.startDate
  }

  /** `_parse_schedule_pending_change`: the next price and the moment of the change. */
  function ParsePending(data: ScheduleData): Option<(string, int)> {
    if |data.phases| < 2 then None
    else
      var next := data.phases[1];
      if next.items == [] || !Truthy(next.items[0].id) then None
      else
        var at := Boundary(data.phases[0], next);
        if at == None then None else Some((next.items[0].id.value, at.value))
  }

  datatype PendingChange = PendingChange(plan: Option<nat>, at: Option<int>)

  function ChangeOf(row: Row): PendingChange { PendingChange(row.scheduledPlan, row.scheduledAt) }

  function WithChange(row: Row, p: PendingChange): Row { row.(scheduledPlan := p.plan, scheduledAt := p.at) }

  /** What a schedule event makes of the row `id`, if it concerns that row and parses. */
  function Effect(catalog: Catalog, e: Event, id: string): Option<PendingChange> {
    match e
    case ScheduleChanged(data) =>
      if data.subscription != Some(id) || id == "" then None
      else
        var p := ParsePending(data);
        if p == None || p.value.0 !in catalog.prices then None
        else Some(PendingChange(Some(catalog.prices[p.value.0]), Some(p.value.1)))
    case ScheduleCleared(subscription) =>
      if subscription != Some(id) || id == "" then None else Some(PendingChange(None, None))
    case _ => None
  }

  function ScheduleStep(s: State, e: Event, subscription: Option<string>): State {
    if subscription == None || subscription.value !in s.rows then s
    else
      var id := subscription.value;
      var effect := Effect(s.catalog, e, id);
      if effect == None then s else s.(rows := s.rows[id := WithChange(s.rows[id], effect.value)])
  }

  // ------------------------------------------------------------------ requests

  /** `get_active_for_customer`: an active row of the customer, the latest if there are several. */
  predicate IsLatestActive(rows: map<string, Row>, customer: nat, id: string) {
    id in rows && rows[id].customer == customer && IsActive(rows[id].status)
    && forall j | j in rows && rows[j].customer == customer && IsActive(rows[j].status) ::
         rows[j].createdAt <= rows[id].createdAt
  }

  function CancelState(row: Row, status: Option<SubscriptionStatus>, cancelAt: Option<int>,
                       canceledAt: Option<int>): Row {
    row.(cancelAt := cancelAt, canceledAt := canceledAt, status := if status.Some? then status.value else row.status)
  }

  function Apply(s: State, e: Event): State {
    match e
    case SubscriptionChanged(data, now) => ChangedStep(s, data, now)
    case SubscriptionDeleted(id, now) => DeletedStep(s, id, now)
    case ScheduleChanged(data) => ScheduleStep(s, e, data.subscription)
    case ScheduleCleared(subscription) => ScheduleStep(s, e, subscription)
    case ReleasePending(customer, picked) =>
      if IsLatestActive(s.rows, customer, picked)
      then s.(rows := s.rows[picked := WithChange(s.rows[picked], PendingChange(None, None))]) else s
    case MirrorCancelState(customer, picked, status, cancelAt, canceledAt) =>
      if IsLatestActive(s.rows, customer, picked)
      then s.(rows := s.rows[picked := CancelState(s.rows[picked], status, cancelAt, canceledAt)]) else s
    case SeatUpdate(id, seats) =>
      if id in s.rows && seats >= 1 then s.(rows := s.rows[id := s.rows[id].(seatLimit := seats)]) else s
  }

  function Run(s: State, events: seq<Event>): State
    decreases events
  {
    if events == [] then s else Run(Apply(s, events[0]), events[1..])
  }

  predicate OfSubscription(e: Event) { e.SubscriptionChanged? || e.SubscriptionDeleted? }

  predicate OfSchedule(e: Event) { e.ScheduleChanged? || e.ScheduleCleared? }

  /** Only what Stripe delivers. */
  predicate Webhooks(events: seq<Event>) {
    forall i | 0 <= i < |events| :: OfSubscription(events[i]) || OfSchedule(events[i])
  }

  function OnlySubscription(events: seq<Event>): seq<Event> {
    if events == [] then []
    else (if OfSubscription(events[0]) then [events[0]] else []) + OnlySubscription(events[1..])
  }

  function OnlySchedule(events: seq<Event>): seq<Event> {
    if events == [] then []
    else (if OfSchedule(events[0]) then [events[0]] else []) + OnlySchedule(events[1..])
  }

  // ------------------------------------------------------------------ the two streams do not interfere

  /** The two states agree on everything but the pending plan change of rows. */
  predicate SameButPending(s: State, t: State) {
    && s.catalog == t.catalog && s.canceledOrgs == t.canceledOrgs && s.rows.Keys == t.rows.Keys
    && forall id | id in s.rows :: s.rows[id] == WithChange(t.rows[id], ChangeOf(s.rows[id]))
  }

  lemma SubscriptionStepSimulates(s: State, t: State, e: Event)
    requires SameButPending(s, t) && OfSubscription(e)
    ensures SameButPending(Apply(s, e), Apply(t, e))
  {
    hide Resolves, ItemFirst, Seats, Currency;
  }

  lemma ScheduleStepIsInvisible(s: State, e: Event)
    requires OfSchedule(e)
    ensures SameButPending(Apply(s, e), s)
  {
    hide Effect;
  }

  lemma SameTransitive(s: State, t: State, u: State)
    requires SameButPending(s, t) && SameButPending(t, u)
    ensures SameButPending(s, u)
  {
  }

  /** Schedule events change nothing the subscription stream decides, dispatched org deletions included. */
  lemma {:induction false} SubscriptionStreamDecides(s: State, t: State, events: seq<Event>)
    requires SameButPending(s, t) && Webhooks(events)
    ensures SameButPending(Run(s, events), Run(t, OnlySubscription(events)))
    decreases events
  {
    hide SameButPending, Apply;
    if events != [] {
      var e, rest := events[0], events[1..];
      if OfSubscription(e) {
        SubscriptionStepSimulates(s, t, e);
        SubscriptionStreamDecides(Apply(s, e), Apply(t, e), rest);
        assert OnlySubscription(events)[0] == e && OnlySubscription(events)[1..] == OnlySubscription(rest);
      } else {
        ScheduleStepIsInvisible(s, e);
        SameTransitive(Apply(s, e), s, t);
        SubscriptionStreamDecides(Apply(s, e), t, rest);
        assert OnlySubscription(events) == OnlySubscription(rest);
      }
    }
  }

  function Overlay(p: PendingChange, effect: Option<PendingChange>): PendingChange {
    if effect.Some? then effect.value else p
  }

  /** The pending change after a run of events, in closed form: what the last effective schedule event says. */
  function LastEffect(catalog: Catalog, events: seq<Event>, id: string, first: PendingChange): PendingChange {
    if events == [] then first
    else
      Overlay(LastEffect(catalog, events[..|events| - 1], id, first), Effect(catalog, events[|events| - 1], id))
  }

  lemma {:induction false} LastEffectStep(catalog: Catalog, events: seq<Event>, id: string, first: PendingChange)
    requires events != []
    ensures LastEffect(catalog, events, id, first)
         == LastEffect(catalog, events[1..], id, Overlay(first, Effect(catalog, events[0], id)))
    decreases |events|
  {
    hide Effect;
    if |events| > 1 {
      var n := |events| - 1;
      assert events[1..][|events[1..]| - 1] == events[n];
      assert events[1..][..n - 1] == events[..n][1..];
      LastEffectStep(catalog, events[..n], id, first);
    } else {
      assert events[..0] == [] && events[1..] == [];
    }
  }

  lemma StepMovesPending(s: State, e: Event, id: string)
    requires id in s.rows && (OfSubscription(e) || OfSchedule(e))
    ensures id in Apply(s, e).rows && Apply(s, e).catalog == s.catalog
    ensures ChangeOf(Apply(s, e).rows[id]) == Overlay(ChangeOf(s.rows[id]), Effect(s.catalog, e, id))
  {
    hide Resolves, ItemFirst, Seats, Currency, ParsePending;
  }

  /** The pending change of an existing row is what the last effective schedule event said, whatever
      subscription events came before, after or in between. */
  lemma {:induction false} PendingIsLastEffect(s: State, events: seq<Event>, id: string)
    requires id in s.rows && Webhooks(events)
    ensures id in Run(s, events).rows
    ensures ChangeOf(Run(s, events).rows[id]) == LastEffect(s.catalog, events, id, ChangeOf(s.rows[id]))
    decreases events
  {
    hide Effect, Apply, ChangeOf;
    if events != [] {
      StepMovesPending(s, events[0], id);
      LastEffectStep(s.catalog, events, id, ChangeOf(s.rows[id]));
      PendingIsLastEffect(Apply(s, events[0]), events[1..], id);
    }
  }

  lemma {:induction false} ScheduleStreamDecides(catalog: Catalog, events: seq<Event>, id: string, first: PendingChange)
    requires Webhooks(events)
    ensures LastEffect(catalog, OnlySchedule(events), id, first) == LastEffect(catalog, events, id, first)
    ensures Webhooks(OnlySchedule(events))
    decreases events
  {
    hide ParsePending;
    if events != [] {
      var e, rest := events[0], events[1..];
      LastEffectStep(catalog, events, id, first);
      ScheduleStreamDecides(catalog, rest, id, Overlay(first, Effect(catalog, e, id)));
      if OfSchedule(e) {
        LastEffectStep(catalog, OnlySchedule(events), id, first);
        assert OnlySchedule(events)[1..] == OnlySchedule(rest);
      } else {
        assert OnlySchedule(events) == OnlySchedule(rest);
      }
    }
  }

  /** The row after any interleaving of the two streams is put together from two independent runs, one per
      stream: everything but the pending change from the subscription events alone, and the pending
      change from the schedule events alone. */
  lemma StreamsAreIndependent(s: State, events: seq<Event>, id: string)
    requires id in s.rows && Webhooks(events)
    ensures id in Run(s, events).rows
    ensures id in Run(s, OnlySubscription(events)).rows && id in Run(s, OnlySchedule(events)).rows
    ensures Run(s, events).rows[id]
         == WithChange(Run(s, OnlySubscription(events)).rows[id], ChangeOf(Run(s, OnlySchedule(events)).rows[id]))
    ensures Run(s, events).canceledOrgs == Run(s, OnlySubscription(events)).canceledOrgs
  {
    hide Run, LastEffect;
    PendingIsLastEffect(s, events, id);
    ScheduleStreamDecides(s.catalog, events, id, ChangeOf(s.rows[id]));
    PendingIsLastEffect(s, OnlySchedule(events), id);
    SubscriptionStreamDecides(s, s, events);
  }

  /** Two deliveries that keep the order within each stream end in the same row. */
  lemma RelativeOrderIrrelevant(s: State, events: seq<Event>, events': seq<Event>, id: string)
    requires id in s.rows && Webhooks(events) && Webhooks(events')
    requires OnlySubscription(events) == OnlySubscription(events') && OnlySchedule(events) == OnlySchedule(events')
    ensures id in Run(s, events).rows && id in Run(s, events').rows
    ensures Run(s, events).rows[id] == Run(s, events').rows[id]
    ensures Run(s, events).canceledOrgs == Run(s, events').canceledOrgs
  {
    StreamsAreIndependent(s, events, id);
    StreamsAreIndependent(s, events', id);
  }

  /** The subscription event creates the row that the schedule event announces a plan change for. */
  predicate CreatesTheRow(s: State, e: Event, f: Event) {
    e.SubscriptionChanged? && e.data.id !in s.rows && Resolves(s.catalog, e.data)
    && f.ScheduleChanged? && Effect(s.catalog, f, e.data.id).Some?
  }

  /** A schedule event sets the pending change of one row, or does nothing. */
  lemma ScheduleSets(s: State, f: Event)
    requires OfSchedule(f)
    ensures var id := if f.ScheduleChanged? then f.schedule.subscription else f.subscription;
            Apply(s, f) == if id.Some? && id.value in s.rows && Effect(s.catalog, f, id.value).Some?
                           then SetChange(s, id.value, Effect(s.catalog, f, id.value).value) else s
  {
    hide ParsePending;
  }

  function SetChange(s: State, id: string, p: PendingChange): State
    requires id in s.rows
  {
    s.(rows := s.rows[id := WithChange(s.rows[id], p)])
  }

  lemma EffectsApart(catalog: Catalog, f: Event, id: string)
    requires OfSchedule(f) && Effect(catalog, f, id).Some?
    ensures (if f.ScheduleChanged? then f.schedule.subscription else f.subscription) == Some(id)
    ensures f.ScheduleChanged? ==> Effect(catalog, f, id).value.plan.Some?
    ensures f.ScheduleCleared? ==> Effect(catalog, f, id).value == PendingChange(None, None)
  {
    hide ParsePending;
  }

  lemma ChangedSwapIff(s: State, e: Event, f: Event)
    requires e.SubscriptionChanged? && OfSchedule(f)
    ensures Apply(Apply(s, e), f) == Apply(Apply(s, f), e) <==> !CreatesTheRow(s, e, f)
  {
    var id, target := e.data.id, if f.ScheduleChanged? then f.schedule.subscription else f.subscription;
    ScheduleSets(s, f);
    ScheduleSets(Apply(s, e), f);
    if target.Some? && Effect(s.catalog, f, target.value).Some? { EffectsApart(s.catalog, f, target.value); }
    if Effect(s.catalog, f, id).Some? { EffectsApart(s.catalog, f, id); }
    hide Resolves, ItemFirst, Seats, Currency, Effect;
    var ef, fe := Apply(Apply(s, e), f), Apply(Apply(s, f), e);
    if CreatesTheRow(s, e, f) {
      assert ef.rows[id].scheduledPlan.Some? && fe.rows[id].scheduledPlan == None;
    } else {
      assert ef.rows == fe.rows;
    }
  }

  lemma DeletedSwaps(s: State, e: Event, f: Event)
    requires e.SubscriptionDeleted? && OfSchedule(f)
    ensures Apply(Apply(s, e), f) == Apply(Apply(s, f), e)
  {
    ScheduleSets(s, f);
    ScheduleSets(Apply(s, e), f);
    hide Effect;
    assert Apply(Apply(s, e), f).rows == Apply(Apply(s, f), e).rows;
  }

  /** Exactly when a subscription event and a schedule event may not be swapped: the subscription event
      creates the row and the schedule event announces a plan change for it. Deletions swap with all. */
  lemma SwapIff(s: State, e: Event, f: Event)
    requires OfSubscription(e) && OfSchedule(f)
    ensures Apply(Apply(s, e), f) == Apply(Apply(s, f), e) <==> !CreatesTheRow(s, e, f)
  {
    hide Apply, Resolves, Effect;
    if e.SubscriptionChanged? { ChangedSwapIff(s, e, f); } else { DeletedSwaps(s, e, f); }
  }

  /** Replaying a subscription or schedule event changes nothing further. */
  lemma ReplayChangesNoRow(s: State, e: Event)
    requires OfSubscription(e) || OfSchedule(e)
    ensures Apply(Apply(s, e), e).rows == Apply(s, e).rows
  {
    hide Resolves, ItemFirst, Seats, Currency, ParsePending;
  }

  // ------------------------------------------------------------------ both or neither

  /** The scheduled plan and its date are both null or both set. */
  predicate Paired(rows: map<string, Row>) {
    forall id | id in rows :: rows[id].scheduledPlan.Some? <==> rows[id].scheduledAt.Some?
  }

  lemma StepKeepsPaired(s: State, e: Event)
    requires Paired(s.rows)
    ensures Paired(Apply(s, e).rows)
  {
    hide Resolves, ItemFirst, Seats, Currency, ParsePending;
  }

  /** Across all writers of the mirror. */
  lemma {:induction false} RunKeepsPaired(s: State, events: seq<Event>)
    requires Paired(s.rows)
    ensures Paired(Run(s, events).rows)
    decreases events
  {
    hide Apply, Paired;
    if events != [] {
      StepKeepsPaired(s, events[0]);
      RunKeepsPaired(Apply(s, events[0]), events[1..]);
    }
  }

  /** No payload of the run has a negative quantity. */
  predicate NoNegativeQuantity(events: seq<Event>) {
    forall i | 0 <= i < |events| && events[i].SubscriptionChanged? && events[i].data.items != [] ::
      match events[i].data.items[0].quantity case None => true case Some(n) => n >= 0
  }

  predicate Seated(rows: map<string, Row>) { forall id | id in rows :: rows[id].seatLimit >= 1 }

  /** A row never shows fewer than one seat, whatever writes it: a missing or zero quantity counts as one, and a seat
      change below one is not written. */
  lemma {:induction false} RunKeepsASeat(s: State, events: seq<Event>)
    requires NoNegativeQuantity(events) && Seated(s.rows)
    ensures Seated(Run(s, events).rows)
    decreases events
  {
    hide Apply, Seated;
    if events != [] {
      assert NoNegativeQuantity([events[0]]) by { assert [events[0]][0] == events[0]; }
      StepKeepsASeat(s, events[0]);
      assert forall i | 0 <= i < |events| - 1 :: events[1..][i] == events[i + 1];
      RunKeepsASeat(Apply(s, events[0]), events[1..]);
    }
  }

  lemma StepKeepsASeat(s: State, e: Event)
    requires NoNegativeQuantity([e]) && Seated(s.rows)
    ensures Seated(Apply(s, e).rows)
  {
    assert [e][0] == e;
    hide ItemFirst, Currency, Effect;
  }

  // ------------------------------------------------------------------ the last upsert decides

  /** When the subscription stream ends with an upsert that resolves, nothing older shows in the row but
      its age and the pending change; deletions before it leave no trace. */
  lemma LastUpsertDecides(s: State, events: seq<Event>, data: SubData, now: int)
    requires data.id in s.rows && Webhooks(events) && Resolves(s.catalog, data)
    requires OnlySubscription(events) != []
             && OnlySubscription(events)[|OnlySubscription(events)| - 1] == SubscriptionChanged(data, now)
    ensures data.id in Run(s, events).rows
    ensures Run(s, events).rows[data.id]
         == WithChange(BuildRow(s.catalog, data, Some(s.rows[data.id]), now),
                       LastEffect(s.catalog, events, data.id, ChangeOf(s.rows[data.id])))
  {
    hide Apply, LastEffect, Resolves, BuildRow;
    var only := OnlySubscription(events);
    var n := |only| - 1;
    assert only == only[..n] + [only[n]];
    RunAppend(s, only[..n], only[n]);
    OnlyWebhooks(events);
    KeepsAge(s, only[..n], data.id);
    BuildKeeps(s.catalog, data, Run(s, only[..n]).rows[data.id], s.rows[data.id], now);
    StreamsAreIndependent(s, events, data.id);
    PendingIsLastEffect(s, events, data.id);
    ChangedSets(Run(s, only[..n]), data, now);
  }

  lemma ChangedSets(s: State, data: SubData, now: int)
    requires Resolves(s.catalog, data)
    ensures data.id in Apply(s, SubscriptionChanged(data, now)).rows
    ensures Apply(s, SubscriptionChanged(data, now)).rows[data.id]
         == BuildRow(s.catalog, data, Existing(s.rows, data.id), now)
  {
  }

  lemma BuildKeeps(catalog: Catalog, data: SubData, row: Row, row': Row, now: int)
    requires Resolves(catalog, data) && row.createdAt == row'.createdAt
    ensures BuildRow(catalog, data, Some(row), now)
         == WithChange(BuildRow(catalog, data, Some(row'), now), ChangeOf(row))
  {
  }

  lemma {:induction false} RunAppend(s: State, events: seq<Event>, e: Event)
    ensures Run(s, events + [e]) == Apply(Run(s, events), e)
    decreases events
  {
    hide Apply;
    if events == [] {
      assert [] + [e] == [e] && [e][1..] == [];
      assert Run(s, [e]) == Run(Apply(s, e), []);
    } else {
      assert (events + [e])[0] == events[0] && (events + [e])[1..] == events[1..] + [e];
      RunAppend(Apply(s, events[0]), events[1..], e);
    }
  }

  lemma {:induction false} OnlyWebhooks(events: seq<Event>)
    ensures Webhooks(OnlySubscription(events))
    ensures forall i | 0 <= i < |OnlySubscription(events)| :: OfSubscription(OnlySubscription(events)[i])
  {
    if events != [] { OnlyWebhooks(events[1..]); }
  }

  /** Webhooks never lose a row, nor change its age or the catalog. */
  lemma {:induction false} KeepsAge(s: State, events: seq<Event>, id: string)
    requires id in s.rows
    requires forall i | 0 <= i < |events| :: OfSubscription(events[i])
    ensures id in Run(s, events).rows && Run(s, events).rows[id].createdAt == s.rows[id].createdAt
    ensures Run(s, events).catalog == s.catalog
    decreases events
  {
    hide Resolves, ItemFirst, Seats, Currency, ParsePending;
    if events != [] { KeepsAge(Apply(s, events[0]), events[1..], id); }
  }

  // ------------------------------------------------------------------ what the row then says

  /** Which updates take effect: those with a line item, an integer for each bound where it is looked for, a known
      customer, price and status. */
  lemma ResolvesIff(catalog: Catalog, data: SubData)
    ensures Resolves(catalog, data) <==>
              && |data.items| > 0
              && (var item := data.items[0];
                  && (item.periodStart.Number? || (item.periodStart.Absent? && data.periodStart.Number?))
                  && (item.periodEnd.Number? || (item.periodEnd.Absent? && data.periodEnd.Number?))
                  && item.price in catalog.prices)
              && data.customer in catalog.customerIds && catalog.customerIds[data.customer] in catalog.customers
              && data.status.Some?
    ensures !Resolves(catalog, data) ==>
              forall s: State, now | s.catalog == catalog :: Apply(s, SubscriptionChanged(data, now)) == s
  {
  }

  /** After an update that takes effect the row mirrors the payload, field by field. A missing or zero quantity is
      one seat; the currency is the subscription's, else the price's, else dollars. */
  lemma RowMirrorsPayload(s: State, data: SubData, now: int)
    requires Resolves(s.catalog, data)
    ensures var after := Apply(s, SubscriptionChanged(data, now));
            && data.id in after.rows && data.items != []
            && (var row, item := after.rows[data.id], data.items[0];
                && data.customer in s.catalog.customerIds && row.customer == s.catalog.customerIds[data.customer]
                && row.customer in s.catalog.customers && row.user == s.catalog.customers[row.customer].user
                && Some(row.status) == data.status
                && item.price in s.catalog.prices && row.plan == s.catalog.prices[item.price]
                && (item.quantity.Some? && item.quantity.value != 0 ==> row.seatLimit == item.quantity.value)
                && (item.quantity == None || item.quantity == Some(0) ==> row.seatLimit == 1)
                && row.trialEndsAt == data.trialEnd
                && row.periodStart
                   == (if item.periodStart.Number? then item.periodStart.value else data.periodStart.value)
                && row.periodEnd
                   == (if item.periodEnd.Number? then item.periodEnd.value else data.periodEnd.value)
                && row.canceledAt == data.canceledAt && row.cancelAt == data.cancelAt
                && MirrorsCurrency(row.currency, data.currency, item.priceCurrency)
                && row.createdAt == if data.id in s.rows then s.rows[data.id].createdAt else now)
            && (forall id | id in s.rows && id != data.id :: id in after.rows && after.rows[id] == s.rows[id])
  {
    CurrencyMeans(data.currency, data.items[0].priceCurrency);
    hide Currency, MirrorsCurrency;
  }

  lemma CurrencyMeans(sub: Option<string>, price: Option<string>)
    ensures MirrorsCurrency(Currency(sub, price), sub, price)
  {
    assert "usd"[1..] == "sd" && "sd"[1..] == "d" && "d"[1..] == "";
    assert Text.Lower("d") == "d" && Text.Lower("sd") == "sd" && Text.Lower("usd") == "usd";
  }

  predicate MirrorsCurrency(currency: string, sub: Option<string>, price: Option<string>) {
    && (sub.Some? && sub.value != "" ==> currency == Text.Lower(sub.value))
    && (sub in {None, Some("")} && price.Some? && price.value != "" ==> currency == Text.Lower(price.value))
    && (sub in {None, Some("")} && price in {None, Some("")} ==> currency == "usd")
  }

  /** What a cancel or resume request writes is what the later event confirms: with the same status and times, the
      event leaves these fields as they are. */
  lemma EventConfirmsCancel(s: State, customer: nat, status: SubscriptionStatus, data: SubData, now: int)
    requires IsLatestActive(s.rows, customer, data.id) && Resolves(s.catalog, data) && data.status == Some(status)
    ensures var written := Apply(s, MirrorCancelState(customer, data.id, Some(status), data.cancelAt, data.canceledAt));
            var confirmed := Apply(written, SubscriptionChanged(data, now));
            && data.id in written.rows && data.id in confirmed.rows
            && (var w, c := written.rows[data.id], confirmed.rows[data.id];
                && w.status == c.status == status && w.cancelAt == c.cancelAt == data.cancelAt
                && w.canceledAt == c.canceledAt == data.canceledAt
                && w == s.rows[data.id].(status := status, cancelAt := data.cancelAt, canceledAt := data.canceledAt))
  {
    hide ItemFirst, Seats, Currency;
  }

  /** The same for a seat change. */
  lemma EventConfirmsSeats(s: State, seats: int, data: SubData, now: int)
    requires data.id in s.rows && seats >= 1 && Resolves(s.catalog, data) && data.items[0].quantity == Some(seats)
    ensures var written := Apply(s, SeatUpdate(data.id, seats));
            var confirmed := Apply(written, SubscriptionChanged(data, now));
            data.id in written.rows && data.id in confirmed.rows
            && written.rows[data.id] == s.rows[data.id].(seatLimit := seats)
            && confirmed.rows[data.id].seatLimit == seats
  {
    hide ItemFirst, Currency;
  }

  /** And for a plan kept: when the clearing event comes, the row is as the request left it. */
  lemma EventConfirmsRelease(s: State, customer: nat, id: string)
    requires IsLatestActive(s.rows, customer, id) && id != ""
    ensures var written := Apply(s, ReleasePending(customer, id));
            id in written.rows && written.rows[id].scheduledPlan == None && written.rows[id].scheduledAt == None
            && Apply(written, ScheduleCleared(Some(id))) == written
  {
    var written := Apply(s, ReleasePending(customer, id));
    assert WithChange(written.rows[id], PendingChange(None, None)) == written.rows[id];
    assert written.rows[id := written.rows[id]] == written.rows;
  }

  /** What the two-phase payload of a schedule announces: the first item of the second phase, at the end of the first
      phase, or at the start of the second if that end is missing or zero. */
  lemma ParsedMeans(data: ScheduleData, price: string, at: int)
    ensures ParsePending(data) == Some((price, at)) <==>
              && |data.phases| >= 2 && |data.phases[1].items| > 0 && price != ""
              && data.phases[1].items[0].id == Some(price)
              && (if data.phases[0].endDate.Some? && data.phases[0].endDate != Some(0)
                  then data.phases[0].endDate == Some(at) else data.phases[1].startDate == Some(at))
  {
  }

  /** A deletion ends the subscription, and dispatches the org of its customer exactly if it is a team's. */
  lemma DeletionEnds(s: State, id: string, now: int)
    ensures id !in s.rows ==> Apply(s, SubscriptionDeleted(id, now)) == s
    ensures id in s.rows ==>
              var after := Apply(s, SubscriptionDeleted(id, now));
              && id in after.rows && after.rows[id].status == Canceled && after.rows[id].canceledAt == Some(now)
              && (forall customer :: !IsLatestActive(after.rows, customer, id))
              && after.rows[id] == s.rows[id].(status := Canceled, canceledAt := Some(now))
              && after.rows == s.rows[id := after.rows[id]]
              && (forall o :: after.canceledOrgs == s.canceledOrgs + [o] <==>
                    s.rows[id].user == None && s.rows[id].customer in s.catalog.customers
                    && s.catalog.customers[s.rows[id].customer].org == Some(o))
              && (after.canceledOrgs == s.canceledOrgs
                  || exists o :: after.canceledOrgs == s.canceledOrgs + [o])
  {
    if id in s.rows {
      var sent := DispatchedOrg(s.catalog, s.rows[id]);
      assert s.canceledOrgs + [] == s.canceledOrgs;
      forall o ensures s.canceledOrgs + sent == s.canceledOrgs + [o] <==> sent == [o] {
        if s.canceledOrgs + sent == s.canceledOrgs + [o] {
          assert sent == (s.canceledOrgs + sent)[|s.canceledOrgs|..];
          assert [o] == (s.canceledOrgs + [o])[|s.canceledOrgs|..];
        }
      }
      if sent != [] { assert sent == [sent[0]]; }
    }
  }

  /** From update to deletion: a subscription synced for a customer takes the customer's org along when it ends, and
      a personal one takes nothing. A customer belongs to a user or to an org. */
  lemma EndOfSyncedSubscription(s: State, data: SubData, now: int, later: int)
    requires Resolves(s.catalog, data)
    requires var customer := s.catalog.customers[s.catalog.customerIds[data.customer]];
             customer.user.Some? != customer.org.Some?
    ensures var ended := Apply(Apply(s, SubscriptionChanged(data, now)), SubscriptionDeleted(data.id, later));
            var customer := s.catalog.customers[s.catalog.customerIds[data.customer]];
            ended.canceledOrgs == s.canceledOrgs + if customer.org.Some? then [customer.org.value] else []
  {
    hide ItemFirst, Seats, Currency;
  }

  // ------------------------------------------------------------------ the handlers

  /** `_extract_period_window`; None when a bound is missing or no integer. */
  method ExtractPeriodWindow(data: SubData, item: Item) returns (window: Option<(int, int)>)
    ensures window.Some? <==> ItemFirst(item.periodStart, data.periodStart).Some?
                              && ItemFirst(item.periodEnd, data.periodEnd).Some?
    ensures window.Some? ==> Some(window.value.0) == ItemFirst(item.periodStart, data.periodStart)
                             && Some(window.value.1) == ItemFirst(item.periodEnd, data.periodEnd)
    ensures window.Some? ==> Findable(item.periodStart, data.periodStart) && Findable(item.periodEnd, data.periodEnd)
    ensures Findable(item.periodStart, data.periodStart) && Findable(item.periodEnd, data.periodEnd) ==>
              (window == None
               <==> PassesOver(item.periodStart, data.periodStart) || PassesOver(item.periodEnd, data.periodEnd))
  {
    var start := if item.periodStart.Absent? then data.periodStart else item.periodStart;
    var end := if item.periodEnd.Absent? then data.periodEnd else item.periodEnd;
    if start.Absent? || start.Null? || end.Absent? || end.Null? {
      return None;
    }
    if !start.Number? || !end.Number? {
      return None;
    }
    window := Some((start.value, end.value));
  }

  /** `_parse_schedule_pending_change`, step by step. */
  method ParseSchedulePendingChange(data: ScheduleData) returns (pending: Option<(string, int)>)
    ensures pending == ParsePending(data)
  {
    if |data.phases| < 2 {
      return None;
    }
    var current, next := data.phases[0], data.phases[1];
    if |next.items| == 0 {
      return None;
    }
    var priceId := match next.items[0] case Expanded(id) => id case Bare(id) => id;
    if priceId == None || priceId.value == "" {
      return None;
    }
    var changeAt := current.endDate;
    if changeAt == None || changeAt.value == 0 {
      changeAt := next.startDate;
    }
    if changeAt == None {
      return None;
    }
    pending := Some((priceId.value, changeAt.value));
  }

  class Mirror {
    const catalog: Catalog
    var rows: map<string, Row>
    var canceledOrgs: seq<nat>

    constructor (catalog: Catalog)
      ensures this.catalog == catalog && rows == map[] && canceledOrgs == []
    {
      this.catalog := catalog;
      rows, canceledOrgs := map[], [];
    }

    function Contents(): State
      reads this
    {
      State(catalog, rows, canceledOrgs)
    }

    /** `sync_subscription_from_data`; false when the event fails. */
    method SyncSubscriptionFromData(data: SubData, now: int) returns (ok: bool)
      modifies this`rows
      ensures ok <==> Resolves(catalog, data)
      ensures Contents() == Apply(old(Contents()), SubscriptionChanged(data, now))
    {
      hide ItemFirst;
      if data.items == [] {
        return false;
      }
      var item := data.items[0];
      var window := ExtractPeriodWindow(data, item);
      if window == None {
        return false;
      }
      if data.customer !in catalog.customerIds || catalog.customerIds[data.customer] !in catalog.customers {
        return false;
      }
      if item.price !in catalog.prices {
        return false;
      }
      if data.status == None {
        return false;
      }
      var customer := catalog.customerIds[data.customer];
      var seats := 1;
      if item.quantity.Some? && item.quantity.value != 0 {
        seats := item.quantity.value;
      }
      var word := "usd";
      if Truthy(data.currency) {
        word := data.currency.value;
      } else if Truthy(item.priceCurrency) {
        word := item.priceCurrency.value;
      }
      var row := Row(
        customer := customer, user := catalog.customers[customer].user, status := data.status.value,
        plan := catalog.prices[item.price], seatLimit := seats, trialEndsAt := data.trialEnd,
        periodStart := window.value.0, periodEnd := window.value.1,
        canceledAt := data.canceledAt, cancelAt := data.cancelAt,
        scheduledPlan := None, scheduledAt := None, currency := Text.Lower(word), createdAt := now);
      if data.id in rows {
        var existing := rows[data.id];
        row := row.(scheduledPlan := existing.scheduledPlan, scheduledAt := existing.scheduledAt,
                    createdAt := existing.createdAt);
      }
      rows := rows[data.id := row];
      ok := true;
    }

    method OnSubscriptionDeleted(id: string, now: int)
      modifies this
      ensures Contents() == Apply(old(Contents()), SubscriptionDeleted(id, now))
    {
      if id !in rows {
        return;
      }
      var existing := rows[id];
      rows := rows[id := existing.(status := Canceled, canceledAt := Some(now))];
      if existing.user == None && existing.customer in catalog.customers {
        var customer := catalog.customers[existing.customer];
        if customer.org.Some? {
          canceledOrgs := canceledOrgs + [customer.org.value];
        }
      }
    }

    /** The row is saved only when the pending change is news. */
    method OnSubscriptionScheduleUpserted(data: ScheduleData)
      modifies this`rows
      ensures Contents() == Apply(old(Contents()), ScheduleChanged(data))
    {
      hide ParsePending;
      if !Truthy(data.subscription) {
        return;
      }
      var pending := ParseSchedulePendingChange(data);
      if pending == None {
        return;
      }
      if pending.value.0 !in catalog.prices {
        return;
      }
      var id, plan, at := data.subscription.value, Some(catalog.prices[pending.value.0]), Some(pending.value.1);
      if id !in rows {
        return;
      }
      if rows[id].scheduledPlan == plan && rows[id].scheduledAt == at {
        assert rows[id := WithChange(rows[id], PendingChange(plan, at))] == rows;
        return;
      }
      rows := rows[id := rows[id].(scheduledPlan := plan, scheduledAt := at)];
    }

    method OnSubscriptionScheduleCleared(subscription: Option<string>)
      modifies this`rows
      ensures Contents() == Apply(old(Contents()), ScheduleCleared(subscription))
    {
      if !Truthy(subscription) {
        return;
      }
      ClearPending(subscription.value);
    }

    /** Both fields go to null, unless they are already. */
    method ClearPending(id: string)
      modifies this`rows
      ensures rows == if id in old(rows) then old(rows)[id := WithChange(old(rows)[id], PendingChange(None, None))]
                      else old(rows)
    {
      if id !in rows {
        return;
      }
      if rows[id].scheduledPlan == None && rows[id].scheduledAt == None {
        assert rows[id := WithChange(rows[id], PendingChange(None, None))] == rows;
        return;
      }
      rows := rows[id := rows[id].(scheduledPlan := None, scheduledAt := None)];
    }

    /** The customer's active row, the latest of several; which of two equally old ones is left open. */
    method GetActiveForCustomer(customer: nat) returns (picked: Option<string>)
      ensures picked.Some? ==> IsLatestActive(rows, customer, picked.value)
      ensures picked == None ==> forall id | id in rows :: !(rows[id].customer == customer && IsActive(rows[id].status))
    {
      picked := None;
      var left := rows.Keys;
      while left != {}
        invariant left <= rows.Keys
        invariant picked.Some? ==> picked.value in rows && rows[picked.value].customer == customer
                                   && IsActive(rows[picked.value].status)
        invariant forall id | id in rows && id !in left && rows[id].customer == customer && IsActive(rows[id].status) ::
          picked.Some? && rows[id].createdAt <= rows[picked.value].createdAt
        decreases |left|
      {
        var id :| id in left;
        left := left - {id};
        if rows[id].customer == customer && IsActive(rows[id].status)
           && (picked == None || rows[picked.value].createdAt < rows[id].createdAt) {
          picked := Some(id);
        }
      }
    }

    /** Reports no row when the customer has no active subscription. */
    method ReleasePendingScheduleForCustomer(customer: nat) returns (picked: Option<string>)
      modifies this`rows
      ensures picked == None ==> rows == old(rows)
      ensures picked.Some? ==> IsLatestActive(old(rows), customer, picked.value)
      ensures picked.Some? ==> Contents() == Apply(old(Contents()), ReleasePending(customer, picked.value))
      ensures picked.Some? <==>
                exists id :: id in old(rows) && old(rows)[id].customer == customer && IsActive(old(rows)[id].status)
    {
      picked := GetActiveForCustomer(customer);
      if picked.Some? {
        ClearPending(picked.value);
      }
    }

    /** What a seat change writes back; it refuses fewer than one seat. */
    method MirrorSeatCount(id: string, seats: int) returns (ok: bool)
      requires id in rows
      modifies this`rows
      ensures ok <==> seats >= 1
      ensures Contents() == Apply(old(Contents()), SeatUpdate(id, seats))
    {
      if seats < 1 {
        return false;
      }
      if rows[id].seatLimit != seats {
        rows := rows[id := rows[id].(seatLimit := seats)];
      } else {
        assert rows[id := rows[id].(seatLimit := seats)] == rows;
      }
      ok := true;
    }

    /** What cancel and resume write back from Stripe's answer. */
    method MirrorCancelStateFromStripe(customer: nat, status: Option<SubscriptionStatus>,
                                       cancelAt: Option<int>, canceledAt: Option<int>)
      returns (picked: Option<string>)
      modifies this`rows
      ensures picked == None ==> rows == old(rows)
      ensures picked.Some? ==> IsLatestActive(old(rows), customer, picked.value)
      ensures picked.Some? ==>
                Contents() == Apply(old(Contents()),
                                    MirrorCancelState(customer, picked.value, status, cancelAt, canceledAt))
      ensures picked.Some? <==>
                exists id :: id in old(rows) && old(rows)[id].customer == customer && IsActive(old(rows)[id].status)
    {
      picked := GetActiveForCustomer(customer);
      if picked.Some? {
        var row := rows[picked.value].(cancelAt := cancelAt, canceledAt := canceledAt);
        if status.Some? {
          row := row.(status := status.value);
        }
        rows := rows[picked.value := row];
      }
    }
  }
}
