/** Plan changes under Stripe's rules for schedule-pinned subscriptions: `change_plan` and the calls it makes. */
module StripeSchedule {
  import opened Options
  import opened SubscriptionMirror
  import Text

  // ------------------------------------------------------------------ one subscription, as values

  /** `amount` is the price's `unit_amount`, which tiered prices lack. */
  datatype Price = Price(amount: Option<int>, currency: string)

  datatype SchedulePhase = SchedulePhase(price: string, quantity: int, start: int, end: Option<int>)

  /** The period bounds may sit on the item or on the subscription. `pinned` holds the phases of the
      schedule that owns the subscription, if one does; `canceling` tells of a queued cancellation. */
  datatype Sub = Sub(price: string, quantity: Option<int>, itemStart: Field, itemEnd: Field,
                     subStart: Field, subEnd: Field, canceling: bool, pinned: Option<seq<SchedulePhase>>)

  datatype Failure = MissingPeriod | UnknownPrice | CurrencyMismatch | Rejected | Pinned | NotFound

  datatype Outcome = Deferred | Applied | Failed(why: Failure)

  /** A call of `change_plan`. `delivered` is false when the last request to Stripe fails for a reason of its
      own: the network, or a rejection that nothing below names. */
  datatype Change = Change(newPrice: string, newAmount: Option<int>, quantity: Option<int>, delivered: bool)

  /** `_read_period_field`: here a null on the item does fall back to the subscription. */
  function ReadPeriod(item: Field, sub: Field): Option<int> {
    match item
    case Number(n) => Some(n)
    case Malformed => None
    case _ => if sub.Number? then Some(sub.value) else None
  }

  /** This reader means to fail only when neither place has an integer. Exactly when it does more: when a
      non-integer on the item hides the subscription's integer. */
  lemma ReadPeriodFindsIff(item: Field, sub: Field)
    ensures (ReadPeriod(item, sub).Some? <==> Findable(item, sub)) <==> !(item.Malformed? && sub.Number?)
    ensures ReadPeriod(item, sub).Some? ==> Findable(item, sub)
  {
  }

  /** Exactly when the webhook handler and the plan change read the same bound. */
  lemma ReadersAgreeIff(item: Field, sub: Field)
    ensures ItemFirst(item, sub) == ReadPeriod(item, sub) <==> !(item.Null? && sub.Number?)
  {
  }

  function CurrentQuantity(s: Sub): int { if s.quantity.Some? then s.quantity.value else 1 }

  function WantedQuantity(s: Sub, c: Change): int { if c.quantity.Some? then c.quantity.value else CurrentQuantity(s) }

  /** To Stripe, a schedule's phases must share one currency, and a subscription keeps its currency for life. */
  predicate SameCurrency(a: Price, b: Price) { Text.Lower(a.currency) == Text.Lower(b.currency) }

  /** The guard of the deferred path: a price without a currency is let through. */
  predicate CurrenciesClash(a: Price, b: Price) { a.currency != "" && b.currency != "" && !SameCurrency(a, b) }

  /** The caller named an amount, the current price has one, and the named one is smaller. */
  predicate IsDowngrade(prices: map<string, Price>, s: Sub, c: Change) {
    s.price in prices && c.newAmount.Some? && prices[s.price].amount.Some?
    && c.newAmount.value < prices[s.price].amount.value
  }

  /** Both period bounds can be read. */
  predicate Readable(s: Sub) { ReadPeriod(s.itemEnd, s.subEnd).Some? && ReadPeriod(s.itemStart, s.subStart).Some? }

  /** The guards of the deferred path let the call through to Stripe. */
  predicate Schedulable(prices: map<string, Price>, s: Sub, c: Change) {
    s.price in prices && Readable(s) && c.newPrice in prices && !CurrenciesClash(prices[s.price], prices[c.newPrice])
  }

  /** ... and Stripe carries the phases out. */
  predicate Accepted(prices: map<string, Price>, s: Sub, c: Change) {
    Schedulable(prices, s, c) && SameCurrency(prices[s.price], prices[c.newPrice]) && c.delivered
  }

  /** The schedule Stripe makes of a subscription as it is. */
  function OnePhase(s: Sub): seq<SchedulePhase>
    requires Readable(s)
  {
    [SchedulePhase(s.price, CurrentQuantity(s), ReadPeriod(s.itemStart, s.subStart).value,
                   Some(ReadPeriod(s.itemEnd, s.subEnd).value))]
  }

  function TwoPhases(s: Sub, newPrice: string, quantity: int): seq<SchedulePhase>
    requires Readable(s)
  {
    var start, end := ReadPeriod(s.itemStart, s.subStart).value, ReadPeriod(s.itemEnd, s.subEnd).value;
    [SchedulePhase(s.price, quantity, start, Some(end)), SchedulePhase(newPrice, quantity, end, None)]
  }

  /** A schedule's current phase is what the subscription is on. */
  function OnSchedule(s: Sub, phases: seq<SchedulePhase>): Sub
    requires phases != []
  {
    s.(price := phases[0].price, quantity := Some(phases[0].quantity), pinned := Some(phases))
  }

  /** `SubscriptionSchedule.create`, unless a schedule is there already. */
  function Promoted(s: Sub): Sub
    requires Readable(s)
  {
    if s.pinned.Some? then s else s.(pinned := Some(OnePhase(s)))
  }

  function DeferStep(prices: map<string, Price>, s: Sub, newPrice: string, quantity: int, delivered: bool)
    : (Sub, Outcome)
    requires s.price in prices
  {
    if !Readable(s) then (s, Failed(MissingPeriod))
    else if newPrice !in prices then (s, Failed(UnknownPrice))
    else if CurrenciesClash(prices[s.price], prices[newPrice]) then (s, Failed(CurrencyMismatch))
    else if !SameCurrency(prices[s.price], prices[newPrice]) then (Promoted(s), Failed(CurrencyMismatch))
    else if !delivered then (Promoted(s), Failed(Rejected))
    else (OnSchedule(s, TwoPhases(s, newPrice, quantity)), Deferred)
  }

  /** The answer to an item change of a subscription nothing pins. */
  function Answer(prices: map<string, Price>, current: string, newPrice: string, delivered: bool): Outcome
    requires current in prices
  {
    if newPrice !in prices then Failed(UnknownPrice)
    else if !SameCurrency(prices[current], prices[newPrice]) then Failed(CurrencyMismatch)
    else if !delivered then Failed(Rejected)
    else Applied
  }

  function ImmediateStep(prices: map<string, Price>, s: Sub, newPrice: string, quantity: int, delivered: bool)
    : (Sub, Outcome)
    requires s.price in prices
  {
    var free, answer := s.(pinned := None), Answer(prices, s.price, newPrice, delivered);
    (if answer == Applied then free.(price := newPrice, quantity := Some(quantity)) else free, answer)
  }

  /** What a call of `change_plan` does. */
  function ChangePlanStep(prices: map<string, Price>, s: Sub, c: Change): (r: (Sub, Outcome))
    requires s.price in prices
    ensures r.0.price in prices
  {
    if IsDowngrade(prices, s, c) then DeferStep(prices, s, c.newPrice, WantedQuantity(s, c), c.delivered)
    else ImmediateStep(prices, s, c.newPrice, WantedQuantity(s, c), c.delivered)
  }

  function RunChanges(prices: map<string, Price>, s: Sub, changes: seq<Change>): (r: Sub)
    requires s.price in prices
    ensures r.price in prices
    decreases changes
  {
    if changes == [] then s else RunChanges(prices, ChangePlanStep(prices, s, changes[0]).0, changes[1..])
  }

  // ------------------------------------------------------------------ what a change leaves behind

  /** A deferred change: two phases that meet at the period end, the current price before and the new one
      after it, the same quantity throughout; and it is a downgrade within one currency. */
  lemma DeferredShape(prices: map<string, Price>, s: Sub, c: Change)
    requires s.price in prices
    ensures var r := ChangePlanStep(prices, s, c);
            r.1 == Deferred ==>
              && r.0.price == s.price && r.0.pinned.Some? && |r.0.pinned.value| == 2
              && (var now, later := r.0.pinned.value[0], r.0.pinned.value[1];
                  && now.end == Some(later.start) == ReadPeriod(s.itemEnd, s.subEnd)
                  && ReadPeriod(s.itemStart, s.subStart) == Some(now.start) && later.end == None
                  && now.price == s.price && later.price == c.newPrice && c.newPrice in prices
                  && now.quantity == later.quantity == WantedQuantity(s, c) == CurrentQuantity(r.0)
                  && c.newAmount.Some? && prices[s.price].amount.Some?
                  && c.newAmount.value < prices[s.price].amount.value
                  && SameCurrency(prices[now.price], prices[later.price]))
  {
  }

  /** An applied change leaves no schedule, moves to the new price and keeps the seats unless told otherwise. */
  lemma AppliedShape(prices: map<string, Price>, s: Sub, c: Change)
    requires s.price in prices
    ensures var r := ChangePlanStep(prices, s, c);
            r.1 == Applied ==> r.0.pinned == None && r.0.price == c.newPrice && c.newPrice in prices
                               && CurrentQuantity(r.0) == WantedQuantity(s, c)
                               && SameCurrency(prices[s.price], prices[c.newPrice])
  {
  }

  /** Exactly when a failed change leaves the subscription as it was. An immediate one has by then released the
      schedule, so a pending downgrade is lost; a deferred one whose last request fails has by then created the
      schedule, so the subscription stays pinned by the present phase alone. */
  lemma FailureUnchangedIff(prices: map<string, Price>, s: Sub, c: Change)
    requires s.price in prices && ChangePlanStep(prices, s, c).1.Failed?
    ensures ChangePlanStep(prices, s, c).0 == s
            <==> if IsDowngrade(prices, s, c) then s.pinned.Some? || !Schedulable(prices, s, c) else s.pinned == None
    ensures ChangePlanStep(prices, s, c).0 != s ==>
              ChangePlanStep(prices, s, c).0 ==
                s.(pinned := if IsDowngrade(prices, s, c) && Readable(s) then Some(OnePhase(s)) else None)
  {
  }

  /** The amounts decide. A call that names less than the current price waits for the period end: it never takes
      effect at once, and the current price and a schedule in force survive it, whatever else it names. Any other call
      never defers. */
  lemma AmountsDecide(prices: map<string, Price>, s: Sub, c: Change)
    requires s.price in prices
    ensures var r, less := ChangePlanStep(prices, s, c),
                  (exists named, current :: c.newAmount == Some(named) && prices[s.price].amount == Some(current)
                                            && named < current);
            && (less ==> r.1 != Applied && r.0.price == s.price && (s.pinned.Some? ==> r.0.pinned.Some?))
            && (!less ==> r.1 != Deferred && r.0.pinned == None)
  {
    hide ReadPeriod, SameCurrency, CurrenciesClash;
  }

  /** Exactly when a call goes through: deferred, if it names less, both bounds can be read, Stripe knows the new price
      in the same currency and carries the request out; applied, if it does not name less, under the last two. */
  lemma GoesThroughIff(prices: map<string, Price>, s: Sub, c: Change)
    requires s.price in prices
    ensures var r := ChangePlanStep(prices, s, c);
            var less := c.newAmount.Some? && prices[s.price].amount.Some?
                        && c.newAmount.value < prices[s.price].amount.value;
            var carried := c.newPrice in prices && c.delivered
                           && Text.Lower(prices[s.price].currency) == Text.Lower(prices[c.newPrice].currency);
            && (r.1 == Applied <==> !less && carried)
            && (r.1 == Deferred <==>
                  less && carried
                  && (s.itemEnd.Number? || (!s.itemEnd.Malformed? && s.subEnd.Number?))
                  && (s.itemStart.Number? || (!s.itemStart.Malformed? && s.subStart.Number?)))
  {
  }

  /** Why a call fails. Immediate: an unknown price, else another currency, else Stripe's own reason. Deferred: an
      unreadable bound comes before all of these. */
  lemma FailureReads(prices: map<string, Price>, s: Sub, c: Change)
    requires s.price in prices
    ensures var r := ChangePlanStep(prices, s, c).1;
            var bounds := ReadPeriod(s.itemEnd, s.subEnd).Some? && ReadPeriod(s.itemStart, s.subStart).Some?;
            var unreadable := IsDowngrade(prices, s, c) && !bounds;
            var known := c.newPrice in prices;
            var same := known && Text.Lower(prices[s.price].currency) == Text.Lower(prices[c.newPrice].currency);
            && (r == Failed(MissingPeriod) <==> unreadable)
            && (r == Failed(UnknownPrice) <==> !unreadable && !known)
            && (r == Failed(CurrencyMismatch) <==> !unreadable && known && !same)
            && (r == Failed(Rejected) <==> !unreadable && known && same && !c.delivered)
            && r != Failed(Pinned) && r != Failed(NotFound)
  {
    hide ReadPeriod;
  }

  /** The seats of a call that goes through: the number named, else the number there was, else one; and a deferred one
      has them in both phases. */
  lemma SeatsCarried(prices: map<string, Price>, s: Sub, c: Change)
    requires s.price in prices
    ensures var r := ChangePlanStep(prices, s, c);
            var seats := match c.quantity case Some(n) => n case None =>
                           (match s.quantity case Some(n) => n case None => 1);
            && (r.1 == Applied || r.1 == Deferred ==> r.0.quantity == Some(seats))
            && (r.1 == Deferred ==>
                  r.0.pinned.Some? && forall i | 0 <= i < |r.0.pinned.value| :: r.0.pinned.value[i].quantity == seats)
  {
    hide ReadPeriod, SameCurrency, CurrenciesClash;
  }

  /** The schedule that a deferred change leaves when its last request fails: the present price and seats up to the
      period end, and nothing after. */
  lemma PresentPhase(s: Sub)
    requires Readable(s)
    ensures |OnePhase(s)| == 1
            && OnePhase(s)[0].price == s.price && Some(OnePhase(s)[0].start) == ReadPeriod(s.itemStart, s.subStart)
            && OnePhase(s)[0].end == ReadPeriod(s.itemEnd, s.subEnd)
            && OnePhase(s)[0].quantity == if s.quantity.Some? then s.quantity.value else 1
  {
  }

  /** A null bound on the item: the webhook handler drops the event, while the plan change goes ahead with the
      bound of the subscription. */
  lemma NullBoundDefers(prices: map<string, Price>, s: Sub, c: Change)
    requires IsDowngrade(prices, s, c) && Accepted(prices, s, c) && s.itemEnd == Null
    ensures ItemFirst(s.itemEnd, s.subEnd) == None && s.subEnd.Number?
    ensures var r := ChangePlanStep(prices, s, c);
            r.1 == Deferred && r.0.pinned.Some? && |r.0.pinned.value| == 2
            && r.0.pinned.value[1].start == s.subEnd.value
  {
  }

  /** The two agree on everything but a pending schedule; an unknown quantity counts as one seat. */
  predicate SameButPinned(s: Sub, t: Sub) {
    s == t.(pinned := s.pinned, quantity := s.quantity) && CurrentQuantity(s) == CurrentQuantity(t)
  }

  /** Price, seats and phases: what a subscriber sees. */
  predicate SameView(s: Sub, t: Sub) { SameButPinned(s, t) && s.pinned == t.pinned }

  /** A downgrade that does not name a quantity moves nothing but the schedule. */
  predicate PlainDowngrade(prices: map<string, Price>, s: Sub, c: Change) {
    IsDowngrade(prices, s, c) && c.quantity == None
  }

  /** The schedule after a run of such calls, in closed form: the phases of the last one Stripe accepted, else the
      schedule there was, else the single phase left by a call that got no further than the create. */
  function LastPinned(prices: map<string, Price>, s: Sub, changes: seq<Change>): Option<seq<SchedulePhase>> {
    if changes == [] then s.pinned
    else
      var last, before := changes[|changes| - 1], LastPinned(prices, s, changes[..|changes| - 1]);
      if Accepted(prices, s, last) then Some(TwoPhases(s, last.newPrice, WantedQuantity(s, last)))
      else if before == None && Schedulable(prices, s, last) then Some(OnePhase(s))
      else before
  }

  lemma {:induction false} RunAppendChange(prices: map<string, Price>, s: Sub, changes: seq<Change>, c: Change)
    requires s.price in prices
    ensures RunChanges(prices, s, changes + [c]) == ChangePlanStep(prices, RunChanges(prices, s, changes), c).0
    decreases changes
  {
    hide ChangePlanStep;
    if changes == [] {
      assert [] + [c] == [c] && [c][1..] == [];
      assert RunChanges(prices, s, [c]) == RunChanges(prices, ChangePlanStep(prices, s, c).0, []);
    } else {
      assert (changes + [c])[0] == changes[0] && (changes + [c])[1..] == changes[1..] + [c];
      RunAppendChange(prices, ChangePlanStep(prices, s, changes[0]).0, changes[1..], c);
    }
  }

  /** The guards look at nothing a plain downgrade moves. */
  lemma SameGuards(prices: map<string, Price>, s: Sub, t: Sub, c: Change)
    requires SameButPinned(t, s)
    ensures IsDowngrade(prices, t, c) <==> IsDowngrade(prices, s, c)
    ensures Schedulable(prices, t, c) <==> Schedulable(prices, s, c)
    ensures Accepted(prices, t, c) <==> Accepted(prices, s, c)
    ensures Readable(t) <==> Readable(s)
    ensures Readable(s) ==> OnePhase(t) == OnePhase(s) && forall p, q :: TwoPhases(t, p, q) == TwoPhases(s, p, q)
    ensures WantedQuantity(t, c) == WantedQuantity(s, c)
  {
    hide ReadPeriod, CurrenciesClash, SameCurrency;
  }

  lemma DowngradeMoves(prices: map<string, Price>, s: Sub, c: Change)
    requires PlainDowngrade(prices, s, c)
    ensures SameButPinned(ChangePlanStep(prices, s, c).0, s)
    ensures ChangePlanStep(prices, s, c).0.pinned ==
              if Accepted(prices, s, c) then Some(TwoPhases(s, c.newPrice, WantedQuantity(s, c)))
              else if s.pinned == None && Schedulable(prices, s, c) then Some(OnePhase(s))
              else s.pinned
  {
    hide ReadPeriod, CurrenciesClash, SameCurrency;
  }

  lemma {:induction false} RunPinned(prices: map<string, Price>, s: Sub, changes: seq<Change>)
    requires s.price in prices
    requires forall i | 0 <= i < |changes| :: PlainDowngrade(prices, s, changes[i])
    ensures SameButPinned(RunChanges(prices, s, changes), s)
    ensures RunChanges(prices, s, changes).pinned == LastPinned(prices, s, changes)
    decreases |changes|
  {
    hide ChangePlanStep, IsDowngrade, Schedulable, Accepted, TwoPhases, OnePhase, SameButPinned, Readable;
    if changes == [] {
      SameSelf(s);
    } else {
      var n := |changes| - 1;
      var last := changes[n];
      RunPinned(prices, s, changes[..n]);
      var before := RunChanges(prices, s, changes[..n]);
      RunAppendChange(prices, s, changes[..n], last);
      assert changes == changes[..n] + [last];
      SameGuards(prices, s, before, last);
      DowngradeMoves(prices, before, last);
      SameTrans(ChangePlanStep(prices, before, last).0, before, s);
      if Accepted(prices, s, last) { AcceptedReadable(prices, s, last); }
      if Schedulable(prices, s, last) { SchedulableReadable(prices, s, last); }
    }
  }

  lemma SameSelf(s: Sub)
    ensures SameButPinned(s, s)
  {
  }

  lemma SameTrans(a: Sub, b: Sub, c: Sub)
    requires SameButPinned(a, b) && SameButPinned(b, c)
    ensures SameButPinned(a, c)
  {
  }

  lemma AcceptedReadable(prices: map<string, Price>, s: Sub, c: Change)
    requires Accepted(prices, s, c)
    ensures Readable(s) && Schedulable(prices, s, c)
  {
  }

  lemma SchedulableReadable(prices: map<string, Price>, s: Sub, c: Change)
    requires Schedulable(prices, s, c)
    ensures Readable(s)
  {
  }

  /** No plan change is pending: there is no schedule, or one of the present phase alone. */
  predicate NothingPending(s: Sub, p: Option<seq<SchedulePhase>>)
    requires Readable(s)
  {
    p == None || p == Some(OnePhase(s))
  }

  /** After the call, nothing is left to see of the schedule that was there before: the call is immediate, or Stripe
      accepts its phases, or the schedule is the same without the earlier calls, or the call itself creates it. */
  predicate Forgets(prices: map<string, Price>, s: Sub, c: Change, before: Option<seq<SchedulePhase>>) {
    !IsDowngrade(prices, s, c) || Accepted(prices, s, c) || before == s.pinned
    || (Schedulable(prices, s, c) && NothingPending(s, before) && NothingPending(s, s.pinned))
  }

  /** Changing one's mind: after any number of downgrade calls without a quantity, a further call has the same
      outcome as that call alone. It leaves the same price, seats and phases exactly when it forgets the schedule
      that the earlier calls left. */
  lemma LastChangeDecides(prices: map<string, Price>, s: Sub, changes: seq<Change>, c: Change)
    requires s.price in prices
    requires forall i | 0 <= i < |changes| :: PlainDowngrade(prices, s, changes[i])
    ensures var before := RunChanges(prices, s, changes);
            ChangePlanStep(prices, before, c).1 == ChangePlanStep(prices, s, c).1
    ensures SameView(ChangePlanStep(prices, RunChanges(prices, s, changes), c).0, ChangePlanStep(prices, s, c).0)
            <==> Forgets(prices, s, c, LastPinned(prices, s, changes))
  {
    var before := RunChanges(prices, s, changes);
    RunPinned(prices, s, changes);
    SameGuards(prices, s, before, c);
    OneMoreChange(prices, s, before, c);
  }

  lemma OneMoreChange(prices: map<string, Price>, s: Sub, t: Sub, c: Change)
    requires s.price in prices && SameButPinned(t, s)
    ensures ChangePlanStep(prices, t, c).1 == ChangePlanStep(prices, s, c).1
    ensures SameView(ChangePlanStep(prices, t, c).0, ChangePlanStep(prices, s, c).0)
            <==> Forgets(prices, s, c, t.pinned)
  {
    SameGuards(prices, s, t, c);
    if IsDowngrade(prices, s, c) {
      DeferMoves(prices, s, c);
      DeferMoves(prices, t, c);
      hide DeferStep, IsDowngrade, Accepted, Schedulable, OnePhase, TwoPhases, Readable;
    } else {
      hide ReadPeriod, CurrenciesClash, SameCurrency, DeferStep;
    }
  }

  /** What the deferred path moves, and what it answers, in terms of its guards. */
  lemma DeferMoves(prices: map<string, Price>, s: Sub, c: Change)
    requires s.price in prices && IsDowngrade(prices, s, c)
    ensures Schedulable(prices, s, c) ==> Readable(s)
    ensures var r, seats := DeferStep(prices, s, c.newPrice, WantedQuantity(s, c), c.delivered), WantedQuantity(s, c);
            && r.0 == (if Accepted(prices, s, c)
                       then s.(quantity := Some(seats), pinned := Some(TwoPhases(s, c.newPrice, seats)))
                       else if s.pinned == None && Schedulable(prices, s, c) then s.(pinned := Some(OnePhase(s)))
                       else s)
            && r.1 == (if !Readable(s) then Failed(MissingPeriod)
                       else if c.newPrice !in prices then Failed(UnknownPrice)
                       else if !SameCurrency(prices[s.price], prices[c.newPrice]) then Failed(CurrencyMismatch)
                       else if !c.delivered then Failed(Rejected)
                       else Deferred)
  {
    hide ReadPeriod;
  }

  /** Where it fails: a downgrade goes through, and the next one names a price Stripe does not know. Alone, that call
      would leave no schedule; now the earlier one stays. */
  lemma UnknownPriceKeepsEarlierChange()
    ensures var prices := map["pro" := Price(Some(2000), "usd"), "basic" := Price(Some(900), "usd")];
            var s := Sub("pro", Some(1), Number(0), Number(30), Absent, Absent, false, None);
            var first, second := Change("basic", Some(900), None, true), Change("gone", Some(100), None, true);
            && PlainDowngrade(prices, s, first) && PlainDowngrade(prices, s, second)
            && !SameView(ChangePlanStep(prices, RunChanges(prices, s, [first]), second).0,
                         ChangePlanStep(prices, s, second).0)
  {
    var prices := map["pro" := Price(Some(2000), "usd"), "basic" := Price(Some(900), "usd")];
    var s := Sub("pro", Some(1), Number(0), Number(30), Absent, Absent, false, None);
    var first, second := Change("basic", Some(900), None, true), Change("gone", Some(100), None, true);
    assert Accepted(prices, s, first);
    assert LastPinned(prices, s, [first]).Some?;
    LastChangeDecides(prices, s, [first], second);
  }

  // ------------------------------------------------------------------ the webhooks Stripe sends

  /** The webhook payload of a schedule of this subscription. */
  function Payload(id: string, phases: seq<SchedulePhase>): ScheduleData {
    ScheduleData(Some(id), PayloadPhases(phases))
  }

  function PayloadPhases(phases: seq<SchedulePhase>): (r: seq<Phase>)
    ensures |r| == |phases|
    ensures forall i | 0 <= i < |r| ::
              r[i] == Phase([Bare(Some(phases[i].price))], Some(phases[i].start), phases[i].end)
  {
    if phases == [] then []
    else [Phase([Bare(Some(phases[0].price))], Some(phases[0].start), phases[0].end)] + PayloadPhases(phases[1..])
  }

  function Announce(id: string, phases: seq<SchedulePhase>): Event { ScheduleChanged(Payload(id, phases)) }

  /** The events of a release: one if a schedule was there. */
  function ReleaseEvents(id: string, s: Sub): seq<Event> { if s.pinned.Some? then [ScheduleCleared(Some(id))] else [] }

  /** The events of a deferred change: one for the create, one for the phases. */
  function DeferEvents(prices: map<string, Price>, id: string, s: Sub, newPrice: string, quantity: int, delivered: bool)
    : seq<Event>
    requires s.price in prices
  {
    var (after, outcome) := DeferStep(prices, s, newPrice, quantity, delivered);
    (if s.pinned == None && after.pinned.Some? && Readable(s) then [Announce(id, OnePhase(s))] else [])
    + (if outcome == Deferred && after.pinned.Some? then [Announce(id, after.pinned.value)] else [])
  }

  function ChangeEvents(prices: map<string, Price>, id: string, s: Sub, c: Change): seq<Event>
    requires s.price in prices
  {
    if IsDowngrade(prices, s, c) then DeferEvents(prices, id, s, c.newPrice, WantedQuantity(s, c), c.delivered)
    else ReleaseEvents(id, s)
  }

  /** Once the schedule's event is delivered, the mirror row announces exactly the deferred change: the new
      price's plan, at the period end. */
  lemma DeferredReachesMirror(prices: map<string, Price>, s: Sub, c: Change, mirror: State, id: string)
    requires s.price in prices && ChangePlanStep(prices, s, c).1 == Deferred
    requires id in mirror.rows && id != "" && c.newPrice != "" && c.newPrice in mirror.catalog.prices
    ensures var after := ChangePlanStep(prices, s, c).0;
            after.pinned.Some?
            && (var now := Apply(mirror, Announce(id, after.pinned.value));
                && id in now.rows
                && now.rows[id].scheduledPlan == Some(mirror.catalog.prices[c.newPrice])
                && now.rows[id].scheduledAt == ReadPeriod(s.itemEnd, s.subEnd))
  {
    hide IsDowngrade, CurrenciesClash, ReadPeriod;
    var after := ChangePlanStep(prices, s, c).0;
    assert ParsePending(Payload(id, after.pinned.value)) == Some((c.newPrice, ReadPeriod(s.itemEnd, s.subEnd).value));
  }

  // ------------------------------------------------------------------ Stripe, and the calls in order

  datatype ScheduleStatus = NotStarted | Running | Released | Completed | CanceledSchedule

  datatype Schedule = Schedule(status: ScheduleStatus, phases: seq<SchedulePhase>)

  predicate Releasable(status: ScheduleStatus) { status.NotStarted? || status.Running? }

  /** The phases are all of the currency of the first. */
  predicate OneCurrency(prices: map<string, Price>, phases: seq<SchedulePhase>) {
    forall i | 0 <= i < |phases| ::
      phases[0].price in prices && phases[i].price in prices
      && SameCurrency(prices[phases[0].price], prices[phases[i].price])
  }

  /** Stripe's side of one subscription. The `requires` clauses are the calls Stripe would reject and the callers
      take care to avoid; the rejections they run into come back as outcomes. */
  class Stripe {
    const id: string
    const prices: map<string, Price>
    const itemStart: Field
    const itemEnd: Field
    const subStart: Field
    const subEnd: Field
    var price: string
    var quantity: Option<int>
    var canceling: bool
    var schedule: Option<nat>
    var schedules: map<nat, Schedule>
    var nextSchedule: nat
    var sent: seq<Event>

    constructor (id: string, prices: map<string, Price>, price: string, quantity: int, periodStart: int, periodEnd: int)
      requires price in prices
      ensures Valid() && this.id == id && this.prices == prices && sent == []
      ensures View() == Sub(price, Some(quantity), Number(periodStart), Number(periodEnd), Absent, Absent, false, None)
    {
      this.id, this.prices, this.price, this.quantity := id, prices, price, Some(quantity);
      itemStart, itemEnd, subStart, subEnd := Number(periodStart), Number(periodEnd), Absent, Absent;
      canceling, schedule, schedules, nextSchedule, sent := false, None, map[], 0, [];
    }

    /** The only live schedule is the one that pins the subscription. */
    predicate Valid()
      reads this
    {
      && price in prices
      && (forall k | k in schedules :: k < nextSchedule)
      && (forall k | k in schedules :: Releasable(schedules[k].status) <==> schedule == Some(k))
      && (schedule.Some? ==> schedule.value in schedules)
    }

    function View(): Sub
      requires Valid()
      reads this
    {
      Sub(price, quantity, itemStart, itemEnd, subStart, subEnd, canceling,
          if schedule.Some? then Some(schedules[schedule.value].phases) else None)
    }

    /** Stripe rejects the release of a schedule that is over. */
    method ReleaseSchedule(k: nat)
      requires Valid() && k in schedules && Releasable(schedules[k].status)
      modifies this`schedule, this`schedules, this`sent
      ensures Valid() && View() == old(View()).(pinned := None) && sent == old(sent) + [ScheduleCleared(Some(id))]
    {
      schedules := schedules[k := schedules[k].(status := Released)];
      schedule := None;
      sent := sent + [ScheduleCleared(Some(id))];
    }

    /** Stripe rejects a second schedule for a subscription. The new one has a single phase, the present. */
    method CreateSchedule() returns (k: nat)
      requires Valid() && schedule == None && Readable(View())
      modifies this`schedule, this`schedules, this`nextSchedule, this`sent
      ensures Valid() && schedule == Some(k) && View() == Promoted(old(View()))
      ensures sent == old(sent) + [Announce(id, OnePhase(old(View())))]
    {
      var phases := OnePhase(View());
      k := nextSchedule;
      nextSchedule := nextSchedule + 1;
      schedules := schedules[k := Schedule(Running, phases)];
      schedule := Some(k);
      sent := sent + [Announce(id, phases)];
    }

    /** Stripe rejects phases of different currencies. */
    method ModifySchedule(k: nat, phases: seq<SchedulePhase>, delivered: bool) returns (outcome: Outcome)
      requires Valid() && k in schedules && Releasable(schedules[k].status)
      requires phases != [] && forall i | 0 <= i < |phases| :: phases[i].price in prices
      modifies this`schedules, this`price, this`quantity, this`sent
      ensures Valid() && schedule == old(schedule)
      ensures outcome == if !OneCurrency(prices, phases) then Failed(CurrencyMismatch)
                         else if !delivered then Failed(Rejected) else Deferred
      ensures View() == if outcome == Deferred then OnSchedule(old(View()), phases) else old(View())
      ensures sent == old(sent) + if outcome == Deferred then [Announce(id, phases)] else []
    {
      if !OneCurrency(prices, phases) {
        return Failed(CurrencyMismatch);
      }
      if !delivered {
        return Failed(Rejected);
      }
      schedules := schedules[k := schedules[k].(phases := phases)];
      price, quantity := phases[0].price, Some(phases[0].quantity);
      sent := sent + [Announce(id, phases)];
      outcome := Deferred;
    }

    /** Stripe rejects a change of a pinned subscription; an unknown price, or one in another currency, comes back as
        an error. */
    method ModifySubscription(newPrice: string, seats: int, delivered: bool) returns (outcome: Outcome)
      requires Valid() && schedule == None
      modifies this`price, this`quantity
      ensures Valid() && outcome == Answer(prices, old(price), newPrice, delivered)
      ensures View() == if outcome == Applied then old(View()).(price := newPrice, quantity := Some(seats))
                        else old(View())
    {
      if newPrice !in prices {
        return Failed(UnknownPrice);
      }
      if !SameCurrency(prices[price], prices[newPrice]) {
        return Failed(CurrencyMismatch);
      }
      if !delivered {
        return Failed(Rejected);
      }
      price, quantity := newPrice, Some(seats);
      outcome := Applied;
    }

    /** `modify(cancel_at=...)`: rejected while a schedule pins the subscription. */
    method SetCanceling(on: bool) returns (outcome: Outcome)
      requires Valid()
      modifies this`canceling
      ensures Valid() && outcome == if old(View()).pinned.Some? then Failed(Pinned) else Applied
      ensures View() == if outcome == Applied then old(View()).(canceling := on) else old(View())
    {
      if schedule.Some? {
        return Failed(Pinned);
      }
      canceling := on;
      outcome := Applied;
    }

    /** `modify(items=[... quantity])`: rejected while a schedule pins the subscription. */
    method SetSeats(seats: int) returns (outcome: Outcome)
      requires Valid()
      modifies this`quantity
      ensures Valid() && outcome == if old(View()).pinned.Some? then Failed(Pinned) else Applied
      ensures View() == if outcome == Applied then old(View()).(quantity := Some(seats)) else old(View())
    {
      if schedule.Some? {
        return Failed(Pinned);
      }
      quantity := Some(seats);
      outcome := Applied;
    }
  }

  /** `change_plan`. That every call below meets Stripe's rules is part of what is verified: no pinned
      subscription is modified, no second schedule is created, and none released that is over. */
  method ChangePlan(stripe: Stripe, c: Change) returns (outcome: Outcome)
    requires stripe.Valid()
    modifies stripe
    ensures stripe.Valid()
    ensures (stripe.View(), outcome) == ChangePlanStep(stripe.prices, old(stripe.View()), c)
    ensures stripe.sent == old(stripe.sent) + ChangeEvents(stripe.prices, stripe.id, old(stripe.View()), c)
  {
    hide DeferStep, DeferEvents, ImmediateStep;
    var current := stripe.View();
    var seats := WantedQuantity(current, c);
    if IsDowngrade(stripe.prices, current, c) {
      outcome := ScheduleDowngradeAtPeriodEnd(stripe, c.newPrice, seats, c.delivered);
    } else {
      outcome := ApplyImmediatePlanChange(stripe, c.newPrice, seats, c.delivered);
    }
  }

  method ApplyImmediatePlanChange(stripe: Stripe, newPrice: string, seats: int, delivered: bool)
    returns (outcome: Outcome)
    requires stripe.Valid()
    modifies stripe
    ensures stripe.Valid()
    ensures (stripe.View(), outcome) == ImmediateStep(stripe.prices, old(stripe.View()), newPrice, seats, delivered)
    ensures stripe.sent == old(stripe.sent) + ReleaseEvents(stripe.id, old(stripe.View()))
  {
    hide SameCurrency;
    if stripe.schedule.Some? {
      stripe.ReleaseSchedule(stripe.schedule.value);
    }
    outcome := stripe.ModifySubscription(newPrice, seats, delivered);
  }

  method ScheduleDowngradeAtPeriodEnd(stripe: Stripe, newPrice: string, seats: int, delivered: bool)
    returns (outcome: Outcome)
    requires stripe.Valid()
    modifies stripe
    ensures stripe.Valid()
    ensures (stripe.View(), outcome) == DeferStep(stripe.prices, old(stripe.View()), newPrice, seats, delivered)
    ensures stripe.sent == old(stripe.sent)
              + DeferEvents(stripe.prices, stripe.id, old(stripe.View()), newPrice, seats, delivered)
  {
    hide SameCurrency, ReadPeriod;
    var current := stripe.View();
    var end := ReadPeriod(stripe.itemEnd, stripe.subEnd);
    if end == None {
      return Failed(MissingPeriod);
    }
    var start := ReadPeriod(stripe.itemStart, stripe.subStart);
    if start == None {
      return Failed(MissingPeriod);
    }
    if newPrice !in stripe.prices {
      return Failed(UnknownPrice);
    }
    if CurrenciesClash(stripe.prices[stripe.price], stripe.prices[newPrice]) {
      return Failed(CurrencyMismatch);
    }
    var k;
    if stripe.schedule.Some? {
      k := stripe.schedule.value;
    } else {
      k := stripe.CreateSchedule();
    }
    var phases := [SchedulePhase(current.price, seats, start.value, Some(end.value)),
                   SchedulePhase(newPrice, seats, end.value, None)];
    OneCurrencyOfTwo(stripe.prices, phases);
    outcome := stripe.ModifySchedule(k, phases, delivered);
  }

  lemma OneCurrencyOfTwo(prices: map<string, Price>, phases: seq<SchedulePhase>)
    requires |phases| == 2 && phases[0].price in prices && phases[1].price in prices
    ensures OneCurrency(prices, phases) <==> SameCurrency(prices[phases[0].price], prices[phases[1].price])
  {
  }

  /** `_release_pending_schedule`: releases whatever may be released, and nothing a second time. */
  method ReleasePendingSchedule(stripe: Stripe)
    requires stripe.Valid()
    modifies stripe
    ensures stripe.Valid() && stripe.View() == old(stripe.View()).(pinned := None)
    ensures stripe.sent == old(stripe.sent) + ReleaseEvents(stripe.id, old(stripe.View()))
  {
    if stripe.schedule == None {
      return;
    }
    var k := stripe.schedule.value;
    if !Releasable(stripe.schedules[k].status) {
      return;
    }
    stripe.ReleaseSchedule(k);
  }
}
