/** Stripe's subscription and its local mirror side by side: schedule events are under way between them, and the
    requests that trust the mirror meet whatever has arrived. */
module ScheduleDelivery {
  import opened Options
  import opened OrgData
  import M = SubscriptionMirror
  import opened StripeSchedule

  /** What does not change: Stripe's prices, the subscription and its customer. */
  datatype Setting = Setting(prices: map<string, Price>, id: string, customer: nat)

  /** `sent` holds all schedule events so far, the first `seen` of which have been delivered. `clearedAt` is how many
      had been delivered when a request last cleared the row itself. */
  datatype World = World(sub: Sub, mirror: M.State, sent: seq<M.Event>, seen: nat, clearedAt: nat)

  /** What Stripe answers to a change of the cancellation. */
  datatype CancelFields = CancelFields(status: Option<SubscriptionStatus>, cancelAt: Option<int>,
                                       canceledAt: Option<int>)

  datatype Action =
    | ChangePlan(change: Change)
    | Deliver
    | SubscriptionEvent(event: M.Event)
    | KeepPlan
    | Cancel(answer: CancelFields)
    | Resume(answer: CancelFields)
    | SetSeats(seats: int)

  /** The customer's active row is the one of this subscription. */
  predicate Found(x: Setting, mirror: M.State) { M.IsLatestActive(mirror.rows, x.customer, x.id) }

  function Mirrored(x: Setting, mirror: M.State, f: CancelFields): M.State {
    M.Apply(mirror, M.MirrorCancelState(x.customer, x.id, f.status, f.cancelAt, f.canceledAt))
  }

  /** `_release_pending_schedule`. */
  function Release(x: Setting, w: World): World {
    w.(sub := w.sub.(pinned := None), sent := w.sent + ReleaseEvents(x.id, w.sub))
  }

  /** `cancel_subscription` at period end: the schedule is released only if the local row shows a pending change. */
  function CancelStep(x: Setting, w: World, f: CancelFields): (World, Outcome) {
    if !Found(x, w.mirror) then (w, Failed(NotFound))
    else
      var free := if w.mirror.rows[x.id].scheduledPlan.Some? then Release(x, w) else w;
      if free.sub.pinned.Some? then (free, Failed(Pinned))
      else (free.(sub := free.sub.(canceling := true), mirror := Mirrored(x, free.mirror, f)), Applied)
  }

  /** `resume_subscription` never releases a schedule. */
  function ResumeStep(x: Setting, w: World, f: CancelFields): (World, Outcome) {
    if !Found(x, w.mirror) then (w, Failed(NotFound))
    else if w.sub.pinned.Some? then (w, Failed(Pinned))
    else (w.(sub := w.sub.(canceling := false), mirror := Mirrored(x, w.mirror, f)), Applied)
  }

  /** `update_seat_count` never releases a schedule. */
  function SeatStep(x: Setting, w: World, seats: int): (World, Outcome) {
    if !Found(x, w.mirror) then (w, Failed(NotFound))
    else if seats < 1 then (w, Failed(Rejected))
    else if w.sub.pinned.Some? then (w, Failed(Pinned))
    else (w.(sub := w.sub.(quantity := Some(seats)), mirror := M.Apply(w.mirror, M.SeatUpdate(x.id, seats))), Applied)
  }

  /** `release_pending_schedule_for_customer`: release at Stripe, and clear the row without waiting for the event. */
  function KeepPlanStep(x: Setting, w: World): (World, Outcome) {
    if !Found(x, w.mirror) then (w, Failed(NotFound))
    else
      (Release(x, w).(mirror := M.Apply(w.mirror, M.ReleasePending(x.customer, x.id)), clearedAt := w.seen), Applied)
  }

  function DeliverStep(w: World): World {
    if w.seen < |w.sent| then w.(mirror := M.Apply(w.mirror, w.sent[w.seen]), seen := w.seen + 1) else w
  }

  function Act(x: Setting, w: World, a: Action): (World, Outcome)
    requires w.sub.price in x.prices
  {
    match a
    case ChangePlan(c) =>
      var (after, outcome) := ChangePlanStep(x.prices, w.sub, c);
      (w.(sub := after, sent := w.sent + ChangeEvents(x.prices, x.id, w.sub, c)), outcome)
    case Deliver => (DeliverStep(w), Applied)
    case SubscriptionEvent(e) => (if M.OfSubscription(e) then w.(mirror := M.Apply(w.mirror, e)) else w, Applied)
    case KeepPlan => KeepPlanStep(x, w)
    case Cancel(f) => CancelStep(x, w, f)
    case Resume(f) => ResumeStep(x, w, f)
    case SetSeats(seats) => SeatStep(x, w, seats)
  }

  lemma ActKeepsPrice(x: Setting, w: World, a: Action)
    requires w.sub.price in x.prices
    ensures Act(x, w, a).0.sub.price in x.prices
  {
    hide ChangePlanStep;
  }

  function Run(x: Setting, w: World, actions: seq<Action>): World
    requires w.sub.price in x.prices
    decreases actions
  {
    if actions == [] then w
    else
      ActKeepsPrice(x, w, actions[0]);
      Run(x, Act(x, w, actions[0]).0, actions[1..])
  }

  // ------------------------------------------------------------------ what the mirror can know

  const NOTHING := M.PendingChange(None, None)

  /** A schedule event of this subscription. */
  predicate Ours(id: string, e: M.Event) {
    (e.ScheduleChanged? && e.schedule.subscription == Some(id)) || (e.ScheduleCleared? && e.subscription == Some(id))
  }

  /** The event parses and names a price of the catalog. */
  predicate Announces(catalog: M.Catalog, id: string, e: M.Event) {
    e.ScheduleChanged? && M.Effect(catalog, e, id).Some?
  }

  /** Some event of the list announces a change, and no later one takes it back. */
  ghost predicate Shown(catalog: M.Catalog, id: string, events: seq<M.Event>) {
    exists i :: 0 <= i < |events| && Announces(catalog, id, events[i])
                && forall j | i < j < |events| :: !events[j].ScheduleCleared?
  }

  lemma EffectOfOurs(catalog: M.Catalog, id: string, e: M.Event)
    requires Ours(id, e) && id != ""
    ensures e.ScheduleCleared? ==> M.Effect(catalog, e, id) == Some(NOTHING)
    ensures e.ScheduleChanged? && M.Effect(catalog, e, id).Some? ==> M.Effect(catalog, e, id).value.plan.Some?
  {
    hide M.ParsePending;
  }

  lemma {:induction false} ShownIff(catalog: M.Catalog, id: string, events: seq<M.Event>)
    requires id != "" && forall i | 0 <= i < |events| :: Ours(id, events[i])
    ensures M.LastEffect(catalog, events, id, NOTHING).plan.Some? <==> Shown(catalog, id, events)
    decreases |events|
  {
    hide M.Effect, Ours;
    if events != [] {
      var n := |events| - 1;
      var rest, last := events[..n], events[n];
      ShownIff(catalog, id, rest);
      EffectOfOurs(catalog, id, last);
      if Announces(catalog, id, last) {
        assert Shown(catalog, id, events);
      } else if last.ScheduleCleared? {
        assert !Shown(catalog, id, events);
      } else {
        assert last.ScheduleChanged? by { OursIsSchedule(id, last); }
        if Shown(catalog, id, rest) {
          var i :| 0 <= i < |rest| && Announces(catalog, id, rest[i])
                   && forall j | i < j < |rest| :: !rest[j].ScheduleCleared?;
          assert Announces(catalog, id, events[i]);
          forall j | i < j < |events| ensures !events[j].ScheduleCleared? { if j < n { assert events[j] == rest[j]; } }
        }
        if Shown(catalog, id, events) {
          var i :| 0 <= i < |events| && Announces(catalog, id, events[i])
                   && forall j | i < j < |events| :: !events[j].ScheduleCleared?;
          assert i < n && Announces(catalog, id, rest[i]);
          forall j | i < j < |rest| ensures !rest[j].ScheduleCleared? { assert events[j] == rest[j]; }
        }
      }
    }
  }

  lemma OursIsSchedule(id: string, e: M.Event)
    requires Ours(id, e)
    ensures e.ScheduleChanged? || e.ScheduleCleared?
  {
  }

  // ------------------------------------------------------------------ what every run keeps

  /** The row shows what the events delivered since the last local clear say. */
  predicate RowShowsDelivered(x: Setting, w: World) {
    && x.id in w.mirror.rows && w.clearedAt <= w.seen <= |w.sent|
    && M.ChangeOf(w.mirror.rows[x.id]) == M.LastEffect(w.mirror.catalog, w.sent[w.clearedAt..w.seen], x.id, NOTHING)
  }

  predicate AllOurs(x: Setting, w: World) { forall i | 0 <= i < |w.sent| :: Ours(x.id, w.sent[i]) }

  /** A schedule pins the subscription exactly when the last event announced one. */
  predicate LastEventTells(w: World) { w.sub.pinned.Some? <==> w.sent != [] && w.sent[|w.sent| - 1].ScheduleChanged? }

  /** Whatever was announced before the local clear has been taken back since. */
  predicate ClosedBefore(w: World) {
    w.clearedAt > 0 ==> exists j :: w.clearedAt - 1 <= j < |w.sent| && w.sent[j].ScheduleCleared?
  }

  predicate Sound(x: Setting, w: World) {
    x.id != "" && w.sub.price in x.prices && RowShowsDelivered(x, w) && AllOurs(x, w) && LastEventTells(w)
    && ClosedBefore(w)
  }

  /** Runs start, for one, from a subscription nothing pins, with no events sent and a row that shows no change. */
  lemma StartIsSound(x: Setting, w: World)
    requires x.id != "" && w.sub.price in x.prices && w.sub.pinned == None && w.sent == [] && w.seen == w.clearedAt == 0
    requires x.id in w.mirror.rows && M.ChangeOf(w.mirror.rows[x.id]) == NOTHING
    ensures Sound(x, w)
  {
  }

  /** More events at Stripe's end, the mirror's pending change as it was. */
  lemma SendKeepsSound(x: Setting, w: World, after: World)
    requires Sound(x, w) && after.sub.price in x.prices && after.mirror.catalog == w.mirror.catalog
    requires |w.sent| <= |after.sent| && after.sent[..|w.sent|] == w.sent
    requires after.seen == w.seen && after.clearedAt == w.clearedAt
    requires x.id in after.mirror.rows && M.ChangeOf(after.mirror.rows[x.id]) == M.ChangeOf(w.mirror.rows[x.id])
    requires forall i | |w.sent| <= i < |after.sent| :: Ours(x.id, after.sent[i])
    requires LastEventTells(after)
    ensures Sound(x, after)
  {
    hide M.LastEffect, M.ChangeOf, Ours, LastEventTells;
    assert forall i | 0 <= i < |w.sent| :: after.sent[i] == w.sent[i] by {
      forall i | 0 <= i < |w.sent| ensures after.sent[i] == w.sent[i] { assert after.sent[..|w.sent|][i] == w.sent[i]; }
    }
    assert after.sent[w.clearedAt..w.seen] == w.sent[w.clearedAt..w.seen];
    if w.clearedAt > 0 {
      var j :| w.clearedAt - 1 <= j < |w.sent| && w.sent[j].ScheduleCleared?;
      assert after.sent[j].ScheduleCleared?;
    }
  }

  /** What a change of plan sends: only events of this subscription, and the last one tells whether it is pinned. */
  lemma ChangeSends(x: Setting, sub: Sub, c: Change)
    requires sub.price in x.prices
    ensures var events := ChangeEvents(x.prices, x.id, sub, c);
            var after := ChangePlanStep(x.prices, sub, c).0;
            && (forall i | 0 <= i < |events| :: Ours(x.id, events[i]))
            && (events == [] ==> (after.pinned.Some? <==> sub.pinned.Some?))
            && (events != [] ==> (after.pinned.Some? <==> events[|events| - 1].ScheduleChanged?))
  {
    hide CurrenciesClash, SameCurrency, ReadPeriod, PayloadPhases;
  }

  lemma ChangeKeepsSound(x: Setting, w: World, c: Change)
    requires Sound(x, w)
    ensures Sound(x, Act(x, w, ChangePlan(c)).0)
  {
    ChangeSends(x, w.sub, c);
    hide ChangeEvents, ChangePlanStep, Ours, RowShowsDelivered, AllOurs, ClosedBefore;
    SoundParts(x, w);
    Appended(w, Act(x, w, ChangePlan(c)).0, ChangeEvents(x.prices, x.id, w.sub, c));
    SendKeepsSound(x, w, Act(x, w, ChangePlan(c)).0);
  }

  lemma SoundParts(x: Setting, w: World)
    requires Sound(x, w)
    ensures x.id in w.mirror.rows && w.seen <= |w.sent| && w.clearedAt <= w.seen
  {
  }

  lemma Appended(w: World, after: World, events: seq<M.Event>)
    requires after.sent == w.sent + events && LastEventTells(w)
    requires events == [] ==> (after.sub.pinned.Some? <==> w.sub.pinned.Some?)
    requires events != [] ==> (after.sub.pinned.Some? <==> events[|events| - 1].ScheduleChanged?)
    ensures after.sent[..|w.sent|] == w.sent && LastEventTells(after)
    ensures forall i | |w.sent| <= i < |after.sent| :: after.sent[i] == events[i - |w.sent|]
  {
    if events == [] { assert after.sent == w.sent; }
  }

  lemma ReleaseKeepsSound(x: Setting, w: World)
    requires Sound(x, w)
    ensures Sound(x, Release(x, w))
  {
    SoundParts(x, w);
    var events := ReleaseEvents(x.id, w.sub);
    assert forall i | 0 <= i < |events| :: Ours(x.id, events[i]);
    hide RowShowsDelivered, AllOurs, ClosedBefore;
    Appended(w, Release(x, w), events);
    SendKeepsSound(x, w, Release(x, w));
  }

  /** A write to the row that leaves its pending change alone. */
  lemma WriteKeepsSound(x: Setting, w: World, sub: Sub, mirror: M.State)
    requires Sound(x, w) && sub.price in x.prices && sub.pinned == w.sub.pinned && mirror.catalog == w.mirror.catalog
    requires x.id in mirror.rows && M.ChangeOf(mirror.rows[x.id]) == M.ChangeOf(w.mirror.rows[x.id])
    ensures Sound(x, w.(sub := sub, mirror := mirror))
  {
    hide M.LastEffect, M.ChangeOf, Ours;
  }

  lemma MirroredKeepsChange(x: Setting, mirror: M.State, f: CancelFields)
    requires x.id in mirror.rows
    ensures var after := Mirrored(x, mirror, f);
            after.catalog == mirror.catalog && x.id in after.rows
            && M.ChangeOf(after.rows[x.id]) == M.ChangeOf(mirror.rows[x.id])
  {
    hide M.IsLatestActive;
  }

  lemma CancelKeepsSound(x: Setting, w: World, f: CancelFields)
    requires Sound(x, w)
    ensures Sound(x, CancelStep(x, w, f).0)
  {
    SoundParts(x, w);
    ReleaseKeepsSound(x, w);
    SoundPrice(x, w);
    hide Sound, Mirrored, Found, M.ChangeOf;
    if Found(x, w.mirror) {
      MirroredKeepsChange(x, w.mirror, f);
      var free := if w.mirror.rows[x.id].scheduledPlan.Some? then Release(x, w) else w;
      WriteKeepsSound(x, free, free.sub.(canceling := true), Mirrored(x, free.mirror, f));
    }
  }

  lemma SoundPrice(x: Setting, w: World)
    requires Sound(x, w)
    ensures w.sub.price in x.prices
  {
  }

  lemma RequestKeepsSound(x: Setting, w: World, a: Action)
    requires Sound(x, w) && (a.Resume? || a.SetSeats?)
    ensures Sound(x, Act(x, w, a).0)
  {
    SoundParts(x, w);
    SoundPrice(x, w);
    hide Sound, Mirrored, Found, M.ChangeOf;
    match a
    case Resume(f) =>
      MirroredKeepsChange(x, w.mirror, f);
      WriteKeepsSound(x, w, w.sub.(canceling := false), Mirrored(x, w.mirror, f));
    case SetSeats(seats) =>
      var mirror := M.Apply(w.mirror, M.SeatUpdate(x.id, seats));
      SeatKeepsChange(x, w.mirror, seats);
      WriteKeepsSound(x, w, w.sub.(quantity := Some(seats)), mirror);
  }

  lemma SeatKeepsChange(x: Setting, mirror: M.State, seats: int)
    requires x.id in mirror.rows
    ensures var after := M.Apply(mirror, M.SeatUpdate(x.id, seats));
            after.catalog == mirror.catalog && x.id in after.rows
            && M.ChangeOf(after.rows[x.id]) == M.ChangeOf(mirror.rows[x.id])
  {
  }

  lemma OneMoreEffect(catalog: M.Catalog, sent: seq<M.Event>, from: nat, seen: nat, id: string)
    requires from <= seen < |sent|
    ensures M.LastEffect(catalog, sent[from..seen + 1], id, NOTHING)
         == M.Overlay(M.LastEffect(catalog, sent[from..seen], id, NOTHING), M.Effect(catalog, sent[seen], id))
  {
    var was, now := sent[from..seen], sent[from..seen + 1];
    assert now[..|now| - 1] == was && now[|now| - 1] == sent[seen];
    hide M.Effect, M.Overlay;
  }

  lemma DeliverKeepsSound(x: Setting, w: World)
    requires Sound(x, w)
    ensures Sound(x, DeliverStep(w))
  {
    if w.seen < |w.sent| {
      OursIsSchedule(x.id, w.sent[w.seen]);
      M.StepMovesPending(w.mirror, w.sent[w.seen], x.id);
      OneMoreEffect(w.mirror.catalog, w.sent, w.clearedAt, w.seen, x.id);
      assert RowShowsDelivered(x, DeliverStep(w)) by {
        hide M.Apply, M.Effect, M.ChangeOf, M.LastEffect, M.Overlay, Ours;
      }
      hide M.Apply, RowShowsDelivered, Ours;
    }
  }

  lemma EventKeepsSound(x: Setting, w: World, e: M.Event)
    requires Sound(x, w) && M.OfSubscription(e)
    ensures Sound(x, w.(mirror := M.Apply(w.mirror, e)))
  {
    M.StepMovesPending(w.mirror, e, x.id);
    assert M.Effect(w.mirror.catalog, e, x.id) == None;
    hide Sound, M.Apply, M.Effect;
    SoundPrice(x, w);
    WriteKeepsSound(x, w, w.sub, M.Apply(w.mirror, e));
  }

  lemma KeepPlanKeepsSound(x: Setting, w: World)
    requires Sound(x, w)
    ensures Sound(x, KeepPlanStep(x, w).0)
  {
    if Found(x, w.mirror) {
      ReleaseKeepsSound(x, w);
      var free, after := Release(x, w), KeepPlanStep(x, w).0;
      hide M.Effect, Ours;
      assert after.sent[after.clearedAt..after.seen] == [];
      if after.clearedAt > 0 {
        assert after.sent[|after.sent| - 1].ScheduleCleared? by { LastIsClear(x, free); }
      }
    }
  }

  lemma LastIsClear(x: Setting, w: World)
    requires Sound(x, w) && w.sub.pinned == None && w.sent != []
    ensures w.sent[|w.sent| - 1].ScheduleCleared?
  {
    OursIsSchedule(x.id, w.sent[|w.sent| - 1]);
  }

  lemma ActKeepsSound(x: Setting, w: World, a: Action)
    requires Sound(x, w)
    ensures Sound(x, Act(x, w, a).0)
  {
    hide Sound, CancelStep, ResumeStep, SeatStep, KeepPlanStep, DeliverStep, ChangePlanStep, ChangeEvents, M.Apply;
    SoundPrice(x, w);
    match a
    case ChangePlan(c) => ChangeKeepsSound(x, w, c);
    case Deliver => DeliverKeepsSound(x, w);
    case SubscriptionEvent(e) => if M.OfSubscription(e) { EventKeepsSound(x, w, e); }
    case KeepPlan => KeepPlanKeepsSound(x, w);
    case Cancel(f) => CancelKeepsSound(x, w, f);
    case Resume(_) => RequestKeepsSound(x, w, a);
    case SetSeats(_) => RequestKeepsSound(x, w, a);
  }

  lemma {:induction false} RunKeepsSound(x: Setting, w: World, actions: seq<Action>)
    requires Sound(x, w)
    ensures Sound(x, Run(x, w, actions))
    decreases actions
  {
    hide Sound, Act;
    SoundPrice(x, w);
    if actions != [] {
      ActKeepsPrice(x, w, actions[0]);
      ActKeepsSound(x, w, actions[0]);
      RunKeepsSound(x, Act(x, w, actions[0]).0, actions[1..]);
    }
  }

  // ------------------------------------------------------------------ when a request is refused

  /** In every state: Stripe refuses a cancellation exactly when a schedule pins the subscription and no announced
      change has reached the row since the row was last cleared, by an event or by a request. */
  lemma CancelRefusedIff(x: Setting, w: World, f: CancelFields)
    requires Sound(x, w)
    ensures CancelStep(x, w, f).1 == Failed(Pinned)
            <==> Found(x, w.mirror) && w.sub.pinned.Some?
                 && !Shown(w.mirror.catalog, x.id, w.sent[w.clearedAt..w.seen])
  {
    hide M.LastEffect, Shown, Mirrored, Found, Ours;
    var events := w.sent[w.clearedAt..w.seen];
    assert forall i | 0 <= i < |events| :: Ours(x.id, events[i]);
    ShownIff(w.mirror.catalog, x.id, events);
  }

  /** Over whole runs. */
  lemma CancelRefusedAfterRun(x: Setting, w: World, actions: seq<Action>, f: CancelFields)
    requires Sound(x, w)
    ensures var last := Run(x, w, actions);
            last.clearedAt <= last.seen <= |last.sent|
            && (CancelStep(x, last, f).1 == Failed(Pinned)
                <==> Found(x, last.mirror) && last.sub.pinned.Some?
                     && !Shown(last.mirror.catalog, x.id, last.sent[last.clearedAt..last.seen]))
  {
    hide Run, Shown, CancelStep, Found;
    RunKeepsSound(x, w, actions);
    CancelRefusedIff(x, Run(x, w, actions), f);
  }

  /** Among the first `seen` of the events sent, one announces a change that no event sent since takes back. */
  ghost predicate StillShown(catalog: M.Catalog, id: string, sent: seq<M.Event>, seen: nat)
    requires seen <= |sent|
  {
    exists i :: 0 <= i < seen && Announces(catalog, id, sent[i]) && NotClearedAfter(sent, i)
  }

  predicate NotClearedAfter(sent: seq<M.Event>, i: nat) { forall j | i < j < |sent| :: !sent[j].ScheduleCleared? }

  /** No event that takes a change back is under way. */
  predicate NoClearUnderWay(w: World) { forall j | w.seen <= j < |w.sent| :: !w.sent[j].ScheduleCleared? }

  lemma ShownIsStillShown(catalog: M.Catalog, id: string, sent: seq<M.Event>, m: nat, seen: nat)
    requires m <= seen <= |sent| && forall j | seen <= j < |sent| :: !sent[j].ScheduleCleared?
    requires Shown(catalog, id, sent[m..seen])
    ensures StillShown(catalog, id, sent, seen)
  {
    hide Announces;
    var events := sent[m..seen];
    var i :| 0 <= i < |events| && Announces(catalog, id, events[i])
             && forall j | i < j < |events| :: !events[j].ScheduleCleared?;
    forall j | m + i < j < |sent| ensures !sent[j].ScheduleCleared? {
      if j < seen { assert sent[j] == events[j - m]; }
    }
    assert Announces(catalog, id, sent[m + i]) && NotClearedAfter(sent, m + i);
  }

  lemma StillShownIsShown(catalog: M.Catalog, id: string, sent: seq<M.Event>, m: nat, seen: nat)
    requires m <= seen <= |sent| && StillShown(catalog, id, sent, seen)
    requires m > 0 ==> exists j :: m - 1 <= j < |sent| && sent[j].ScheduleCleared?
    ensures Shown(catalog, id, sent[m..seen])
  {
    var events := sent[m..seen];
    var i :| 0 <= i < seen && Announces(catalog, id, sent[i]) && NotClearedAfter(sent, i);
    assert sent[i].ScheduleChanged?;
    hide Announces;
    assert i >= m;
    assert events[i - m] == sent[i];
    forall j | i - m < j < |events| ensures !events[j].ScheduleCleared? { assert events[j] == sent[m + j]; }
  }

  /** As long as no clearing event is under way: a cancellation is refused exactly when a schedule pins the subscription
      and none of its events has been delivered that parses and names a price of the catalog. */
  lemma CancelRefusedWhenCurrent(x: Setting, w: World, f: CancelFields)
    requires Sound(x, w) && NoClearUnderWay(w)
    ensures w.seen <= |w.sent|
    ensures CancelStep(x, w, f).1 == Failed(Pinned)
            <==> Found(x, w.mirror) && w.sub.pinned.Some? && !StillShown(w.mirror.catalog, x.id, w.sent, w.seen)
  {
    hide CancelStep, Shown, StillShown, Found, M.LastEffect, Ours;
    CancelRefusedIff(x, w, f);
    var catalog, events := w.mirror.catalog, w.sent[w.clearedAt..w.seen];
    if Shown(catalog, x.id, events) { ShownIsStillShown(catalog, x.id, w.sent, w.clearedAt, w.seen); }
    if StillShown(catalog, x.id, w.sent, w.seen) { StillShownIsShown(catalog, x.id, w.sent, w.clearedAt, w.seen); }
  }

  /** Resuming and changing seats are refused whenever a schedule pins the subscription, however up to date the row. */
  lemma ResumeAndSeatsRefusedIff(x: Setting, w: World, f: CancelFields, seats: int)
    requires Found(x, w.mirror) && seats >= 1
    ensures ResumeStep(x, w, f).1 == Failed(Pinned) <==> w.sub.pinned.Some?
    ensures SeatStep(x, w, seats).1 == Failed(Pinned) <==> w.sub.pinned.Some?
    ensures w.sub.pinned.Some? ==> ResumeStep(x, w, f).0 == w && SeatStep(x, w, seats).0 == w
  {
  }

  // ------------------------------------------------------------------ what an accepted request does

  /** An accepted cancellation is queued at Stripe and shows in the row; price and seats stay, and nothing pins the
      subscription any more. One that is not accepted queues nothing. */
  lemma AcceptedCancels(x: Setting, w: World, f: CancelFields)
    ensures var r := CancelStep(x, w, f);
            && (r.1 == Applied ==>
                  && r.0.sub == w.sub.(canceling := true, pinned := None)
                  && x.id in w.mirror.rows && x.id in r.0.mirror.rows
                  && r.0.mirror.rows[x.id].cancelAt == f.cancelAt && r.0.mirror.rows[x.id].canceledAt == f.canceledAt
                  && (f.status.Some? ==> Some(r.0.mirror.rows[x.id].status) == f.status)
                  && (f.status == None ==> r.0.mirror.rows[x.id].status == w.mirror.rows[x.id].status))
            && (r.1 != Applied ==> r.0.sub.canceling == w.sub.canceling && r.0.mirror == w.mirror)
  {
  }

  /** What a request tells the webhook: one clearing event if it released a schedule, else nothing. */
  lemma RequestsTell(x: Setting, w: World, f: CancelFields, seats: int)
    requires w.sub.price in x.prices
    ensures forall a | a in {KeepPlan, Cancel(f), Resume(f), SetSeats(seats)} ::
              var after := Act(x, w, a).0;
              after.sent == w.sent + if w.sub.pinned.Some? && after.sub.pinned == None
                                     then [M.ScheduleCleared(Some(x.id))] else []
  {
    hide M.Apply, Found;
  }

  /** An accepted resume takes the cancellation back, at Stripe and in the row. */
  lemma AcceptedResumes(x: Setting, w: World, f: CancelFields)
    ensures var r := ResumeStep(x, w, f);
            && (r.1 == Applied ==>
                  && r.0.sub == w.sub.(canceling := false) && x.id in r.0.mirror.rows
                  && r.0.mirror.rows[x.id].cancelAt == f.cancelAt && r.0.mirror.rows[x.id].canceledAt == f.canceledAt)
            && (r.1 != Applied ==> r.0 == w)
  {
  }

  /** An accepted seat change shows at Stripe and in the row, and touches nothing else there. */
  lemma AcceptedSeats(x: Setting, w: World, seats: int)
    ensures var r := SeatStep(x, w, seats);
            && (r.1 == Applied ==>
                  && r.0.sub == w.sub.(quantity := Some(seats)) && seats >= 1
                  && x.id in w.mirror.rows && x.id in r.0.mirror.rows
                  && r.0.mirror.rows[x.id] == w.mirror.rows[x.id].(seatLimit := seats))
            && (r.1 != Applied ==> r.0 == w)
  {
  }

  /** Keeping the plan leaves no schedule, and no pending change in the row. */
  lemma AcceptedKeepsPlan(x: Setting, w: World)
    ensures var r := KeepPlanStep(x, w);
            && (r.1 == Applied ==>
                  && r.0.sub == w.sub.(pinned := None) && x.id in r.0.mirror.rows
                  && r.0.mirror.rows[x.id].scheduledPlan == None && r.0.mirror.rows[x.id].scheduledAt == None)
            && (r.1 != Applied ==> r.0 == w)
  {
  }

  /** Cancel and resume undo each other: the subscription is as before but for the schedule the cancellation released,
      and with the answers of a subscription that was not being cancelled so is the row. */
  lemma CancelThenResume(x: Setting, w: World, f: CancelFields, g: CancelFields)
    requires CancelStep(x, w, f).1 == Applied && !w.sub.canceling
    requires Found(x, CancelStep(x, w, f).0.mirror)
    ensures var back := ResumeStep(x, CancelStep(x, w, f).0, g);
            && back.1 == Applied && back.0.sub == w.sub.(pinned := None) && x.id in w.mirror.rows
            && x.id in back.0.mirror.rows
            && (g == CancelFields(Some(w.mirror.rows[x.id].status), w.mirror.rows[x.id].cancelAt,
                                  w.mirror.rows[x.id].canceledAt) ==>
                  back.0.mirror.rows[x.id] == w.mirror.rows[x.id])
  {
  }

  /** What the last accepted cancellation or resume of a run asked for. */
  function LastAccepted(x: Setting, w: World, actions: seq<Action>): Option<bool>
    requires w.sub.price in x.prices
  {
    if actions == [] then None
    else
      var n := |actions| - 1;
      RunKeepsPrice(x, w, actions[..n]);
      var last, answer := actions[n], Act(x, Run(x, w, actions[..n]), actions[n]).1;
      if last.Cancel? && answer == Applied then Some(true)
      else if last.Resume? && answer == Applied then Some(false)
      else LastAccepted(x, w, actions[..n])
  }

  lemma {:induction false} RunKeepsPrice(x: Setting, w: World, actions: seq<Action>)
    requires w.sub.price in x.prices
    ensures Run(x, w, actions).sub.price in x.prices
    decreases actions
  {
    hide Act;
    if actions != [] {
      ActKeepsPrice(x, w, actions[0]);
      RunKeepsPrice(x, Act(x, w, actions[0]).0, actions[1..]);
    }
  }

  lemma {:induction false} RunAppend(x: Setting, w: World, actions: seq<Action>, a: Action)
    requires w.sub.price in x.prices
    ensures Run(x, w, actions).sub.price in x.prices
    ensures Run(x, w, actions + [a]) == Act(x, Run(x, w, actions), a).0
    decreases actions
  {
    hide Act;
    if actions == [] {
      ActKeepsPrice(x, w, a);
      assert [] + [a] == [a] && [a][1..] == [];
      assert Run(x, w, [a]) == Run(x, Act(x, w, a).0, []);
    } else {
      ActKeepsPrice(x, w, actions[0]);
      assert (actions + [a])[0] == actions[0] && (actions + [a])[1..] == actions[1..] + [a];
      RunAppend(x, Act(x, w, actions[0]).0, actions[1..], a);
    }
  }

  lemma ActMovesCanceling(x: Setting, w: World, a: Action)
    requires w.sub.price in x.prices
    ensures var r := Act(x, w, a);
            r.0.sub.canceling == if a.Cancel? && r.1 == Applied then true
                                 else if a.Resume? && r.1 == Applied then false else w.sub.canceling
  {
    hide M.Apply, Found, ReadPeriod, SameCurrency, CurrenciesClash, ChangeEvents, ReleaseEvents;
  }

  /** Over whole runs: a cancellation is queued exactly when the last accepted of all cancel and resume requests was a
      cancellation, or there was none and it was queued from the start. */
  lemma {:induction false} CancelingIsLastAccepted(x: Setting, w: World, actions: seq<Action>)
    requires w.sub.price in x.prices
    ensures Run(x, w, actions).sub.canceling
         == match LastAccepted(x, w, actions) case Some(on) => on case None => w.sub.canceling
    decreases |actions|
  {
    hide Act;
    if actions != [] {
      var n := |actions| - 1;
      CancelingIsLastAccepted(x, w, actions[..n]);
      RunAppend(x, w, actions[..n], actions[n]);
      assert actions == actions[..n] + [actions[n]];
      ActMovesCanceling(x, Run(x, w, actions[..n]), actions[n]);
    }
  }

  // ------------------------------------------------------------------ the gap after a downgrade

  /** Deliver whatever is under way. */
  function Drain(w: World): World
    decreases |w.sent| - w.seen
  {
    if w.seen < |w.sent| then Drain(DeliverStep(w)) else w
  }

  lemma DeliverKeepsFound(x: Setting, w: World)
    requires Sound(x, w)
    ensures Found(x, DeliverStep(w).mirror) <==> Found(x, w.mirror)
  {
    if w.seen < |w.sent| {
      OursIsSchedule(x.id, w.sent[w.seen]);
      M.ScheduleStepIsInvisible(w.mirror, w.sent[w.seen]);
      hide M.Apply, M.LastEffect, Ours;
      var now, was := DeliverStep(w).mirror, w.mirror;
      forall id | id in was.rows
        ensures id in now.rows && now.rows[id].customer == was.rows[id].customer
                && now.rows[id].status == was.rows[id].status && now.rows[id].createdAt == was.rows[id].createdAt
      {
      }
    }
  }

  lemma {:induction false} DrainKeeps(x: Setting, w: World)
    requires Sound(x, w)
    ensures var last := Drain(w);
            Sound(x, last) && last.seen == |last.sent| && last.sent == w.sent && last.sub == w.sub
            && last.mirror.catalog == w.mirror.catalog && (Found(x, last.mirror) <==> Found(x, w.mirror))
    decreases |w.sent| - w.seen
  {
    SoundParts(x, w);
    if w.seen < |w.sent| {
      DeliverKeepsSound(x, w);
      DeliverKeepsFound(x, w);
      DeliverKeepsCatalog(x, w);
      hide Sound, Found, M.Apply;
      DrainKeeps(x, DeliverStep(w));
    }
  }

  lemma DeliverKeepsCatalog(x: Setting, w: World)
    requires Sound(x, w)
    ensures DeliverStep(w).mirror.catalog == w.mirror.catalog
  {
    if w.seen < |w.sent| { M.StepMovesPending(w.mirror, w.sent[w.seen], x.id); }
  }

  /** What a deferred change of an unpinned subscription sends: a schedule of one phase, which announces nothing, and
      then its two phases, which announce the change if the catalog knows the price. */
  lemma DeferredSends(x: Setting, w: World, c: Change)
    requires Sound(x, w) && w.sub.pinned == None && ChangePlanStep(x.prices, w.sub, c).1 == Deferred
    ensures Readable(w.sub)
    ensures var phases := TwoPhases(w.sub, c.newPrice, WantedQuantity(w.sub, c));
            && ChangePlanStep(x.prices, w.sub, c).0.pinned == Some(phases)
            && ChangeEvents(x.prices, x.id, w.sub, c) == [Announce(x.id, OnePhase(w.sub)), Announce(x.id, phases)]
            && !Announces(w.mirror.catalog, x.id, Announce(x.id, OnePhase(w.sub)))
            && (Announces(w.mirror.catalog, x.id, Announce(x.id, phases))
                <==> c.newPrice != "" && c.newPrice in w.mirror.catalog.prices)
  {
    hide M.LastEffect, Ours, CurrenciesClash, SameCurrency, ReadPeriod;
    var phases := TwoPhases(w.sub, c.newPrice, WantedQuantity(w.sub, c));
    assert M.ParsePending(Payload(x.id, OnePhase(w.sub))) == None;
    assert M.Truthy(Some(c.newPrice)) ==> M.ParsePending(Payload(x.id, phases)).Some?
                                          && M.ParsePending(Payload(x.id, phases)).value.0 == c.newPrice;
  }

  lemma CancelOutcomes(x: Setting, w: World, f: CancelFields)
    requires Found(x, w.mirror)
    ensures CancelStep(x, w, f).1 == Applied <==> CancelStep(x, w, f).1 != Failed(Pinned)
  {
  }

  /** The two events of a fresh schedule, with everything before them taken back. */
  lemma TwoNewEvents(catalog: M.Catalog, id: string, sent: seq<M.Event>, n: nat, seen: nat)
    requires |sent| == n + 2 && n <= seen <= |sent| && (n > 0 ==> sent[n - 1].ScheduleCleared?)
    requires sent[n].ScheduleChanged? && sent[n + 1].ScheduleChanged? && !Announces(catalog, id, sent[n])
    ensures StillShown(catalog, id, sent, seen) <==> seen == n + 2 && Announces(catalog, id, sent[n + 1])
  {
    hide Announces;
    if StillShown(catalog, id, sent, seen) {
      var i :| 0 <= i < seen && Announces(catalog, id, sent[i]) && NotClearedAfter(sent, i);
      if i == n - 1 { AnnouncesIsChanged(catalog, id, sent[i]); }
    }
    if seen == n + 2 && Announces(catalog, id, sent[n + 1]) { assert NotClearedAfter(sent, n + 1); }
  }

  lemma AnnouncesIsChanged(catalog: M.Catalog, id: string, e: M.Event)
    requires Announces(catalog, id, e)
    ensures e.ScheduleChanged?
  {
  }

  /** The state after that change: two events more, everything before them taken back. */
  lemma DeferredWorld(x: Setting, w: World, c: Change)
    requires Sound(x, w) && w.seen == |w.sent| && w.sub.pinned == None
    requires ChangePlanStep(x.prices, w.sub, c).1 == Deferred
    ensures var after, n := Act(x, w, ChangePlan(c)).0, |w.sent|;
            && Sound(x, after) && after.mirror == w.mirror && after.sub.pinned.Some?
            && |after.sent| == n + 2 && after.seen == n && NoClearUnderWay(after)
            && after.sent[n].ScheduleChanged? && after.sent[n + 1].ScheduleChanged?
            && (n > 0 ==> after.sent[n - 1].ScheduleCleared?)
            && !Announces(w.mirror.catalog, x.id, after.sent[n])
            && (Announces(w.mirror.catalog, x.id, after.sent[n + 1])
                <==> c.newPrice != "" && c.newPrice in w.mirror.catalog.prices)
  {
    ChangeKeepsSound(x, w, c);
    DeferredSends(x, w, c);
    if w.sent != [] { LastIsClear(x, w); }
    hide Sound, Announces, ChangePlanStep, ChangeEvents, TwoPhases, OnePhase, Payload;
  }

  /** The gap: right after a downgrade was deferred, with nothing under way before, a cancellation is refused; and when
      its events have arrived, it is accepted exactly if the catalog knows the new price. */
  lemma CancelInTheGap(x: Setting, w: World, c: Change, f: CancelFields)
    requires Sound(x, w) && Found(x, w.mirror) && w.seen == |w.sent| && w.sub.pinned == None
    requires ChangePlanStep(x.prices, w.sub, c).1 == Deferred
    ensures var after := Act(x, w, ChangePlan(c)).0;
            && CancelStep(x, after, f).1 == Failed(Pinned)
            && (CancelStep(x, Drain(after), f).1 == Applied
                <==> c.newPrice != "" && c.newPrice in w.mirror.catalog.prices)
  {
    var after, n := Act(x, w, ChangePlan(c)).0, |w.sent|;
    DeferredWorld(x, w, c);
    DrainKeeps(x, after);
    hide Sound, Announces, Found, Act, ChangePlanStep, CancelStep, Drain, StillShown;
    var last := Drain(after);
    TwoNewEvents(w.mirror.catalog, x.id, after.sent, n, n);
    TwoNewEvents(w.mirror.catalog, x.id, after.sent, n, n + 2);
    CancelRefusedWhenCurrent(x, after, f);
    CancelRefusedWhenCurrent(x, last, f);
    CancelOutcomes(x, last, f);
  }

  // ------------------------------------------------------------------ the requests, call by call

  /** Stripe and the mirror as they are; deliveries are counted elsewhere. */
  function Now(stripe: Stripe, mirror: M.Mirror): World
    requires stripe.Valid()
    reads stripe, mirror
  {
    World(stripe.View(), mirror.Contents(), stripe.sent, 0, 0)
  }

  /** The customer's active row, if there is one, is the one of this subscription. */
  ghost predicate OnlyActive(stripe: Stripe, mirror: M.Mirror, customer: nat)
    reads mirror
  {
    forall id :: M.IsLatestActive(mirror.rows, customer, id) ==> id == stripe.id
  }

  method CancelSubscription(stripe: Stripe, mirror: M.Mirror, customer: nat, f: CancelFields) returns (outcome: Outcome)
    requires stripe.Valid() && OnlyActive(stripe, mirror, customer)
    modifies stripe, mirror`rows
    ensures stripe.Valid()
    ensures (Now(stripe, mirror), outcome)
         == CancelStep(Setting(stripe.prices, stripe.id, customer), old(Now(stripe, mirror)), f)
  {
    var picked := mirror.GetActiveForCustomer(customer);
    if picked == None {
      NoneFound(mirror.rows, customer, stripe.id);
      return Failed(NotFound);
    }
    assert picked.value == stripe.id;
    if mirror.rows[picked.value].scheduledPlan.Some? {
      ReleasePendingSchedule(stripe);
    }
    outcome := stripe.SetCanceling(true);
    if outcome == Applied {
      var written := mirror.MirrorCancelStateFromStripe(customer, f.status, f.cancelAt, f.canceledAt);
    }
  }

  method ResumeSubscription(stripe: Stripe, mirror: M.Mirror, customer: nat, f: CancelFields) returns (outcome: Outcome)
    requires stripe.Valid() && OnlyActive(stripe, mirror, customer)
    modifies stripe, mirror`rows
    ensures stripe.Valid()
    ensures (Now(stripe, mirror), outcome)
         == ResumeStep(Setting(stripe.prices, stripe.id, customer), old(Now(stripe, mirror)), f)
  {
    var picked := mirror.GetActiveForCustomer(customer);
    if picked == None {
      NoneFound(mirror.rows, customer, stripe.id);
      return Failed(NotFound);
    }
    assert picked.value == stripe.id;
    outcome := stripe.SetCanceling(false);
    if outcome == Applied {
      var written := mirror.MirrorCancelStateFromStripe(customer, f.status, f.cancelAt, f.canceledAt);
    }
  }

  method UpdateSeatCount(stripe: Stripe, mirror: M.Mirror, customer: nat, seats: int) returns (outcome: Outcome)
    requires stripe.Valid() && OnlyActive(stripe, mirror, customer)
    modifies stripe, mirror`rows
    ensures stripe.Valid()
    ensures (Now(stripe, mirror), outcome)
         == SeatStep(Setting(stripe.prices, stripe.id, customer), old(Now(stripe, mirror)), seats)
  {
    var picked := mirror.GetActiveForCustomer(customer);
    if picked == None {
      NoneFound(mirror.rows, customer, stripe.id);
      return Failed(NotFound);
    }
    assert picked.value == stripe.id;
    if seats < 1 {
      return Failed(Rejected);
    }
    outcome := stripe.SetSeats(seats);
    if outcome == Applied {
      var ok := mirror.MirrorSeatCount(picked.value, seats);
    }
  }

  method KeepCurrentPlan(stripe: Stripe, mirror: M.Mirror, customer: nat) returns (outcome: Outcome)
    requires stripe.Valid() && OnlyActive(stripe, mirror, customer)
    modifies stripe, mirror`rows
    ensures stripe.Valid()
    ensures (Now(stripe, mirror), outcome)
         == KeepPlanStep(Setting(stripe.prices, stripe.id, customer), old(Now(stripe, mirror)))
  {
    var picked := mirror.GetActiveForCustomer(customer);
    if picked == None {
      NoneFound(mirror.rows, customer, stripe.id);
      return Failed(NotFound);
    }
    assert picked.value == stripe.id;
    ReleasePendingSchedule(stripe);
    var cleared := mirror.ReleasePendingScheduleForCustomer(customer);
    outcome := Applied;
  }

  lemma NoneFound(rows: map<string, M.Row>, customer: nat, id: string)
    requires forall j | j in rows :: !(rows[j].customer == customer && IsActive(rows[j].status))
    ensures !M.IsLatestActive(rows, customer, id)
  {
  }
}
