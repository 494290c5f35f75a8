# A verified model of the SaaS starter's core

The repository is a subscription product: organisations with members, invitations and seats; Stripe
subscriptions mirrored into local tables; sessions built from access, refresh and one-time tokens; a
credit ledger; and localized prices. This project models the parts of it that carry a protocol, an
invariant over whole runs, or real arithmetic, and proves what those parts are for.

`dafny verify dfyconfig.toml` checks everything. No file depends on anything outside this directory.

## How the model is laid out

A database is a value made of maps from primary keys to rows, and each request, task or webhook handler
is a function from one such value to the next. Properties of runs are lemmas about sequences of those
steps. Where the source updates rows in place there is also a class whose methods do the same in the
same order (including the savepoint and its rollback), each proved equal to the step function, so that the
lemmas speak about the methods.

| component | modules |
|---|---|
| Organisations | `OrgData` (tables, foreign keys), `OrgCascade` (deletion), `OrgSurvivors` (what a deletion leaves), `OrgSteps` (requests), `OrgEffects` (when each goes through and what it changes), `OrgInvariants`, `OrgOwnership`, `OrgSeats`, `OrgCheckout`, `OrgCancellation`, `OrgAccountDeletion`, `OrgStore` (the class), `Slug` |
| Subscriptions | `SubscriptionMirror` (two webhook streams, one row), `StripeSchedule` (plan changes under Stripe's rules), `ScheduleDelivery` (Stripe and the row side by side, with events under way) |
| Sessions | `AuthCache`, `RefreshTokens`, `OneTimeTokens`, `OAuthExchange` |
| Money | `Credits`, `Currency`, `Vat`, `PriceSync` |
| API boundary | `CaseTransform` |
| Shared | `Options`, `Text` |

Most steps are atomic. Two protocols are not: a one-time token is redeemed by a clock reading, a SELECT and
a conditional UPDATE, and a sign-in code by three cache calls; there the single statements of any number
of callers interleave freely.

## What the code does differently from what it says

Each of these is proved, with the exact condition under which the promise does hold.

* **One owner per org.** Removing a member deletes the member's account. If that member owns another org,
  that org is left without an owner (`OrgOwnership.RemovalOrphansTheMembersTeam`). Ownership holds
  throughout a run exactly when no step does this (`OrgOwnership.OwnedThroughoutIff`).
* **Account deletion** is meant to take the orgs a user owns. It takes the orgs the user created, which a
  transfer does not change. Every remaining org stays owned exactly when the user owns no org that somebody
  else created (`OrgAccountDeletion.AccountDeletionKeepsOwnersIff`).
* **A code is exchanged at most once.** The marker `oauth_exchange:C:consumed` of a code `C` is at the same
  time the token entry of the string `C:consumed`. Every schedule is at most once exactly when no two
  callers of `C` share the endpoint with a caller presenting that string
  (`OAuthExchange.AtMostOnceIff`).
* **Event order.** Subscription events and schedule events may be swapped except when the subscription
  event creates the row and the schedule event announces a change for it: delivered first, the schedule
  event is dropped (`SubscriptionMirror.SwapIff`).
* **A failed plan change.** An immediate one has by then released the schedule, so a pending downgrade is
  lost; a deferred one whose last request Stripe refuses has by then created a schedule, which stays
  (`StripeSchedule.FailureUnchangedIff`). The guard against mixed currencies lets a price without a currency
  through; Stripe then refuses the phases.
* **Cancelling a pinned subscription.** The fast path is called safe. Between a deferred downgrade and the
  arrival of its events a cancellation is refused, and for good if the catalog does not know the new price
  (`ScheduleDelivery.CancelRefusedIff`, `ScheduleDelivery.CancelInTheGap`). Resuming and changing seats are
  refused as long as a schedule pins the subscription (`ScheduleDelivery.ResumeAndSeatsRefusedIff`).
* **Period bounds.** Both readers mean to fail only when neither the line item nor the subscription has an
  integer. The webhook reader also fails when a null or a non-integer on the item hides the subscription's
  integer (`SubscriptionMirror.ItemFirstFindsIff`), the plan-change reader when a non-integer does
  (`StripeSchedule.ReadPeriodFindsIff`); on a null they disagree (`StripeSchedule.ReadersAgreeIff`).
* **Password changes.** The stamp of an access token keeps whole seconds, so a change within the second of
  the stamp revokes nothing (`AuthCache.ChangeRevokesIff`).
* **The cached user.** The comment on the receiver says it also covers `QuerySet.update()`, which sends no
  signal. Such a write keeps the cache in step exactly when the user is not cached or the row is the cached
  one (`AuthCache.BulkUpdateCoherentIff`). No step of the application makes one.
* **Friendly rounding** turns positive amounts up to 0.24 into -0.01 and so is neither non-negative,
  idempotent nor monotone there (`Currency.CharmEnding`, `Currency.TwoDecimalIdempotentIff`,
  `Currency.TwoDecimalMonotoneIff`). An uncurated
  country price in that range makes the whole daily sync fail and roll back (`PriceSync.BreaksIff`).
* **Case transforms** are called inverses. They are, exactly on keys without uppercase letters and on keys
  without an underscore before a lowercase letter, respectively (`CaseTransform.SnakeCamelIff`,
  `CaseTransform.CamelSnakeIff`).

## Model

| member | source | states |
|---|---|---|
| OrgCascade.BatchedEqualsSequential | core/apps/orgs/services.py:463-538 | deleting a list of orgs in one transaction leaves the same database as deleting them one after another |
| OrgCascade.OrderIrrelevant | core/apps/orgs/services.py:397-437 | the order of one-by-one deletions, and repeats in it, change nothing |
| OrgCascade.WhoIsRemoved | core/apps/orgs/services.py:415-435 | an account goes iff all its memberships lie in the batch, it has one there, and it has no active personal subscription; everybody else keeps account, outside memberships and that subscription |
| OrgCascade.DeletableCompose | core/apps/orgs/services.py:514-536 | the users removed by batch A and then by batch B are those removed by A and B at once |
| OrgCascade.PersonalSubSurvives | core/apps/orgs/services.py:378-394 | a survivor's personal subscription survives with it, which rests on a customer belonging to a user or to an org and never to both |
| OrgCascade.CascadeCompose | core/apps/orgs/services.py:514-538 | two cascades in a row are the cascade of the union |
| OrgSurvivors.CascadeLeaves | core/apps/orgs/models.py:104-125 | after any deletion of orgs, row by row: an invitation stays iff its org does, unchanged but for an author that is forgotten iff the account is gone; a standing org keeps slug and creator by the same rule; memberships, customers and subscriptions live as long as what they point to |
| OrgSurvivors.UserDeletionLeaves | core/apps/orgs/models.py:22-35 | the same after a deletion of accounts, which takes no org |
| OrgSurvivors.AccountDeletionLeaves | core/core/saasmint_core/services/gdpr.py:48-81 | the same after an account deletion |
| OrgEffects.PayingMembersStay | core/apps/orgs/services.py:378-394 | a member with an active personal plan on a customer of their own keeps account and subscription when the orgs go |
| OrgEffects.LapsedMembersGo | core/apps/orgs/services.py:415-435 | one whose subscriptions have ended, or sit on no customer of their own, goes with the last org |
| OrgEffects.InvitationOutlivesAuthor | core/apps/orgs/views.py:301-316 | removing the member who sent an invitation leaves it pending, with the author forgotten; until it expires only a registered address or a lack of seats keeps it from being accepted |
| OrgStore.StatementsAreTheCascade | core/apps/orgs/services.py:407-437 | cancelling invitations, then deleting users, memberships and orgs in that order amounts to the cascade |
| OrgStore.FirstIsNewest | core/apps/orgs/services.py:488-506 | the first row per org of the one ordered query is what a query for that org alone returns |
| OrgCancellation.BatchedCancelsEqualSequential | core/apps/orgs/services.py:440-512 | reading all Stripe ids before the batch cancels the same subscriptions, in the same order, as reading each just before its org goes |
| OrgCancellation.Newest | core/apps/orgs/services.py:548-566 | the org's newest active subscription that Stripe knows; none iff there is none |
| OrgStore.OrgStore.DeleteOrgsCreatedByUser | core/apps/orgs/services.py:463-545 | the orgs the user created, each once; the batched deletion equals their deletion one by one, in tables and in cancelled Stripe ids |
| OrgStore.OrgStore.DeleteOrgList | core/apps/orgs/services.py:488-545 | the same for any list of orgs |
| OrgStore.OrgStore.DeleteAccount | core/core/saasmint_core/services/gdpr.py:48-81 | customer, created orgs, memberships, account, in that order; and the Stripe ids cancelled: the user's own as it was before, then those of the created orgs as they were before |
| OrgStore.OrgStore.GetActiveForUser | core/apps/billing/repositories.py:127-138 | the newer answer of the two queries is the newest active subscription of the user |
| OrgCancellation.NewestOfUnion | core/apps/billing/repositories.py:127-138 | splitting the query in two loses nothing |
| OrgCancellation.UnpaidKeepsCancels | core/core/saasmint_core/services/gdpr.py:66-79 | deleting the user's customer first does not change what the created orgs cancel |
| OrgCancellation.PersonalCancelsMeans | core/core/saasmint_core/services/gdpr.py:66-71 | which id an account deletion cancels: at most one, that of the newest subscription that is active and names the user or sits on the user's customer, and none if Stripe does not know that one |
| OrgCancellation.SnapshotMeans | core/apps/orgs/services.py:548-566 | which id an org deletion cancels: that of the newest active subscription on the org's customer that Stripe knows |
| OrgOwnership.OrgsThatGo | core/apps/orgs/services.py:484-486 | an account deletion takes exactly the orgs the user created, whoever owns them |
| OrgOwnership.OwnersThatStay | core/apps/users/views.py:81-108 | a remaining org keeps its owner unless the owner is the one who leaves |
| OrgAccountDeletion.AccountDeletionKeepsOwnersIff | core/apps/users/views.py:91-98 | every remaining org stays owned iff the user owns no org that somebody else created |
| OrgAccountDeletion.TransferKeepsCreator | core/apps/orgs/views.py:339-374 | after a transfer the former owner's account deletion still takes the org, and the new owner's leaves it without an owner |
| OrgStore.OrgStore.DeleteBatch | core/apps/orgs/services.py:397-437 | the four statements leave the cascade of the batch, whose rows `OrgSurvivors.CascadeLeaves` describes one by one |
| OrgStore.OrgStore.DeleteOrg | core/apps/orgs/services.py:440-460 | owner only; the cascade of the org, and the id to cancel as it was before |
| OrgStore.OrgStore.SubscriptionCanceled | core/apps/orgs/tasks.py:24-52 | a missing org is a no-op, an existing one goes with its cascade |
| OrgStore.OrgStore.CreateOrgWithOwner | core/apps/orgs/services.py:198-255 | replay short-circuit, else three inserts; a violated constraint rolls all of them back |
| OrgCheckout.CheckoutCreates | core/apps/orgs/services.py:236-255 | a first delivery adds exactly one org, one membership and at most one customer: the buyer is creator, owner and billing member and owned no org before; every old row stays as it was |
| OrgCheckout.NewOrgStartsAlone | core/apps/orgs/services.py:236-255 | the new org has the buyer as only member, no invitation, no seat limit yet and a slug of its own |
| OrgCheckout.ReplayReturnsTheSameOrg | core/apps/orgs/services.py:218-234 | whatever happened in between, a later delivery for the customer reports the same org and current membership and changes nothing, or is refused without effect |
| OrgCheckout.AttachedReplay | core/apps/orgs/services.py:223-234 | what a delivery for an attached customer answers, case by case |
| OrgCheckout.RunKeepsAttachment | core/apps/billing/models.py:92-122 | a customer stays attached to its one org as long as that org exists |
| OrgCheckout.RefusedChangesNothing | core/apps/orgs/views.py:567-603 | a refused request leaves every table alone, except that an expired invitation is marked so |
| OrgCheckout.NewSlugIsFree | core/apps/orgs/services.py:38-82 | the slug of a new org is used by no org |
| OrgInvariants.StepKeepsValid | core/apps/orgs/models.py:53-81 | every request, account deletion included, keeps the schema's foreign keys, unique and check constraints and fresh keys, and the code's own one owner per org |
| OrgInvariants.RunKeepsValid | core/apps/orgs/models.py:131-137 | so does every run, including one pending invitation per org and address |
| OrgInvariants.CascadeKeepsValid | core/apps/orgs/services.py:397-437 | so does every deletion of any set of orgs |
| OrgInvariants.DeleteAccountKeepsValid | core/core/saasmint_core/services/gdpr.py:48-81 | so does an account deletion |
| OrgOwnership.OwnerAfterStep | core/apps/orgs/views.py:350-362 | the owner of a standing org changes by transfer only, or is lost when a removal or an account deletion deletes the owner's account |
| OrgOwnership.KeepsOwnersIff | core/apps/orgs/views.py:285-316 | a step keeps every org owned iff it does not delete the account of somebody who owns an org that stays |
| OrgOwnership.DepartingOwnerOrphans | core/apps/orgs/views.py:311-316 | whenever the owner departs and the org stays, nobody owns it |
| OrgOwnership.OwnedThroughoutIff | core/apps/orgs/views.py:301-316 | every org is owned in every state of a run iff no step of the run does that |
| OrgOwnership.ExactlyOneOwner | core/apps/orgs/models.py:63-80 | in such runs every org has exactly one owner, who is flagged as billing |
| OrgOwnership.RemovalOrphansTheMembersTeam | core/apps/orgs/views.py:311-316 | how an org loses its owner: a member starts a team and is then removed from the org they had joined |
| OrgOwnership.OrphaningExample | core/apps/orgs/views.py:285-316 | the situation exists |
| OrgOwnership.CascadeKeepsOwners | core/apps/orgs/services.py:415-437 | a cascade deletes no owner of an org it leaves standing |
| OrgOwnership.PatchStaysBelowCaller | core/core/saasmint_core/services/orgs.py:8-24 | a patch reaches only members below the caller, leaves them below the caller, sets what it was asked to set, never makes an owner, and touches nobody else |
| OrgSeats.StepSeats | core/apps/orgs/views.py:469-491 | every step keeps members within the seats; every step but a reduction keeps members plus pending invitations within them |
| OrgSeats.RunKeepsCap | core/apps/orgs/services.py:338-353 | no run takes an org beyond its seats |
| OrgSeats.RunKeepsCommitted | core/apps/orgs/views.py:485-491 | between reductions pending invitations are covered too |
| OrgSeats.InvitationHoldsASeat | core/apps/orgs/services.py:338-370 | accepting a sent invitation is never refused for seats unless a reduction came in between |
| OrgSeats.RunKeepsOffer | core/apps/orgs/models.py:104-137 | an invitation keeps org, address, role and expiry for as long as it exists |
| OrgEffects.SeatLimitMeans | core/apps/orgs/services.py:298-305 | the seat limit that binds an org: that of the first active subscription on its customer, none without one |
| OrgEffects.HeadCount | core/apps/billing/views.py:497-510 | the head-count compared with the seats is the number of accounts that belong to the org |
| OrgEffects.InviteMeans | core/apps/orgs/views.py:412-466 | an invitation goes out iff an owner or admin offers a lower role than owner to an address with neither account nor pending invitation while members and pending invitations leave a seat; one pending row, good for seven days, and nothing else changes |
| OrgEffects.AcceptMeans | core/apps/orgs/views.py:567-603 | a pending invitation is accepted iff it has not expired, its address has no account and a seat is free; the new account joins with the role offered and no billing right |
| OrgEffects.OnlyPendingAccepted | core/apps/orgs/views.py:567-575 | any other invitation is refused without effect |
| OrgEffects.CloseMeans | core/apps/orgs/views.py:498-507 | cancelling and declining: who may, on which invitations, and that only the status changes |
| OrgEffects.ManagesMeans | core/apps/orgs/views.py:107-124 | who counts as owner or admin, and whether a stranger reads not found or forbidden |
| OrgEffects.PatchMeans | core/apps/orgs/views.py:242-269 | a patch goes through iff the caller may manage the target and hand out the new role; what it does not name stays |
| OrgEffects.RemoveMeans | core/apps/orgs/views.py:285-316 | a removal goes through iff the caller may manage the target; the account goes, no org does, and every other row is as the schema leaves it |
| OrgEffects.TransferMeans | core/apps/orgs/views.py:339-374 | a transfer goes through iff the owner names an admin who owns no org; the new owner has the billing right, the former one is an admin without, nobody else changes |
| OrgEffects.DeleteOrgMeans | core/apps/orgs/services.py:440-460 | the owner alone deletes an org; every other org stays |
| OrgEffects.SubscriptionEndMeans | core/apps/orgs/tasks.py:24-52 | the end of a team subscription deletes the org like its owner would; a second notice changes nothing |
| OrgEffects.ResizeMeans | core/apps/billing/views.py:497-510 | seats change iff a billing member asks for at least one seat and the head-count on an active subscription of the org |
| OrgEffects.CheckoutMeans | core/apps/orgs/services.py:218-255 | a checkout reports an org iff the user belongs to the one the customer is attached to, or owns none while the customer is new |
| OrgEffects.NormalizeMeans | core/apps/orgs/services.py:358-363 | the stored address keeps everything before its last at-sign and has the rest in lower case |
| OrgStore.OrgStore.Invite | core/apps/orgs/views.py:412-466 | rights, duplicate, pending and seat checks in order, then one pending row |
| OrgStore.OrgStore.Accept | core/apps/orgs/views.py:567-603 | expiry, duplicate and seat checks, then account, membership and status |
| OrgStore.OrgStore.CancelInvitation | core/apps/orgs/views.py:498-507 | only a pending invitation of this org, and only its status |
| OrgStore.OrgStore.Decline | core/apps/orgs/views.py:613-622 | only by the addressee, and only the status |
| OrgStore.OrgStore.PatchMember | core/apps/orgs/views.py:242-269 | the rank checks and the two fields |
| OrgStore.OrgStore.RemoveMember | core/apps/orgs/views.py:285-316 | the rank checks, then the account with everything that hangs on it; `OrgEffects.RemoveMeans` says when and what is left |
| OrgStore.OrgStore.TransferOwnership | core/apps/orgs/views.py:339-374 | owner and admin swap, unless the new owner already owns an org |
| OrgStore.OrgStore.ResizeSeats | core/apps/billing/views.py:497-510 | seats of an active team subscription, never below one or the head-count |
| OrgSteps.NormalizeKeepsIdentity | core/apps/orgs/services.py:358-363 | the address stored for an invitee is the invited one up to letter case |
| OrgSteps.First | core/apps/orgs/services.py:298-305 | the row the seat lock picks: none iff there is none, else the least key |
| Slug.GenerateUniqueSlug | core/apps/orgs/services.py:38-82 | terminates for every table; the base if free, else the base with the least free suffix from 2, absent from the whole table although only variants are consulted |
| Slug.PickSuffix | core/apps/orgs/services.py:79-82 | the loop stops at the least free suffix |
| Slug.BaseShape | core/apps/orgs/services.py:52-59 | the base matches `[a-z0-9][a-z0-9-]*[a-z0-9]` |
| Slug.BaseOfSlug | core/apps/orgs/services.py:52-58 | a name that is a slug already is its own base |
| Slug.BaseTwice | core/apps/orgs/services.py:52-58 | so the base of a base is that base |
| Slug.KeepSlugCharsAppend | core/apps/orgs/services.py:53-53 | the filter works letter by letter |
| Slug.StripHyphensMeans | core/apps/orgs/services.py:55-55 | of any text with hyphens around it what is left is what stands between them |
| Slug.ChosenUnique | core/apps/orgs/services.py:77-82 | the rule determines the slug |
| Slug.CandidateInjective | core/apps/orgs/services.py:80-82 | different suffixes print differently |
| SubscriptionMirror.StreamsAreIndependent | core/core/saasmint_core/services/webhooks.py:245-290 | the row after any interleaving is everything but the pending change from the subscription events alone, and the pending change from the schedule events alone; dispatched org deletions depend on the former only |
| SubscriptionMirror.RelativeOrderIrrelevant | core/core/saasmint_core/services/webhooks.py:92-113 | two deliveries that keep the order within each stream end in the same row |
| SubscriptionMirror.SubscriptionStreamDecides | core/core/saasmint_core/services/webhooks.py:293-385 | for rows old and new, schedule events change nothing the subscription stream decides |
| SubscriptionMirror.PendingIsLastEffect | core/core/saasmint_core/services/webhooks.py:429-524 | the pending change of an existing row is what the last effective schedule event said |
| SubscriptionMirror.ScheduleStreamDecides | core/core/saasmint_core/services/webhooks.py:429-524 | the last effective event is the same with the other stream filtered out |
| SubscriptionMirror.SwapIff | core/core/saasmint_core/services/webhooks.py:471-478 | exactly when a subscription event, deletions included, and a schedule event may not be swapped |
| SubscriptionMirror.LastUpsertDecides | core/core/saasmint_core/services/webhooks.py:259-290 | after a resolving last update nothing older shows but the row's age and its pending change; `RowMirrorsPayload` gives the row field by field |
| SubscriptionMirror.ResolvesIff | core/core/saasmint_core/services/webhooks.py:310-340 | which payloads resolve: an item, two readable bounds, a known customer, price and status |
| SubscriptionMirror.RowMirrorsPayload | core/core/saasmint_core/services/webhooks.py:259-290 | every field of the row after a resolving event, from the payload: customer, user, status, plan, seats with one for none, trial end, both bounds, both cancellation times, currency and age; no other row changes |
| SubscriptionMirror.CurrencyMeans | core/core/saasmint_core/services/webhooks.py:286-288 | the currency is the subscription's, else the price's, else dollars, in lower case |
| SubscriptionMirror.EventConfirmsCancel | core/core/saasmint_core/services/billing.py:237-240 | the event that confirms a cancellation leaves status and both times as the request wrote them |
| SubscriptionMirror.EventConfirmsSeats | core/core/saasmint_core/services/subscriptions.py:266-269 | the event that confirms a seat change leaves the seats as the request wrote them |
| SubscriptionMirror.EventConfirmsRelease | core/core/saasmint_core/services/billing.py:317-321 | the event that confirms a release leaves the row as the request wrote it |
| SubscriptionMirror.ParsedMeans | core/core/saasmint_core/services/webhooks.py:388-426 | what a schedule event announces: the price of the second phase, at the end of the first or else the start of the second |
| SubscriptionMirror.DeletionEnds | core/core/saasmint_core/services/webhooks.py:354-385 | a deleted subscription is inactive, and exactly a known customer's org is dispatched when the row names no user |
| SubscriptionMirror.EndOfSyncedSubscription | core/core/saasmint_core/services/webhooks.py:374-385 | from update to deletion: a team subscription takes its org along, a personal one nothing |
| SubscriptionMirror.RunKeepsASeat | core/core/saasmint_core/services/webhooks.py:270-270 | whatever writes it, a row never shows fewer than one seat |
| SubscriptionMirror.ReplayChangesNoRow | core/core/saasmint_core/services/webhooks.py:300-308 | a replay changes no row |
| SubscriptionMirror.RunKeepsPaired | core/core/saasmint_core/services/webhooks.py:388-524 | across all writers the scheduled plan and date are both null or both set |
| SubscriptionMirror.ExtractPeriodWindow | core/core/saasmint_core/services/webhooks.py:221-242 | both bounds, item first; and exactly when it fails although each bound is to be found in one of the two places |
| SubscriptionMirror.ItemFirstFindsIff | core/core/saasmint_core/services/webhooks.py:224-241 | the reader fails only when neither place has an integer, except exactly when a null or a non-integer on the item hides the subscription's |
| SubscriptionMirror.NullBoundFails | core/core/saasmint_core/services/webhooks.py:231-235 | an event with a null bound on its item changes nothing, while the same event without the field mirrors the bound |
| StripeSchedule.ReadPeriodFindsIff | core/core/saasmint_core/services/subscriptions.py:149-171 | the other reader does more than it says exactly when a non-integer on the item hides an integer |
| StripeSchedule.ReadersAgreeIff | core/core/saasmint_core/services/subscriptions.py:163-171 | exactly when the two readers read the same bound |
| StripeSchedule.NullBoundDefers | core/core/saasmint_core/services/subscriptions.py:197-199 | where the webhook reader drops the event, a downgrade goes ahead with the subscription's bound |
| SubscriptionMirror.ParseSchedulePendingChange | core/core/saasmint_core/services/webhooks.py:388-426 | next price and boundary of a two-phase schedule, else nothing |
| SubscriptionMirror.Mirror.SyncSubscriptionFromData | core/core/saasmint_core/services/webhooks.py:293-351 | fails without effect iff the payload does not resolve, else rebuilds the row, field by field as in `RowMirrorsPayload`, and keeps its pending change and age |
| SubscriptionMirror.Mirror.OnSubscriptionDeleted | core/core/saasmint_core/services/webhooks.py:354-385 | status and time, and the org to delete for a team subscription; an unknown row is a no-op |
| SubscriptionMirror.Mirror.OnSubscriptionScheduleUpserted | core/core/saasmint_core/services/webhooks.py:429-496 | the pending change of a known row, if event and price resolve |
| SubscriptionMirror.Mirror.OnSubscriptionScheduleCleared | core/core/saasmint_core/services/webhooks.py:499-524 | both fields of a known row go to null |
| SubscriptionMirror.Mirror.GetActiveForCustomer | core/apps/billing/repositories.py:140-154 | a latest active row of the customer; none iff there is none |
| SubscriptionMirror.Mirror.ReleasePendingScheduleForCustomer | core/core/saasmint_core/services/billing.py:299-325 | clears the pending change of the active row |
| SubscriptionMirror.Mirror.MirrorCancelStateFromStripe | core/core/saasmint_core/services/billing.py:354-385 | writes back cancellation times and a known status, nothing else |
| SubscriptionMirror.Mirror.MirrorSeatCount | core/core/saasmint_core/services/subscriptions.py:271-295 | writes back the seats, refusing fewer than one |
| StripeSchedule.ChangePlan | core/core/saasmint_core/services/subscriptions.py:36-104 | every call meets Stripe's rules: no pinned subscription is modified, no second schedule created, none released that is over; what is left behind whether or not Stripe carries out the last request, phases of mixed currencies included; and the events Stripe sends; `AmountsDecide` and `GoesThroughIff` give the branch by the amounts |
| StripeSchedule.ApplyImmediatePlanChange | core/core/saasmint_core/services/subscriptions.py:107-146 | release, then modify with the given seats, which Stripe may refuse |
| StripeSchedule.ScheduleDowngradeAtPeriodEnd | core/core/saasmint_core/services/subscriptions.py:174-249 | checks first, then create or reuse the schedule and set its two phases, which Stripe may refuse |
| StripeSchedule.DeferredShape | core/core/saasmint_core/services/subscriptions.py:228-249 | two phases meeting at the period end, same quantity, current price before and new price after; only for a downgrade in one currency |
| StripeSchedule.AppliedShape | core/core/saasmint_core/services/subscriptions.py:124-146 | no schedule left, new price, seats kept unless told otherwise; only when the call names no less (`AmountsDecide`) |
| StripeSchedule.AmountsDecide | core/core/saasmint_core/services/subscriptions.py:75-104 | whatever else the call names: less than the current amount never takes effect at once, and price and schedule survive it; anything else never defers |
| StripeSchedule.GoesThroughIff | core/core/saasmint_core/services/subscriptions.py:75-104 | exactly when a call is applied and exactly when it is deferred |
| StripeSchedule.FailureReads | core/core/saasmint_core/services/subscriptions.py:190-226 | why a call fails, reason by reason |
| StripeSchedule.SeatsCarried | core/core/saasmint_core/services/subscriptions.py:93-103 | the seats of a call that goes through: those named, else those there were, else one, in every phase |
| StripeSchedule.PresentPhase | core/core/saasmint_core/services/subscriptions.py:217-226 | what a failed deferred call leaves: present price and seats up to the period end |
| StripeSchedule.LastChangeDecides | core/core/saasmint_core/services/subscriptions.py:190-195 | after any run of downgrades without a quantity a further call has the outcome of that call alone; it leaves the same price, seats and phases exactly when it is immediate, or accepted, or there was the same schedule without the run, or it creates the schedule itself |
| StripeSchedule.RunPinned | core/core/saasmint_core/services/subscriptions.py:217-249 | such a run moves the schedule only: to the phases of the last accepted call, else to what there was, else to the single phase of a call that got no further than the create |
| StripeSchedule.UnknownPriceKeepsEarlierChange | core/core/saasmint_core/services/subscriptions.py:208-208 | an input where the earlier call shows |
| StripeSchedule.FailureUnchangedIff | core/core/saasmint_core/services/subscriptions.py:128-249 | a failed call leaves the subscription as it was iff it was deferred and found a schedule or was stopped by the guards, or was immediate and found none; and what it leaves otherwise |
| StripeSchedule.DeferredReachesMirror | core/core/saasmint_core/services/webhooks.py:407-426 | the schedule's event puts exactly the deferred change into the local row |
| ScheduleDelivery.RunKeepsSound | core/core/saasmint_core/services/webhooks.py:429-524 | over runs of plan changes, deliveries, subscription events, cancel, resume, seat and keep-plan requests, the row shows what the events delivered since the last local clear say, and the last event sent tells whether a schedule pins the subscription |
| ScheduleDelivery.CancelRefusedIff | core/core/saasmint_core/services/billing.py:242-271 | Stripe refuses a cancellation iff a schedule pins the subscription and no announced change has reached the row since it was last cleared |
| ScheduleDelivery.CancelRefusedAfterRun | core/core/saasmint_core/services/billing.py:254-259 | so in every state of every run |
| ScheduleDelivery.CancelRefusedWhenCurrent | core/core/saasmint_core/services/billing.py:254-259 | with no clearing event under way: iff the subscription is pinned and none of its schedule's delivered events parses and names a known price |
| ScheduleDelivery.CancelInTheGap | core/core/saasmint_core/services/billing.py:246-259 | right after a deferred downgrade a cancellation is refused; once the events have arrived it is accepted iff the catalog knows the new price |
| ScheduleDelivery.ResumeAndSeatsRefusedIff | core/core/saasmint_core/services/billing.py:328-351 | resuming and changing seats are refused without effect iff a schedule pins the subscription |
| ScheduleDelivery.AcceptedCancels | core/core/saasmint_core/services/billing.py:261-271 | an accepted cancellation is queued at Stripe and shows in the row, price and seats stay and nothing pins; a refused one queues nothing |
| ScheduleDelivery.AcceptedResumes | core/core/saasmint_core/services/billing.py:346-351 | an accepted resume takes it back in both places |
| ScheduleDelivery.AcceptedSeats | core/core/saasmint_core/services/subscriptions.py:286-295 | an accepted seat change shows in both places and touches nothing else |
| ScheduleDelivery.AcceptedKeepsPlan | core/core/saasmint_core/services/billing.py:313-325 | keeping the plan leaves no schedule, and no pending change in the row |
| ScheduleDelivery.RequestsTell | core/core/saasmint_core/services/billing.py:274-296 | a request causes one clearing event iff it released a schedule |
| ScheduleDelivery.CancelThenResume | core/core/saasmint_core/services/billing.py:328-351 | cancelling and resuming bring back the subscription but for the schedule, and the row |
| ScheduleDelivery.CancelingIsLastAccepted | core/core/saasmint_core/services/billing.py:223-351 | over whole runs: a cancellation is queued iff the last accepted of Cancel and Resume was a Cancel |
| ScheduleDelivery.CancelSubscription | core/core/saasmint_core/services/billing.py:223-271 | the requests to Stripe and the write to the row, in order; `AcceptedCancels` says what an accepted one leaves |
| ScheduleDelivery.ResumeSubscription | core/core/saasmint_core/services/billing.py:328-351 | the same for resuming |
| ScheduleDelivery.UpdateSeatCount | core/core/saasmint_core/services/subscriptions.py:252-295 | the same for seats |
| ScheduleDelivery.KeepCurrentPlan | core/core/saasmint_core/services/billing.py:299-325 | release at Stripe, then clear the row |
| StripeSchedule.ReleasePendingSchedule | core/core/saasmint_core/services/billing.py:274-296 | releases what may be released, and nothing twice |
| AuthCache.CachedRefinesUncached | core/apps/users/authentication.py:342-362 | after every run, registrations and deletions included, cached authentication answers what the table alone would |
| AuthCache.AuthenticatedIff | core/apps/users/authentication.py:319-362 | who gets in after any run: the bearer of an unexpired access token for an active account, stamped no earlier than the second of the last password change |
| AuthCache.RefusalReads | core/apps/users/authentication.py:319-362 | how a refusal reads: expiry first, then the token's kind, the account, the stamp |
| AuthCache.ChangeRevokesOlderTokens | core/apps/users/authentication.py:353-362 | a password change revokes for good every token stamped in an earlier whole second |
| AuthCache.ChangeRevokesIff | core/apps/users/authentication.py:58-73 | right after a change a good token passes iff its stamp is not from an earlier whole second |
| AuthCache.StampNeverFalls | core/apps/users/authentication.py:63-71 | the stamp a token is compared with never falls |
| AuthCache.FreshTokenPasses | core/apps/users/auth_views.py:419-423 | the token handed out with the new password is accepted for its lifetime |
| AuthCache.MintedTokenLapses | core/apps/users/authentication.py:58-73 | a minted token names its account and is good for fifteen minutes and no longer |
| AuthCache.GoneStaysGone | core/apps/users/models.py:104-113 | nobody gets the id of a deleted account |
| AuthCache.DeletionLocksOut | core/apps/users/models.py:104-113 | no later request with a token of a deleted account gets in |
| AuthCache.BulkUpdateCoherentIff | core/apps/users/models.py:108-111 | exactly when a write that sends no signal keeps the cache in step |
| AuthCache.BulkUpdateGoesUnnoticed | core/apps/users/models.py:108-111 | otherwise a cached user is judged by the old row |
| AuthCache.BulkUpdateShowsAfterAMinute | core/apps/users/authentication.py:342-351 | a minute after the copy was made the table decides again, whatever was written meanwhile |
| AuthCache.AuthBackend.Authenticate | core/apps/users/authentication.py:308-364 | checks in order, cache filled on a miss; keeps the cache coherent |
| AuthCache.AuthBackend.SaveUser | core/apps/users/models.py:104-113 | the signal drops the cached copy |
| AuthCache.AuthBackend.CreateUser | core/apps/users/auth_views.py:144-151 | a fresh id, and the signal of any save |
| RefreshTokens.OneLivePerChain | core/apps/users/authentication.py:87-121 | in every run a rotation chain has at most one unrevoked token, its newest |
| RefreshTokens.RevocationIsPermanent | core/apps/users/authentication.py:124-136 | a revoked or removed token is never live again and keeps its revocation time |
| RefreshTokens.ReplayRevokesEverything | core/apps/users/authentication.py:100-105 | replaying a revoked token leaves its user without a live token and other users alone |
| RefreshTokens.StaleTokenEndsItsChain | core/apps/users/authentication.py:100-105 | presenting any rotated-away token ends its chain, newest token included |
| RefreshTokens.NewPasswordLeavesOne | core/apps/users/auth_views.py:390-394 | a password change or reset leaves exactly the token just issued |
| RefreshTokens.RotationSwaps | core/apps/users/authentication.py:116-121 | a rotation swaps the live token for a new one and touches nothing else |
| RefreshTokens.RotatedIff | core/apps/users/authentication.py:93-121 | a token is rotated iff it is known, unrevoked, unexpired and its account active; what every other answer means |
| RefreshTokens.LoginIssues | core/apps/users/authentication.py:76-84 | a login issues one token, good for seven days, and touches no other |
| RefreshTokens.LogoutRevokes | core/apps/users/authentication.py:124-129 | a logout revokes the token presented and no other |
| RefreshTokens.DeactivationSuspends | core/apps/users/authentication.py:112-114 | a deactivated account rotates nothing; reactivation restores everything |
| RefreshTokens.CleanupSparesTheUsable | core/apps/users/tasks.py:41-62 | the cleanup takes exactly the rows that have expired, none that could still be rotated |
| RefreshTokens.DeletionEndsSessions | core/apps/users/authentication.py:87-121 | after an account deletion no later step brings back a token of that user |
| RefreshTokens.TokenTable.RotateRefreshToken | core/apps/users/authentication.py:87-121 | the checks in order and their effects |
| RefreshTokens.TokenTable.SetPassword | core/apps/users/auth_views.py:419-423 | revoke all, then issue one |
| RefreshTokens.TokenTable.RegisterUser | core/apps/users/auth_views.py:144-164 | a new account and its first token |
| RefreshTokens.TokenTable.RevokeAllRefreshTokens | core/apps/users/authentication.py:132-136 | every unrevoked token of the user, and no other row |
| RefreshTokens.TokenTable.RevokeRefreshToken | core/apps/users/authentication.py:124-129 | this token if unrevoked |
| OneTimeTokens.AtMostOneConsumer | core/apps/users/authentication.py:154-216 | however redeemers interleave, no two consume the same token, and the consumer's clock reading precedes the expiry |
| OneTimeTokens.SpentIsForever | core/apps/users/authentication.py:196-209 | a used token is never consumed again, not even after a SELECT that still saw it unused |
| OneTimeTokens.ResendStopsOlderLinks | core/apps/users/auth_views.py:258-265 | re-sending stops every older link, redemptions under way included |
| OneTimeTokens.FreshLinkWorks | core/apps/users/auth_views.py:258-265 | the fresh link works for the first redeemer within a day |
| OneTimeTokens.ResendNeedsActive | core/apps/users/auth_views.py:249-265 | an unknown or deactivated account gets no link, and its older ones stay as they were |
| OneTimeTokens.CleanupSparesTheUsable | core/apps/users/tasks.py:41-62 | the cleanup takes exactly the rows that have expired, none that a later redeemer could consume |
| OneTimeTokens.RunKeepsOneUnused | core/apps/users/auth_views.py:258-265 | with registration and re-sending as the only issuers no user has two unused verification tokens |
| OneTimeTokens.TokenTable.ConsumeOneTimeToken | core/apps/users/authentication.py:154-216 | an uninterrupted redemption succeeds iff the token is known, unused, unexpired and its user active; a redeemable token is spent either way |
| OneTimeTokens.TokenTable.ConditionalUpdate | core/apps/users/authentication.py:199-203 | changes one row iff the predicate holds |
| OneTimeTokens.TokenTable.ResendVerification | core/apps/users/auth_views.py:258-265 | older unused tokens first, then the new one |
| OAuthExchange.AtMostOnce | core/apps/users/auth_views.py:594-611 | for a freshly stored code and any schedule at non-decreasing times at most one caller obtains anything, and that is the stored pair |
| OAuthExchange.AtMostOnceIff | core/apps/users/auth_views.py:605-611 | with no live marker of the code or of its twin string in the shared cache: exactly which sets of callers make every schedule at most once |
| OAuthExchange.SoloCallerGetsThePair | core/apps/users/auth_views.py:594-611 | a caller alone with a fresh code gets the stored pair within a minute, and the entry is gone |
| OAuthExchange.LateCallerGetsNothing | core/apps/users/auth_views.py:579-591 | from the end of that minute on nobody gets anything |
| OAuthExchange.ClashBreaks | core/apps/users/auth_views.py:579-611 | the schedule that shows the condition is needed, whatever else the cache holds |
| OAuthExchange.KeysApart | core/apps/users/auth_views.py:579-606 | which cache keys of two codes coincide |
| OAuthExchange.ExchangeCache.StoreOAuthExchange | core/apps/users/auth_views.py:583-591 | one entry with the lifetime of a code |
| OAuthExchange.ExchangeCache.ConsumeOAuthExchange | core/apps/users/auth_views.py:594-611 | an uninterrupted redemption returns the live pair unless a marker stands; then the entry is gone, the marker stands, and no other key changed |
| Credits.Conservation | core/apps/billing/services.py:22-68 | in every run each balance is the sum of the account's ledger rows |
| Credits.RepeatsChangeNothing | core/apps/billing/services.py:43-56 | dropping duplicate deliveries changes nothing |
| Credits.OrderIrrelevant | core/apps/billing/services.py:22-68 | the same purchases in any order, with any repeats, end in the same ledger and balances |
| Credits.LedgerAfter | core/apps/billing/services.py:43-68 | the ledger holds the old rows and one row per granted session |
| Credits.TotalWithout | core/apps/billing/services.py:58-67 | the sum of the rows does not depend on the order of summation |
| Credits.CreditStore.GrantForSession | core/apps/billing/services.py:22-68 | a new session posts ledger row and balance, a known one nothing, an amount that is not positive is an error without effect |
| Credits.CreditStore.OnProductCheckoutCompleted | core/apps/billing/services.py:71-137 | unknown product or owner, or no credits: nothing; else the grant |
| Credits.CreditStore.PurchaseOf | core/apps/billing/services.py:94-135 | which grant a checkout stands for |
| Currency.TwoDecimalIsNearest | core/core/saasmint_core/services/currency.py:69-78 | a positive amount goes to a nearest .49 or .99 price of all such prices, within 0.25, a tie down |
| Currency.HalfEvenIff | core/core/saasmint_core/services/currency.py:67-67 | which integer Python's rounding picks: the nearest, on a tie the even one |
| Currency.HalfUpIff | core/apps/billing/tasks.py:38-41 | which integer ROUND_HALF_UP picks: the nearest, on a tie the one away from zero |
| Currency.ZeroDecimalNearest | core/core/saasmint_core/services/currency.py:65-67 | a zero-decimal amount goes to a nearest multiple of 10 below 1000 and of 100 from there on, a tie to the even multiple |
| Currency.TwoDecimalMonotoneIff | core/core/saasmint_core/services/currency.py:63-78 | order is kept except between a non-positive amount and one up to 0.24 |
| Currency.TwoDecimalIdempotentIff | core/core/saasmint_core/services/currency.py:69-78 | rounding again changes nothing, except exactly for positive amounts up to 0.24 |
| Currency.SmallAmounts | core/core/saasmint_core/services/currency.py:71-78 | -0.01 up to 0.24, at least 0.49 above |
| Currency.CharmEnding | core/apps/billing/tasks.py:25-41 | in minor units 49 modulo 50; converting back returns the price; negative iff at most 0.24 |
| Currency.ZeroDecimalClose | core/core/saasmint_core/services/currency.py:65-67 | a multiple of the step at most half a step away |
| Currency.ZeroDecimalMonotone | core/core/saasmint_core/services/currency.py:65-67 | order is kept across the change of step at 1000 |
| Currency.ZeroDecimalIdempotent | core/core/saasmint_core/services/currency.py:65-67 | rounding again changes nothing |
| Currency.ZeroDecimalAtStepChange | core/core/saasmint_core/services/currency.py:66-66 | 1000 separates the results of the two steps |
| Currency.ZeroDecimalMinor | core/apps/billing/tasks.py:38-41 | storing a rounded price loses nothing |
| Currency.Nearest | core/core/saasmint_core/services/currency.py:78-78 | an option at the least distance |
| Vat.BaseIff | core/apps/billing/vat.py:117-132 | the base is the unique half-up rounding of sticker over one plus rate |
| Vat.BaseInRange | core/apps/billing/vat.py:117-132 | between zero and the sticker |
| Vat.BaseMonotone | core/apps/billing/vat.py:117-132 | a dearer sticker has no lower base |
| Vat.TaxedWithinOneUnit | core/apps/billing/vat.py:117-123 | adding the tax back lands within one minor unit, for every rate below 200 % |
| Vat.RetaxedBaseReturns | core/apps/billing/vat.py:117-132 | the base of a re-taxed base is that base, for every rate |
| Vat.TableRates | core/apps/billing/vat.py:107-114 | every country's rate lies in [0, 1) |
| Vat.RatesByKey | core/apps/billing/vat.py:24-60 | the table read from the rates: which countries have which |
| Vat.RatesByCountry | core/apps/billing/vat.py:107-114 | what is charged is the rate of the table, and nothing elsewhere |
| Vat.CaseOfCountry | core/apps/billing/vat.py:114-114 | a country code counts in either case |
| PriceSync.PriceTables.SyncLocalizedPrices | core/apps/billing/tasks.py:45-287 | fails and rolls back iff an uncurated row has a negative suggestion; otherwise all rows are in step and the result counts those created or moved; how large the amounts are is said by `CoveredRowsClose` and `CountryBaseMeans` |
| PriceSync.UpsertForPrice | core/apps/billing/tasks.py:127-187 | creates, moves or refreshes the rows of one price and counts them |
| PriceSync.ComputeNewAmounts | core/apps/billing/tasks.py:113-125 | one rounded conversion per supported currency with a rate |
| PriceSync.PriceTables.BucketRows | core/apps/billing/tasks.py:189-207 | every row of the kind is found under its owner and currency |
| PriceSync.PriceTables.UpsertSource | core/apps/billing/tasks.py:214-238 | all prices of one kind are upserted |
| PriceSync.PriceTables.RefreshCountry | core/apps/billing/tasks.py:268-280 | one uncurated row follows its suggestion, or has no base |
| PriceSync.PriceTables.RefreshCountries | core/apps/billing/tasks.py:247-287 | the country loop over all rows |
| PriceSync.CoveredRowsConverted | core/apps/billing/tasks.py:113-187 | exactly one row per price and covered currency, carrying the rounded conversion, whose size `CoveredRowsClose` gives |
| PriceSync.CoveredRowsClose | core/apps/billing/tasks.py:113-187 | in cents times rate, with no conversion in between: every covered row lies within 25 minor units of the exact amount, or half a rounding step in a zero-decimal currency, and at zero when that is not positive |
| PriceSync.TwoDecimalConversion | core/apps/billing/tasks.py:123-124 | a positive two-decimal conversion lies within 25 minor units and ends in 49 or 99 |
| PriceSync.ZeroDecimalConversion | core/apps/billing/tasks.py:123-124 | a positive zero-decimal one lies within 5 units below 1000 and within 50 from there on, at a multiple of the step |
| PriceSync.CharmPricesReturn | core/apps/billing/tasks.py:123-124 | at par a positive price that ends in 49 or 99 is stored as it is |
| PriceSync.SuggestionMeans | core/apps/billing/tasks.py:96-111 | the sticker suggested for a country: the dollar price itself, else the conversion, none without a rate or for a curated row |
| PriceSync.CountryBaseMeans | core/apps/billing/tasks.py:268-280 | the base stored for a country is the one whose taxed price is nearest to the sticker, ties up |
| PriceSync.RestUntouched | core/apps/billing/tasks.py:53-58 | rows without a rate and all Stripe price ids stay |
| PriceSync.SecondRunMovesNothing | core/apps/billing/tasks.py:160-180 | with the same rates a second run creates no row and moves no amount |
| PriceSync.SecondRunMovesNoCountry | core/apps/billing/tasks.py:274-280 | nor any country price |
| PriceSync.SecondRunReportsZero | core/apps/billing/tasks.py:60-62 | and reports 0 |
| PriceSync.CountryRowSettled | core/apps/billing/tasks.py:247-287 | curated rows are untouched; an uncurated one shows the suggestion and its derived base |
| PriceSync.BreaksIff | core/apps/billing/tasks.py:268-274 | exactly which rows make the run fail |
| PriceSync.ConvertedNegativeIff | core/apps/billing/tasks.py:96-111 | a conversion is negative iff it is a two-decimal one in (0, 0.24] |
| PriceSync.ConversionKeepsOrderIff | core/apps/billing/tasks.py:113-125 | a dearer price converts to no lower one, except below the rounding floor against a free one |
| CaseTransform.SnakeCamelIff | app/src/infrastructure/api/caseTransform.ts:4-51 | snake after camel returns the tree iff no key at any depth has an uppercase letter |
| CaseTransform.CamelSnakeIff | app/src/infrastructure/api/caseTransform.ts:4-51 | camel after snake returns the tree iff no key at any depth has an underscore before a lowercase letter |
| CaseTransform.SnakeCamelKeyIff | app/src/infrastructure/api/caseTransform.ts:4-10 | the same for a single key |
| CaseTransform.CamelSnakeKeyIff | app/src/infrastructure/api/caseTransform.ts:4-10 | the same for a single key |
| CaseTransform.NoCollisions | app/src/infrastructure/api/caseTransform.ts:4-10 | on these domains different sibling keys stay different |
| CaseTransform.CollisionExample | app/src/infrastructure/api/caseTransform.ts:8-10 | outside them keys can fall together |
| CaseTransform.KeysToSnake | app/src/infrastructure/api/caseTransform.ts:22-30 | the loops compute the renamed tree |
| CaseTransform.KeysToCamel | app/src/infrastructure/api/caseTransform.ts:43-51 | the loops compute the renamed tree |

## Left out

- OrgOwnership.ExactlyOneOwner: holds for runs in which no step deletes the account of somebody who owns an org that stays; the condition is exact (OwnedThroughoutIff).
- OAuthExchange.AtMostOnce: assumes that nobody presents the code followed by `:consumed`; AtMostOnceIff gives the exact condition. Codes are assumed fresh and free of colons, as the generator makes them.
- OneTimeTokens.TokenTable.ResendVerification: speaks of an address that is not verified yet; for a verified one the endpoint sends nothing.
- OneTimeTokens.RunKeepsOneUnused: speaks of email-verification tokens. Password-reset tokens go through the same redemption, but issuing one does not invalidate older ones; the Issue event stands for that.
- AuthCache.CachedRefinesUncached: user rows are written through save and delete, each in one step with its signal. A cache fill that overlaps a save is not a step of this model; a `QuerySet.update()` on users is not a step of the application, and BulkUpdateCoherentIff says what it would do.
- OrgSeats.RunKeepsCap: seat limits change through the API only; a limit lowered in the Stripe dashboard arrives by webhook and is not a step of these runs.
- SubscriptionMirror.ReplayChangesNoRow: a replayed deletion dispatches the org deletion again; that step is a no-op for a missing org.
- SubscriptionMirror.Mirror.MirrorCancelStateFromStripe: reads and writes the active row in one step; in the source a call to Stripe lies in between.
- StripeSchedule.ChangePlan: a failure of an earlier request than the last one is not modelled; it leaves Stripe as it was.
- ScheduleDelivery.RunKeepsSound: one subscription of one customer. A schedule that runs out at the period end and a cancellation that takes effect at once are not steps of these runs.
- Currency.TwoDecimalIsNearest: exact reals in place of IEEE floats and the Decimal context.
- Stripe, exchange-rate, email, OAuth-provider and reCAPTCHA calls: only Stripe's subscription and schedule state is modelled, with the rules that the comments in the source state. Stripe's proration amounts are not.
- Stripe payloads that lack a mandatory key altogether, such as the subscription id: such an event fails before it reads a row.
- Row locks, isolation levels and the queueing of background tasks: steps are atomic except in the two redemption protocols. `rotate_refresh_token` takes no lock and is modelled as one step.
- Token signing, hashing and random generation: hashes are taken as injective, new tokens and codes as unused.
- Rows that user deletion takes along besides memberships, customers and subscriptions (tokens, credits, social accounts): nothing modelled reads them.
- The names and descriptions of rows, phone numbers, avatars and the like: carried along, never decided upon.
- Unicode: letter case, slugs and digits are ASCII; Django's slugify happens before the modelled part of the slug generator.
- Objects with integer-like or `__proto__` keys in the case transforms: JavaScript orders and treats them specially. Insertion order is kept for all others.
- Two rows created in the same instant: the newest of them is taken to be the one with the lesser key.
- Exchange-rate feeds with two spellings of one currency: the rates are taken as a map by lower-case code.
- Admin screens, serializers, throttling, pagination, migrations, settings, seed data, and all React components: no property of their own.
