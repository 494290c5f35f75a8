/** Replays of the team checkout: a Stripe customer is attached to one org for good. */
module OrgCheckout {
  import opened Options
  import opened OrgData
  import opened OrgCascade
  import opened OrgSteps
  import opened OrgInvariants
  import opened OrgSeats
  import Slug

  /** A refused request leaves every table alone; only an expired invitation is marked as such. */
  lemma RefusedChangesNothing(db: Db, step: Step)
    requires Apply(db, step).outcome.Refused?
    ensures Apply(db, step).db == db
         || (step.Accept? && Apply(db, step).outcome == Refused(InvitationExpired)
             && step.invitation in db.invitations
             && Apply(db, step).db == SetStatus(db, step.invitation, Expired))
  {
  }

  /** The rows of one table after an insert under a new key. */
  predicate Inserted<K, V(==)>(was: map<K, V>, now: map<K, V>, key: K) {
    key !in was && now.Keys == was.Keys + {key} && forall k | k in was :: now[k] == was[k]
  }

  /** A first delivery creates exactly one org and one membership, and one customer if it names one: the buyer
      is the creator, the owner and flagged as billing, and every old row stays as it was. */
  lemma CheckoutCreates(db: Db, user: nat, name: string, customer: Option<string>)
    requires Valid(db) && !AlreadyAttached(db, user, customer)
    requires Apply(db, TeamCheckout(user, name, customer)).outcome.Joined?
    ensures var r := Apply(db, TeamCheckout(user, name, customer));
            var org := r.outcome.org;
            && Inserted(db.orgs, r.db.orgs, org) && r.db.orgs[org].createdBy == Some(user)
            && Inserted(db.members, r.db.members, (org, user)) && r.outcome.member == r.db.members[(org, user)]
            && IsOwner(r.db, org, user) && r.outcome.member.isBilling && !OwnsAnOrg(db, user)
            && (customer.Some? ==> Inserted(db.customers, r.db.customers, customer.value)
                                   && Attached(r.db, customer.value, org))
            && (customer == None ==> r.db.customers == db.customers)
            && r.db.users == db.users && r.db.invitations == db.invitations && r.db.subs == db.subs
  {
    hide NewSlug, MembersResolve, InvitationsResolve, CustomersResolve, SubsResolve, OwnersOk, SlugsUnique,
         EmailsUnique,
         CustomersUnique, PendingUnique;
    assert MembersResolve(db.members, db.orgs.Keys, db.users.Keys) && db.next !in db.orgs;
    NoMembersYet(db, db.next);
  }

  lemma NoMembersYet(db: Db, org: nat)
    requires MembersResolve(db.members, db.orgs.Keys, db.users.Keys) && org !in db.orgs
    ensures forall k | k in db.members :: k.0 != org
  {
  }

  /** The org a checkout creates starts with the buyer alone: no other member, no invitation, no seat limit yet,
      and a slug that no other org has. */
  lemma NewOrgStartsAlone(db: Db, user: nat, name: string, customer: Option<string>)
    requires Valid(db) && !AlreadyAttached(db, user, customer)
    requires Apply(db, TeamCheckout(user, name, customer)).outcome.Joined?
    ensures var r := Apply(db, TeamCheckout(user, name, customer));
            var org := r.outcome.org;
            && MembersOf(r.db, org) == {(org, user)} && PendingOf(r.db, org) == {} && SeatLimit(r.db, org) == None
            && org in r.db.orgs && forall o | o in db.orgs :: o in r.db.orgs && r.db.orgs[o].slug != r.db.orgs[org].slug
  {
    var step := TeamCheckout(user, name, customer);
    var r := Apply(db, step);
    CheckoutCreates(db, user, name, customer);
    CheckoutKeepsValid(db, user, name, customer);
    NewOrgKey(db, user, name, customer);
    hide Apply, AlreadyAttached, SeatLimit;
    NewOrgMembers(db, r.db, r.outcome.org, user);
    NewOrgUnlimited(db, step);
    assert SlugsUnique(r.db.orgs);
  }

  lemma NewOrgKey(db: Db, user: nat, name: string, customer: Option<string>)
    requires !AlreadyAttached(db, user, customer) && Apply(db, TeamCheckout(user, name, customer)).outcome.Joined?
    ensures Apply(db, TeamCheckout(user, name, customer)).outcome.org == db.next
    ensures Apply(db, TeamCheckout(user, name, customer)).db != db
  {
    hide NewSlug, OwnsAnOrg;
  }

  lemma NewOrgMembers(db: Db, after: Db, org: nat, user: nat)
    requires MembersResolve(db.members, db.orgs.Keys, db.users.Keys) && org !in db.orgs
    requires InvitationsResolve(db.invitations, db.orgs.Keys) && after.invitations == db.invitations
    requires Inserted(db.members, after.members, (org, user))
    ensures MembersOf(after, org) == {(org, user)} && PendingOf(after, org) == {}
  {
  }

  lemma NewOrgUnlimited(db: Db, step: Step)
    requires Valid(db) && step.TeamCheckout? && Apply(db, step).db != db
    ensures SeatLimit(Apply(db, step).db, db.next) == None
  {
    var after := Apply(db, step).db;
    ValidCustomers(db);
    CheckoutRows(db, step, db.next);
    hide Valid, Apply, SeatLimit;
    if step.customer.Some? {
      AttachSeats(db, after, step.customer.value, db.next);
    } else {
      SameBilling(db, after, db.next);
    }
    NewOrgSeats(db, after);
  }

  lemma ValidCustomers(db: Db)
    requires Valid(db)
    ensures BillingFresh(db)
  {
  }

  /** The new slug is one no org has: the base slug of the name, or the least free numbered variant. */
  lemma NewSlugIsFree(db: Db, name: string)
    ensures Slug.Chosen(Slug.Base(name), Slugs(db), NewSlug(db, name))
    ensures forall o | o in db.orgs :: db.orgs[o].slug != NewSlug(db, name)
  {
    Slug.UniqueSlugChosen(Slug.Base(name), Slugs(db));
    forall o | o in db.orgs ensures db.orgs[o].slug != NewSlug(db, name) {
      assert db.orgs[o].slug in Slugs(db);
    }
  }

  predicate Attached(db: Db, customer: string, org: nat) {
    customer in db.customers && db.customers[customer] == OrgOwner(org)
  }

  lemma AccountDeletionKeepsAttachment(db: Db, user: nat, customer: string, org: nat)
    requires Attached(db, customer, org) && org in DeleteAccountStep(db, user).db.orgs
    ensures Attached(DeleteAccountStep(db, user).db, customer, org)
  {
    hide Deletable, KeptMembers, KeptInvitations, KeptSubs;
  }

  lemma AccountDeletionKeys(db: Db, user: nat, org: nat)
    ensures DeleteAccountStep(db, user).db.next == db.next
    ensures org in DeleteAccountStep(db, user).db.orgs ==> org in db.orgs
  {
    hide Deletable, LostCustomers, UserCustomers, KeptMembers, KeptInvitations, KeptSubs;
  }

  /** No step detaches a customer from an org that still exists, and no org comes back. */
  lemma StepKeepsAttachment(db: Db, step: Step, customer: string, org: nat)
    requires org < db.next
    ensures org < Apply(db, step).db.next
    ensures org in Apply(db, step).db.orgs ==> org in db.orgs
    ensures Attached(db, customer, org) && org in Apply(db, step).db.orgs ==>
              Attached(Apply(db, step).db, customer, org)
  {
    hide Apply, Attached;
    match step
    case RemoveMember(_, _, _) => DeletionKeepsAttachment(db, step, customer, org);
    case DeleteOrg(_, _) => DeletionKeepsAttachment(db, step, customer, org);
    case SubscriptionCanceled(_) => DeletionKeepsAttachment(db, step, customer, org);
    case DeleteAccount(_) => AccountStepKeepsAttachment(db, step, customer, org);
    case TeamCheckout(_, _, _) => CheckoutKeepsAttachment(db, step, customer, org);
    case _ => OtherStepsKeepAttachment(db, step, customer, org);
  }

  /** What a step must leave for a customer and an org with an old key. */
  predicate AttachmentKept(db: Db, after: Db, customer: string, org: nat) {
    db.next <= after.next && (org in after.orgs ==> org in db.orgs)
    && (Attached(db, customer, org) && org in after.orgs ==> Attached(after, customer, org))
  }

  lemma DeletionKeepsAttachment(db: Db, step: Step, customer: string, org: nat)
    requires step.RemoveMember? || step.DeleteOrg? || step.SubscriptionCanceled?
    ensures AttachmentKept(db, Apply(db, step).db, customer, org)
  {
    hide Denied, Deletable, KeptMembers, KeptInvitations, KeptSubs;
  }

  lemma AccountStepKeepsAttachment(db: Db, step: Step, customer: string, org: nat)
    requires step.DeleteAccount?
    ensures AttachmentKept(db, Apply(db, step).db, customer, org)
  {
    assert Apply(db, step).db == DeleteAccountStep(db, step.user).db;
    hide Apply, DeleteAccountStep;
    AccountDeletionKeys(db, step.user, org);
    if Attached(db, customer, org) && org in DeleteAccountStep(db, step.user).db.orgs {
      AccountDeletionKeepsAttachment(db, step.user, customer, org);
    }
  }

  lemma CheckoutKeepsAttachment(db: Db, step: Step, customer: string, org: nat)
    requires step.TeamCheckout? && org < db.next
    ensures AttachmentKept(db, Apply(db, step).db, customer, org)
  {
    hide NewSlug, OwnsAnOrg, AlreadyAttached;
  }

  lemma OtherStepsKeepAttachment(db: Db, step: Step, customer: string, org: nat)
    requires step.Invite? || step.Accept? || step.CancelInvitation? || step.Decline? || step.PatchMember?
             || step.TransferOwnership? || step.ResizeSeats?
    ensures AttachmentKept(db, Apply(db, step).db, customer, org)
  {
    hide SeatLimit, HasPending, EmailRegistered, Denied, MembersOf, PendingOf, TeamSubs, OwnsAnOrg, NormalizeEmail,
         SameEmail;
  }

  lemma {:induction false} RunKeepsAttachment(db: Db, steps: seq<Step>, customer: string, org: nat)
    requires org < db.next && Attached(db, customer, org)
    requires org in Run(db, steps).orgs
    ensures Attached(Run(db, steps), customer, org)
    decreases steps
  {
    if steps != [] {
      StepKeepsAttachment(db, steps[0], customer, org);
      OrgStaysGone(Apply(db, steps[0]).db, steps[1..], org);
      RunKeepsAttachment(Apply(db, steps[0]).db, steps[1..], customer, org);
    }
  }

  lemma {:induction false} OrgStaysGone(db: Db, steps: seq<Step>, org: nat)
    requires org < db.next && org in Run(db, steps).orgs
    ensures org in db.orgs
    decreases steps
  {
    if steps != [] {
      StepKeepsAttachment(db, steps[0], "", org);
      OrgStaysGone(Apply(db, steps[0]).db, steps[1..], org);
    }
  }

  /** A checkout that reports an org leaves the customer attached to that org. */
  lemma JoinedIsAttached(db: Db, user: nat, name: string, customer: string)
    requires Valid(db) && Apply(db, TeamCheckout(user, name, Some(customer))).outcome.Joined?
    ensures var r := Apply(db, TeamCheckout(user, name, Some(customer)));
            Attached(r.db, customer, r.outcome.org) && r.outcome.org < r.db.next
  {
  }

  lemma AttachedReplay(db: Db, user: nat, name: string, customer: string, org: nat)
    requires Attached(db, customer, org) && org in db.orgs
    ensures var again := Apply(db, TeamCheckout(user, name, Some(customer)));
            again.db == db
            && again.outcome == if user !in db.users then Refused(NotFound)
                                else if (org, user) in db.members then Joined(org, db.members[(org, user)])
                                else Refused(IntegrityError)
  {
    hide NewSlug, OwnsAnOrg;
  }

  /** Redelivery: once a checkout reported `org`, then as long as `org` exists every later delivery for the
      same customer reports `org` again and changes nothing when its user is a member of it, and is refused
      without effect when not. So no second org is ever created for the customer. */
  lemma ReplayReturnsTheSameOrg(db: Db, user: nat, name: string, customer: string, steps: seq<Step>,
                                user': nat, name': string)
    requires Valid(db) && Apply(db, TeamCheckout(user, name, Some(customer))).outcome.Joined?
    requires var r := Apply(db, TeamCheckout(user, name, Some(customer)));
             r.outcome.org in Run(r.db, steps).orgs
    ensures var r := Apply(db, TeamCheckout(user, name, Some(customer)));
            var last := Run(r.db, steps);
            var again := Apply(last, TeamCheckout(user', name', Some(customer)));
            again.db == last
            && again.outcome == if user' !in last.users then Refused(NotFound)
                                else if (r.outcome.org, user') in last.members
                                then Joined(r.outcome.org, last.members[(r.outcome.org, user')])
                                else Refused(IntegrityError)
  {
    hide Apply, Run, Valid, Attached;
    JoinedIsAttached(db, user, name, customer);
    var r := Apply(db, TeamCheckout(user, name, Some(customer)));
    RunKeepsAttachment(r.db, steps, customer, r.outcome.org);
    AttachedReplay(Run(r.db, steps), user', name', customer, r.outcome.org);
  }
}
