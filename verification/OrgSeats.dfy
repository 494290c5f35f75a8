/** The seat cap, over whole runs of the organisation API. */
module OrgSeats {
  import opened Options
  import opened OrgData
  import opened OrgCascade
  import opened OrgSteps
  import opened OrgInvariants

  /** The members fit the seats of the active team subscription. */
  predicate WithinCap(db: Db, org: nat) {
    SeatLimit(db, org).Some? ==> |MembersOf(db, org)| <= SeatLimit(db, org).value
  }

  /** The members and the pending invitations together fit the seats. */
  predicate Committed(db: Db, org: nat) {
    SeatLimit(db, org).Some? ==> |MembersOf(db, org)| + |PendingOf(db, org)| <= SeatLimit(db, org).value
  }

  /** Nobody joined, nothing was invited, and the limit stands or is gone. */
  predicate Shrinks(db: Db, after: Db, org: nat) {
    && MembersOf(after, org) <= MembersOf(db, org)
    && PendingOf(after, org) <= PendingOf(db, org)
    && (SeatLimit(after, org) == SeatLimit(db, org) || SeatLimit(after, org) == None)
  }

  lemma ShrinkKeeps(db: Db, after: Db, org: nat)
    requires Shrinks(db, after, org)
    ensures WithinCap(db, org) ==> WithinCap(after, org)
    ensures Committed(db, org) ==> Committed(after, org)
  {
    SubsetSize(MembersOf(after, org), MembersOf(db, org));
    SubsetSize(PendingOf(after, org), PendingOf(db, org));
  }

  lemma SameBilling(db: Db, after: Db, org: nat)
    requires after.subs == db.subs && after.customers == db.customers
    ensures SeatLimit(after, org) == SeatLimit(db, org)
  {
    assert TeamSubs(after, org) == TeamSubs(db, org);
  }

  lemma PurgeShrinks(db: Db, batch: set<nat>, dead: set<nat>, org: nat)
    requires SubsResolve(db.subs, db.customers)
    ensures Shrinks(db, Purge(db, batch, dead, OrgCustomers(db, batch) + UserCustomers(db, dead)), org)
  {
    var lost := OrgCustomers(db, batch) + UserCustomers(db, dead);
    var after := Purge(db, batch, dead, lost);
    if org in batch {
      assert TeamSubs(after, org) == {};
    } else {
      forall s | s in db.subs && IsTeamSub(db, db.subs[s], org) ensures KeepsSub(db.subs[s], dead, lost) {
      }
      assert TeamSubs(after, org) == TeamSubs(db, org);
    }
  }

  lemma CascadeShrinks(db: Db, batch: set<nat>, org: nat)
    requires SubsResolve(db.subs, db.customers)
    ensures Shrinks(db, Cascade(db, batch), org)
  {
    PurgeShrinks(db, batch, Deletable(db, batch), org);
  }

  lemma RemovalShrinks(db: Db, gone: set<nat>, org: nat)
    requires SubsResolve(db.subs, db.customers)
    ensures Shrinks(db, DeleteUsers(db, gone), org)
  {
    PurgeShrinks(db, {}, gone, org);
    assert OrgCustomers(db, {}) + UserCustomers(db, gone) == UserCustomers(db, gone);
  }

  lemma ShrinksTransitive(a: Db, b: Db, c: Db, org: nat)
    requires Shrinks(a, b, org) && Shrinks(b, c, org)
    ensures Shrinks(a, c, org)
  {
    hide SeatLimit, MembersOf, PendingOf;
  }

  /** Losing personal customers touches no org. */
  lemma UnpaidShrinks(db: Db, user: nat, org: nat)
    ensures Shrinks(db, DeleteCustomers(db, UserCustomers(db, {user})), org)
  {
    var lost := UserCustomers(db, {user});
    var after := DeleteCustomers(db, lost);
    assert KeptMembers(db.members, {}, {}) == db.members && KeptInvitations(db.invitations, {}, {}) == db.invitations;
    forall s | s in db.subs && IsTeamSub(db, db.subs[s], org) ensures KeepsSub(db.subs[s], {}, lost) {
    }
    assert TeamSubs(after, org) == TeamSubs(db, org);
  }

  lemma LeavingShrinks(db: Db, user: nat, org: nat)
    ensures Shrinks(db, LeaveAll(db, user), org)
  {
    SameBilling(db, LeaveAll(db, user), org);
  }

  lemma PurgeKeepsSubs(db: Db, batch: set<nat>, dead: set<nat>, lost: set<string>)
    requires SubsResolve(db.subs, db.customers)
    ensures SubsResolve(Purge(db, batch, dead, lost).subs, Purge(db, batch, dead, lost).customers)
  {
    hide KeptOrgs, KeptMembers, KeptInvitations;
  }

  lemma AccountDeletionShrinks(db: Db, user: nat, org: nat)
    requires SubsResolve(db.subs, db.customers)
    ensures Shrinks(db, DeleteAccountStep(db, user).db, org)
  {
    hide SubsResolve, Purge, Deletable, LostCustomers, UserCustomers, DeleteUsers, CreatedBy, Shrinks, SeatLimit;
    var lost := UserCustomers(db, {user});
    var unpaid := DeleteCustomers(db, lost);
    var batch := CreatedBy(unpaid, user);
    var teamless := Cascade(unpaid, batch);
    var left := LeaveAll(teamless, user);
    PurgeKeepsSubs(db, {}, {}, lost);
    PurgeKeepsSubs(unpaid, batch, Deletable(unpaid, batch), LostCustomers(unpaid, batch));
    UnpaidShrinks(db, user, org);
    CascadeShrinks(unpaid, batch, org);
    LeavingShrinks(teamless, user, org);
    RemovalShrinks(left, {user}, org);
    ShrinksTransitive(db, unpaid, teamless, org);
    ShrinksTransitive(db, teamless, left, org);
    ShrinksTransitive(db, left, DeleteUsers(left, {user}), org);
    ShrinksSelf(db, org);
  }

  lemma ShrinksSelf(db: Db, org: nat)
    ensures Shrinks(db, db, org)
  {
  }

  /** No customer belongs to the org that will be created next, and every subscription has its customer. */
  predicate BillingFresh(db: Db) {
    SubsResolve(db.subs, db.customers) && forall c | c in db.customers :: db.customers[c] != OrgOwner(db.next)
  }

  lemma AttachSeats(db: Db, after: Db, c: string, org: nat)
    requires SubsResolve(db.subs, db.customers) && c !in db.customers
    requires after.subs == db.subs && after.customers == db.customers[c := OrgOwner(db.next)]
    ensures TeamSubs(after, org) == TeamSubs(db, org) && SeatLimit(after, org) == SeatLimit(db, org)
  {
    assert TeamSubs(after, org) == TeamSubs(db, org);
  }

  lemma NewOrgSeats(db: Db, after: Db)
    requires BillingFresh(db) && SeatLimit(after, db.next) == SeatLimit(db, db.next)
    ensures SeatLimit(after, db.next) == None
  {
    assert TeamSubs(db, db.next) == {};
  }

  /** A new org starts without a team subscription; the others are untouched. */
  lemma CheckoutSeats(db: Db, step: Step, org: nat)
    requires step.TeamCheckout? && BillingFresh(db)
    ensures Shrinks(db, Apply(db, step).db, org) || SeatLimit(Apply(db, step).db, org) == None
  {
    var after := Apply(db, step).db;
    CheckoutRows(db, step, org);
    if after != db {
      if step.customer.Some? {
        AttachSeats(db, after, step.customer.value, org);
      } else {
        SameBilling(db, after, org);
      }
      if org == db.next { NewOrgSeats(db, after); }
    }
  }

  lemma CheckoutRows(db: Db, step: Step, org: nat)
    requires step.TeamCheckout?
    ensures var after := Apply(db, step).db;
            && PendingOf(after, org) == PendingOf(db, org)
            && (org != db.next ==> MembersOf(after, org) == MembersOf(db, org))
            && after.subs == db.subs
            && (after != db ==>
                  if step.customer.Some?
                  then step.customer.value !in db.customers
                       && after.customers == db.customers[step.customer.value := OrgOwner(db.next)]
                  else after.customers == db.customers)
  {
    hide NewSlug;
  }

  lemma StatusShrinks(db: Db, invitation: nat, status: InvitationStatus, org: nat)
    requires invitation in db.invitations && status != Pending
    ensures Shrinks(db, SetStatus(db, invitation, status), org)
  {
    SameBilling(db, SetStatus(db, invitation, status), org);
  }

  lemma InviteRows(db: Db, step: Step, org: nat)
    requires step.Invite?
    ensures var after := Apply(db, step).db;
            && after.members == db.members && after.subs == db.subs && after.customers == db.customers
            && PendingOf(after, org) <= PendingOf(db, org)
                 + if Apply(db, step).outcome == Done && step.org == org then {db.next} else {}
  {
    hide SeatLimit, HasPending, EmailRegistered, Denied;
  }

  lemma InviteChecksSeats(db: Db, step: Step)
    requires step.Invite? && Apply(db, step).outcome == Done && SeatLimit(db, step.org).Some?
    ensures |MembersOf(db, step.org)| + |PendingOf(db, step.org)| < SeatLimit(db, step.org).value
  {
    hide SeatLimit, HasPending, EmailRegistered, Denied, MembersOf, PendingOf;
  }

  lemma InviteSeats(db: Db, step: Step, org: nat)
    requires step.Invite?
    ensures WithinCap(db, org) ==> WithinCap(Apply(db, step).db, org)
    ensures Committed(db, org) ==> Committed(Apply(db, step).db, org)
    ensures step.org == org && Apply(db, step).outcome == Done ==> Committed(Apply(db, step).db, org)
  {
    hide InviteStep, SeatLimit, PendingOf;
    var after := Apply(db, step).db;
    InviteRows(db, step, org);
    SameBilling(db, after, org);
    assert MembersOf(after, org) == MembersOf(db, org);
    if Apply(db, step).outcome == Done && step.org == org {
      SubsetSize(PendingOf(after, org), PendingOf(db, org) + {db.next});
      if SeatLimit(db, org).Some? { InviteChecksSeats(db, step); }
    } else {
      SubsetSize(PendingOf(after, org), PendingOf(db, org));
    }
  }

  lemma AdmitSeats(db: Db, inv: Invitation, org: nat)
    ensures MembersOf(Admit(db, inv), org) <= MembersOf(db, org) + if inv.org == org then {(org, db.next)} else {}
    ensures PendingOf(Admit(db, inv), org) == PendingOf(db, org)
    ensures SeatLimit(Admit(db, inv), org) == SeatLimit(db, org)
  {
    SameBilling(db, Admit(db, inv), org);
  }

  lemma AcceptSeats(db: Db, step: Step, org: nat)
    requires step.Accept?
    ensures WithinCap(db, org) ==> WithinCap(Apply(db, step).db, org)
    ensures Committed(db, org) ==> Committed(Apply(db, step).db, org)
  {
    var r := Apply(db, step);
    if r.outcome.Joined? {
      var inv := db.invitations[step.invitation];
      var closed := SetStatus(db, step.invitation, Accepted);
      StatusShrinks(db, step.invitation, Accepted, org);
      SameBilling(db, closed, org);
      AdmitSeats(closed, inv, org);
      if inv.org == org {
        SubsetSize(MembersOf(r.db, org), MembersOf(db, org) + {(org, db.next)});
        SubsetSize(PendingOf(r.db, org), PendingOf(db, org) - {step.invitation});
      } else {
        ShrinkKeeps(db, r.db, org);
      }
    } else if r.db != db {
      StatusShrinks(db, step.invitation, Expired, org);
      ShrinkKeeps(db, r.db, org);
    }
  }

  lemma MembershipSeats(db: Db, step: Step, org: nat)
    requires step.PatchMember? || step.TransferOwnership?
    ensures Shrinks(db, Apply(db, step).db, org)
  {
    hide OwnsAnOrg, SeatLimit, Denied;
    var after := Apply(db, step).db;
    MembershipRows(db, step);
    hide Apply;
    SameBilling(db, after, org);
    assert MembersOf(after, org) == MembersOf(db, org) && PendingOf(after, org) == PendingOf(db, org);
  }

  lemma MembershipRows(db: Db, step: Step)
    requires step.PatchMember? || step.TransferOwnership?
    ensures var after := Apply(db, step).db;
            after.members.Keys == db.members.Keys && after.invitations == db.invitations
            && after.subs == db.subs && after.customers == db.customers
  {
    hide OwnsAnOrg;
  }

  lemma ResizeSeatsKeepsCap(db: Db, step: Step, org: nat)
    requires step.ResizeSeats?
    ensures WithinCap(db, org) ==> WithinCap(Apply(db, step).db, org)
    ensures Committed(db, org) && !Reduces(db, step, org) ==> Committed(Apply(db, step).db, org)
  {
    var after := Apply(db, step).db;
    if after != db {
      assert TeamSubs(after, org) == TeamSubs(db, org);
      assert MembersOf(after, org) == MembersOf(db, org);
      assert PendingOf(after, org) == PendingOf(db, org);
    }
  }

  /** The step lowers the seat limit of `org`. */
  predicate Reduces(db: Db, step: Step, org: nat) {
    step.ResizeSeats? && step.org == org && step.sub in db.subs && step.seats < db.subs[step.sub].seatLimit
  }

  lemma OtherSeats(db: Db, step: Step, org: nat)
    requires BillingFresh(db)
    requires !step.Invite? && !step.Accept? && !step.ResizeSeats?
    ensures var after := Apply(db, step).db; Shrinks(db, after, org) || SeatLimit(after, org) == None
  {
    hide SeatLimit, Cascade, DeleteUsers, NewSlug, Denied, DeleteAccountStep;
    match step
    case TeamCheckout(_, _, _) => CheckoutSeats(db, step, org);
    case CancelInvitation(_, _, i) => if i in db.invitations { StatusShrinks(db, i, Cancelled, org); }
    case Decline(_, i) => if i in db.invitations { StatusShrinks(db, i, Declined, org); }
    case PatchMember(_, _, _, _, _) => MembershipSeats(db, step, org);
    case TransferOwnership(_, _, _) => MembershipSeats(db, step, org);
    case RemoveMember(_, _, target) => RemovalShrinks(db, {target}, org);
    case DeleteOrg(_, o) => CascadeShrinks(db, {o}, org);
    case SubscriptionCanceled(o) => CascadeShrinks(db, {o}, org);
    case DeleteAccount(user) => AccountDeletionShrinks(db, user, org);
  }

  /** Every step keeps the members within the seats; every step that does not lower the limit also
      keeps the pending invitations within them. */
  lemma StepSeats(db: Db, step: Step, org: nat)
    requires BillingFresh(db)
    ensures WithinCap(db, org) ==> WithinCap(Apply(db, step).db, org)
    ensures Committed(db, org) && !Reduces(db, step, org) ==> Committed(Apply(db, step).db, org)
  {
    if step.Invite? {
      InviteSeats(db, step, org);
    } else if step.Accept? {
      AcceptSeats(db, step, org);
    } else if step.ResizeSeats? {
      ResizeSeatsKeepsCap(db, step, org);
    } else {
      OtherSeats(db, step, org);
      if Shrinks(db, Apply(db, step).db, org) { ShrinkKeeps(db, Apply(db, step).db, org); }
    }
  }

  /** Seat safety: no run of the API takes an org beyond its seats. */
  lemma {:induction false} RunKeepsCap(db: Db, steps: seq<Step>, org: nat)
    requires Valid(db) && WithinCap(db, org)
    ensures WithinCap(Run(db, steps), org)
    decreases steps
  {
    if steps != [] {
      StepSeats(db, steps[0], org);
      StepKeepsValid(db, steps[0]);
      RunKeepsCap(Apply(db, steps[0]).db, steps[1..], org);
    }
  }

  /** No step of the run lowers the seat limit of `org`. */
  predicate NoReduction(db: Db, steps: seq<Step>, org: nat)
    decreases steps
  {
    steps == [] || (!Reduces(db, steps[0], org) && NoReduction(Apply(db, steps[0]).db, steps[1..], org))
  }

  lemma {:induction false} RunKeepsCommitted(db: Db, steps: seq<Step>, org: nat)
    requires Valid(db) && Committed(db, org) && NoReduction(db, steps, org)
    ensures Committed(Run(db, steps), org)
    decreases steps
  {
    if steps != [] {
      StepSeats(db, steps[0], org);
      StepKeepsValid(db, steps[0]);
      RunKeepsCommitted(Apply(db, steps[0]).db, steps[1..], org);
    }
  }

  lemma CommittedAdmits(db: Db, invitation: nat, now: int)
    requires invitation in db.invitations && db.invitations[invitation].status == Pending
    requires Committed(db, db.invitations[invitation].org)
    ensures AcceptStep(db, invitation, now).outcome != Refused(SeatLimitReached)
  {
    var org := db.invitations[invitation].org;
    SubsetSize({invitation}, PendingOf(db, org));
  }

  /** What was offered stays what was offered. */
  predicate SameOffer(a: Invitation, b: Invitation) {
    a.org == b.org && a.email == b.email && a.role == b.role && a.expiresAt == b.expiresAt
  }

  /** Keys only grow, and a row under an old key is an old row that offers the same. */
  predicate OfferKept(db: Db, after: Db, invitation: nat) {
    db.next <= after.next
    && (invitation < db.next && invitation in after.invitations ==>
          invitation in db.invitations && SameOffer(after.invitations[invitation], db.invitations[invitation]))
  }

  lemma InvitingKeepsOffer(db: Db, step: Step, invitation: nat)
    requires step.Invite?
    ensures OfferKept(db, Apply(db, step).db, invitation)
  {
    hide SeatLimit, HasPending, EmailRegistered, Denied, MembersOf, PendingOf;
  }

  lemma AcceptingKeepsOffer(db: Db, step: Step, invitation: nat)
    requires step.Accept?
    ensures OfferKept(db, Apply(db, step).db, invitation)
  {
    hide SeatLimit, EmailRegistered, MembersOf, NormalizeEmail, Admit;
    if step.invitation in db.invitations {
      AdmitKeepsInvitations(SetStatus(db, step.invitation, Accepted), db.invitations[step.invitation]);
    }
  }

  lemma AdmitKeepsInvitations(db: Db, inv: Invitation)
    ensures Admit(db, inv).invitations == db.invitations && Admit(db, inv).next == db.next + 1
  {
  }

  lemma AnsweringKeepsOffer(db: Db, step: Step, invitation: nat)
    requires step.CancelInvitation? || step.Decline?
    ensures OfferKept(db, Apply(db, step).db, invitation)
  {
    hide Denied, SameEmail, PendingOf;
    PendingExist(db);
  }

  lemma PendingExist(db: Db)
    ensures forall o: nat, i: nat | i in PendingOf(db, o) :: i in db.invitations
  {
  }

  lemma DeletingKeepsOffer(db: Db, step: Step, invitation: nat)
    requires step.RemoveMember? || step.DeleteOrg? || step.SubscriptionCanceled?
    ensures OfferKept(db, Apply(db, step).db, invitation)
  {
    hide Denied, Deletable, LostCustomers;
  }

  lemma AccountDeletionKeepsOffer(db: Db, step: Step, invitation: nat)
    requires step.DeleteAccount?
    ensures OfferKept(db, Apply(db, step).db, invitation)
  {
    hide Deletable, LostCustomers, UserCustomers, KeptMembers, KeptOrgs, KeptSubs, CreatedBy;
  }

  lemma OtherStepsKeepOffer(db: Db, step: Step, invitation: nat)
    requires step.TeamCheckout? || step.PatchMember? || step.TransferOwnership? || step.ResizeSeats?
    ensures OfferKept(db, Apply(db, step).db, invitation)
  {
    hide NewSlug, Denied, OwnsAnOrg, MembersOf, TeamSubs, AlreadyAttached;
  }

  lemma StepKeepsOffer(db: Db, step: Step, invitation: nat)
    ensures OfferKept(db, Apply(db, step).db, invitation)
  {
    hide Apply, OfferKept;
    match step
    case Invite(_, _, _, _, _) => InvitingKeepsOffer(db, step, invitation);
    case Accept(_, _) => AcceptingKeepsOffer(db, step, invitation);
    case CancelInvitation(_, _, _) => AnsweringKeepsOffer(db, step, invitation);
    case Decline(_, _) => AnsweringKeepsOffer(db, step, invitation);
    case RemoveMember(_, _, _) => DeletingKeepsOffer(db, step, invitation);
    case DeleteOrg(_, _) => DeletingKeepsOffer(db, step, invitation);
    case SubscriptionCanceled(_) => DeletingKeepsOffer(db, step, invitation);
    case DeleteAccount(_) => AccountDeletionKeepsOffer(db, step, invitation);
    case _ => OtherStepsKeepOffer(db, step, invitation);
  }

  lemma {:induction false} RunKeepsOffer(db: Db, steps: seq<Step>, invitation: nat)
    requires invitation < db.next
    ensures invitation in Run(db, steps).invitations ==>
              invitation in db.invitations
              && SameOffer(Run(db, steps).invitations[invitation], db.invitations[invitation])
    decreases steps
  {
    hide Apply;
    if steps != [] {
      StepKeepsOffer(db, steps[0], invitation);
      RunKeepsOffer(Apply(db, steps[0]).db, steps[1..], invitation);
    }
  }

  lemma SentIsCommitted(db: Db, invite: Step, steps: seq<Step>)
    requires Valid(db) && invite.Invite? && Apply(db, invite).outcome == Done
    requires NoReduction(Apply(db, invite).db, steps, invite.org)
    ensures Committed(Run(Apply(db, invite).db, steps), invite.org)
  {
    InviteSeats(db, invite, invite.org);
    StepKeepsValid(db, invite);
    RunKeepsCommitted(Apply(db, invite).db, steps, invite.org);
  }

  lemma InviteAddsItsRow(db: Db, invite: Step)
    requires invite.Invite? && Apply(db, invite).outcome == Done
    ensures var after := Apply(db, invite).db;
            db.next < after.next && db.next in after.invitations && after.invitations[db.next].org == invite.org
  {
  }

  /** A sent invitation reserves its seat: whatever happens afterwards short of a reduction, accepting
      it while it is still pending is never refused for seats. */
  lemma InvitationHoldsASeat(db: Db, invite: Step, steps: seq<Step>, now: int)
    requires Valid(db) && invite.Invite? && Apply(db, invite).outcome == Done
    requires NoReduction(Apply(db, invite).db, steps, invite.org)
    ensures AcceptStep(Run(Apply(db, invite).db, steps), db.next, now).outcome != Refused(SeatLimitReached)
  {
    var last := Run(Apply(db, invite).db, steps);
    SentIsCommitted(db, invite, steps);
    InviteAddsItsRow(db, invite);
    RunKeepsOffer(Apply(db, invite).db, steps, db.next);
    AcceptNotRefusedForSeats(last, db.next, invite.org, now);
  }

  lemma AcceptNotRefusedForSeats(db: Db, invitation: nat, org: nat, now: int)
    requires Committed(db, org)
    requires invitation in db.invitations ==> db.invitations[invitation].org == org
    ensures AcceptStep(db, invitation, now).outcome != Refused(SeatLimitReached)
  {
    if invitation in db.invitations && db.invitations[invitation].status == Pending {
      CommittedAdmits(db, invitation, now);
    }
  }
}
