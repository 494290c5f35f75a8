/** The organisation services and views as they work: read rows, decide, write one table after another.
    Every method is proved against the step function of the same request. */
module OrgStore {
  import opened Options
  import opened OrgData
  import opened OrgCascade
  import opened OrgSteps
  import opened OrgOwnership
  import C = OrgCancellation
  import Slug

  // ------------------------------------------------------------------ the statements of a deletion

  /** `Invitation.objects.filter(org__in=batch, status=PENDING).update(status=CANCELLED)`. */
  function CancelPending(db: Db, batch: set<nat>): Db {
    db.(invitations := map i | i in db.invitations ::
          if db.invitations[i].org in batch && db.invitations[i].status == Pending
          then db.invitations[i].(status := Cancelled) else db.invitations[i])
  }

  /** `OrgMember.objects.filter(org__in=batch).delete()`. */
  function DeleteMembers(db: Db, batch: set<nat>): Db {
    db.(members := map k | k in db.members && k.0 !in batch :: db.members[k])
  }

  /** The four statements of a deletion, in their order. */
  function FourStatements(db: Db, batch: set<nat>): Db {
    var cancelled := CancelPending(db, batch);
    DeleteOrgs(DeleteMembers(DeleteUsers(cancelled, Deletable(cancelled, batch)), batch), batch)
  }

  lemma CancelPendingKeepsDeletable(db: Db, batch: set<nat>)
    ensures Deletable(CancelPending(db, batch), batch) == Deletable(db, batch)
  {
    var after := CancelPending(db, batch);
    forall u ensures HasPersonalSub(after, u) <==> HasPersonalSub(db, u) {
      if HasPersonalSub(db, u) {
        var s :| s in db.subs && IsPersonalSub(db, db.subs[s], u);
        assert IsPersonalSub(after, after.subs[s], u);
      }
      if HasPersonalSub(after, u) {
        var s :| s in after.subs && IsPersonalSub(after, after.subs[s], u);
        assert IsPersonalSub(db, db.subs[s], u);
      }
    }
  }

  lemma CancelledInvitationsGo(db: Db, batch: set<nat>, dead: set<nat>)
    ensures KeptInvitations(KeptInvitations(CancelPending(db, batch).invitations, {}, dead), batch, {})
         == KeptInvitations(db.invitations, batch, dead)
  {
    var was, now := db.invitations, CancelPending(db, batch).invitations;
    KeptInvitationsCompose(now, {}, dead, batch, {});
    assert {} + batch == batch && dead + {} == dead;
    assert forall i | i in was && was[i].org !in batch :: now[i] == was[i];
  }

  lemma MembersGo(members: map<(nat, nat), Membership>, batch: set<nat>, dead: set<nat>)
    ensures var left := KeptMembers(members, {}, dead);
            KeptMembers(map k | k in left && k.0 !in batch :: left[k], batch, {}) == KeptMembers(members, batch, dead)
  {
  }

  lemma CustomersGo(db: Db, batch: set<nat>, dead: set<nat>)
    ensures var rest := DeleteUsers(db, dead);
            UserCustomers(db, dead) + OrgCustomers(rest, batch) == OrgCustomers(db, batch) + UserCustomers(db, dead)
  {
  }

  /** Users first, memberships next, orgs last: together the cascade. */
  lemma StatementsAreTheCascade(db: Db, batch: set<nat>)
    ensures FourStatements(db, batch) == Cascade(db, batch)
  {
    hide Deletable, IsPersonalSub, HasPersonalSub, KeptOrgs, KeptInvitations, KeptSubs, KeptMembers, OrgCustomers,
         UserCustomers;
    var cancelled := CancelPending(db, batch);
    CancelPendingKeepsDeletable(db, batch);
    var dead := Deletable(db, batch);
    SameCustomers(db, batch, dead);
    CancelledInvitationsGo(db, batch, dead);
    MembersGo(db.members, batch, dead);
    CustomersGo(db, batch, dead);
    KeptOrgsCompose(db.orgs, {}, dead, batch, {});
    KeptSubsCompose(db.subs, dead, UserCustomers(db, dead), {}, OrgCustomers(DeleteUsers(db, dead), batch));
    assert {} + batch == batch && dead + {} == dead;
  }

  lemma SameCustomers(db: Db, batch: set<nat>, dead: set<nat>)
    ensures UserCustomers(CancelPending(db, batch), dead) == UserCustomers(db, dead)
    ensures OrgCustomers(DeleteMembers(DeleteUsers(CancelPending(db, batch), dead), batch), batch)
         == OrgCustomers(DeleteUsers(db, dead), batch)
  {
  }

  // ------------------------------------------------------------------ newest first

  /** Rows as `ORDER BY created_at DESC` returns them. */
  function NewestFirst(subs: map<nat, Subscription>, ids: set<nat>): (rows: seq<nat>)
    requires ids <= subs.Keys
    ensures forall s :: s in rows <==> s in ids
    decreases |ids|
  {
    var newest := C.Newest(subs, ids);
    if newest == None then [] else [newest.value] + NewestFirst(subs, ids - {newest.value})
  }

  predicate Descends(subs: map<nat, Subscription>, rows: seq<nat>) {
    && (forall s | s in rows :: s in subs)
    && (forall i, j | 0 <= i < j < |rows| :: C.Newer(subs, rows[i], rows[j]))
  }

  lemma {:induction false} NewestFirstDescends(subs: map<nat, Subscription>, ids: set<nat>)
    requires ids <= subs.Keys
    ensures Descends(subs, NewestFirst(subs, ids))
    decreases |ids|
  {
    var newest := C.Newest(subs, ids);
    if newest.Some? {
      var left := ids - {newest.value};
      NewestFirstDescends(subs, left);
      assert NewestFirst(subs, ids) == [newest.value] + NewestFirst(subs, left);
      assert C.IsNewest(subs, ids, newest.value);
      DescendsFrom(subs, newest.value, NewestFirst(subs, left));
    }
  }

  lemma DescendsFrom(subs: map<nat, Subscription>, newest: nat, rest: seq<nat>)
    requires newest in subs && Descends(subs, rest) && forall s | s in rest :: s in subs && C.Newer(subs, newest, s)
    ensures Descends(subs, [newest] + rest)
  {
    hide C.Newer;
    var rows := [newest] + rest;
    forall i, j | 0 <= i < j < |rows| ensures C.Newer(subs, rows[i], rows[j]) {
      assert rows[j] == rest[j - 1] && rest[j - 1] in rest;
      if i > 0 { assert rows[i] == rest[i - 1]; }
    }
  }

  /** The org that a team subscription's customer belongs to. */
  function OrgOf(db: Db, s: nat): Option<nat> {
    if s in db.subs && db.subs[s].customer.Some? && db.subs[s].customer.value in db.customers
       && db.customers[db.subs[s].customer.value].OrgOwner?
    then Some(db.customers[db.subs[s].customer.value].org) else None
  }

  /** The Stripe-backed active subscriptions of any org in `batch`. */
  function BatchSubs(db: Db, batch: set<nat>): set<nat> {
    set s | s in db.subs && IsActive(db.subs[s].status) && db.subs[s].stripeId.Some?
            && OrgOf(db, s).Some? && OrgOf(db, s).value in batch
  }

  lemma BatchSubsSplit(db: Db, batch: set<nat>, org: nat)
    requires org in batch
    ensures forall s :: s in C.StripeSubs(db, org) <==> s in BatchSubs(db, batch) && OrgOf(db, s) == Some(org)
  {
  }

  /** The first `n` rows decide the newest subscription of every org that occurs among them. */
  ghost predicate FirstPerOrg(db: Db, rows: seq<nat>, n: nat, found: map<nat, nat>)
    requires n <= |rows|
  {
    && (forall o | o in found ::
          exists i :: 0 <= i < n && rows[i] == found[o] && OrgOf(db, rows[i]) == Some(o)
                      && forall j | 0 <= j < i :: OrgOf(db, rows[j]) != Some(o))
    && (forall i | 0 <= i < n && OrgOf(db, rows[i]).Some? :: OrgOf(db, rows[i]).value in found)
  }

  /** The first row of an org in the newest-first order is the org's newest. */
  lemma FirstRowIsNewest(db: Db, batch: set<nat>, org: nat, rows: seq<nat>, i: nat)
    requires org in batch && rows == NewestFirst(db.subs, BatchSubs(db, batch))
    requires i < |rows| && OrgOf(db, rows[i]) == Some(org)
    requires forall j | 0 <= j < i :: OrgOf(db, rows[j]) != Some(org)
    ensures C.IsNewest(db.subs, C.StripeSubs(db, org), rows[i])
  {
    hide BatchSubs, C.StripeSubs, NewestFirst, OrgOf, C.Newer;
    var own := C.StripeSubs(db, org);
    BatchSubsExist(db, batch);
    NewestFirstDescends(db.subs, BatchSubs(db, batch));
    BatchSubsSplit(db, batch, org);
    StripeBacked(db, org, rows[i]);
    forall t | t in own && t in db.subs ensures C.Newer(db.subs, rows[i], t) {
      assert t in rows;
      var k :| 0 <= k < |rows| && rows[k] == t;
      assert OrgOf(db, rows[k]) == Some(org);
      if i == k { NewerReflexive(db.subs, t); }
    }
  }

  lemma NewerReflexive(subs: map<nat, Subscription>, s: nat)
    requires s in subs
    ensures C.Newer(subs, s, s)
  {
  }

  /** What the loop over the ordered rows keeps for an org is what a query for that org alone returns. */
  lemma FirstIsNewest(db: Db, batch: set<nat>, org: nat, rows: seq<nat>, found: map<nat, nat>)
    requires org in batch && rows == NewestFirst(db.subs, BatchSubs(db, batch))
    requires FirstPerOrg(db, rows, |rows|, found)
    ensures org !in found ==> C.Snapshot(db, org) == []
    ensures org in found ==> found[org] in db.subs && db.subs[found[org]].stripeId.Some?
                             && C.Snapshot(db, org) == [db.subs[found[org]].stripeId.value]
  {
    hide BatchSubs, C.StripeSubs, NewestFirst, OrgOf, C.IsNewest, C.Newer;
    var own := C.StripeSubs(db, org);
    BatchSubsSplit(db, batch, org);
    if org in found {
      var i :| 0 <= i < |rows| && rows[i] == found[org] && OrgOf(db, rows[i]) == Some(org)
               && forall j | 0 <= j < i :: OrgOf(db, rows[j]) != Some(org);
      FirstRowIsNewest(db, batch, org, rows, i);
      assert rows[i] in own;
      StripeBacked(db, org, rows[i]);
      OwnSubsExist(db, org);
      C.NewestUnique(db.subs, own, rows[i]);
    } else {
      OwnSubsExist(db, org);
    }
  }

  lemma OwnSubsExist(db: Db, org: nat)
    ensures C.StripeSubs(db, org) <= db.subs.Keys
  {
  }

  lemma BatchSubsExist(db: Db, batch: set<nat>)
    ensures BatchSubs(db, batch) <= db.subs.Keys
  {
  }

  lemma StripeBacked(db: Db, org: nat, s: nat)
    requires s in C.StripeSubs(db, org)
    ensures s in db.subs && db.subs[s].stripeId.Some?
  {
  }

  // ------------------------------------------------------------------ the store

  class OrgStore {
    var next: nat
    var users: map<nat, User>
    var orgs: map<nat, Org>
    var members: map<(nat, nat), Membership>
    var invitations: map<nat, Invitation>
    var customers: map<string, CustomerOwner>
    var subs: map<nat, Subscription>

    /** All tables as one value. */
    function Contents(): Db
      reads this
    {
      Db(next, users, orgs, members, invitations, customers, subs)
    }

    /** Back to a savepoint. */
    method Rollback(db: Db)
      modifies this
      ensures Contents() == db
    {
      next, users, orgs, members := db.next, db.users, db.orgs, db.members;
      invitations, customers, subs := db.invitations, db.customers, db.subs;
    }

    method PickSlug(slugified: string) returns (slug: string)
      ensures slug == NewSlug(Contents(), slugified)
    {
      hide Slug.UniqueSlug, Slug.Base, Slug.Chosen;
      var slugs := set o | o in orgs :: orgs[o].slug;
      assert slugs == Slugs(Contents());
      slug := Slug.GenerateUniqueSlug(slugified, slugs);
    }

    method CreateOrgWithOwner(user: nat, slugified: string, customer: Option<string>) returns (outcome: Outcome)
      modifies this
      ensures Result(Contents(), outcome) == TeamCheckoutStep(old(Contents()), user, slugified, customer)
    {
      hide NewSlug, OwnsAnOrg;
      if user !in users {
        return Refused(NotFound);
      }
      if customer.Some? && customer.value in customers && customers[customer.value].OrgOwner? {
        var existing := customers[customer.value].org;
        if existing in orgs && (existing, user) in members {
          return Joined(existing, members[(existing, user)]);
        }
      }
      var savepoint := Contents();
      var slug := PickSlug(slugified);
      var org := next;
      next := next + 1;
      orgs := orgs[org := Org(slug, Some(user))];
      // The index that allows one owned org per user refuses the membership.
      if OwnsAnOrg(savepoint, user) {
        Rollback(savepoint);
        return Refused(IntegrityError);
      }
      var member := Membership(Owner, true);
      members := members[(org, user) := member];
      if customer.Some? {
        if customer.value in customers {
          Rollback(savepoint);
          return Refused(IntegrityError);
        }
        customers := customers[customer.value := OrgOwner(org)];
      }
      outcome := Joined(org, member);
    }

    method Invite(caller: nat, org: nat, email: string, role: Role, now: int) returns (outcome: Outcome)
      modifies this`next, this`invitations
      ensures Result(Contents(), outcome) == InviteStep(old(Contents()), caller, org, email, role, now)
    {
      hide SeatLimit, EmailRegistered, HasPending, MembersOf, PendingOf;
      var denied := Denied(Contents(), caller, org, ADMIN_OR_ABOVE);
      if denied.Some? {
        return Refused(denied.value);
      }
      if role == Owner {
        return Refused(InvalidInput);
      }
      if EmailRegistered(Contents(), email) {
        return Refused(EmailExists);
      }
      if HasPending(Contents(), org, email) {
        return Refused(InvitationPending);
      }
      var limit := SeatLimit(Contents(), org);
      if limit.Some? {
        var memberCount, pendingCount := |MembersOf(Contents(), org)|, |PendingOf(Contents(), org)|;
        if memberCount + pendingCount >= limit.value {
          return Refused(SeatLimitReached);
        }
      }
      var row := Invitation(org, email, role, Pending, Some(caller), now + INVITATION_LIFETIME);
      invitations := invitations[next := row];
      next := next + 1;
      outcome := Done;
    }

    method Accept(invitation: nat, now: int) returns (outcome: Outcome)
      modifies this`next, this`users, this`members, this`invitations
      ensures Result(Contents(), outcome) == AcceptStep(old(Contents()), invitation, now)
    {
      hide SeatLimit, EmailRegistered, MembersOf, NormalizeEmail;
      if invitation !in invitations || invitations[invitation].status != Pending {
        return Refused(NotFound);
      }
      var row := invitations[invitation];
      if row.expiresAt < now {
        invitations := invitations[invitation := row.(status := Expired)];
        return Refused(InvitationExpired);
      }
      if EmailRegistered(Contents(), row.email) {
        return Refused(EmailExists);
      }
      var limit := SeatLimit(Contents(), row.org);
      if limit.Some? && |MembersOf(Contents(), row.org)| + 1 > limit.value {
        return Refused(SeatLimitReached);
      }
      var user := next;
      next := next + 1;
      users := users[user := User(NormalizeEmail(row.email))];
      members := members[(row.org, user) := Membership(row.role, false)];
      invitations := invitations[invitation := row.(status := Accepted)];
      outcome := Joined(row.org, Membership(row.role, false));
    }

    method CancelInvitation(caller: nat, org: nat, invitation: nat) returns (outcome: Outcome)
      modifies this`invitations
      ensures Result(Contents(), outcome) == CancelInvitationStep(old(Contents()), caller, org, invitation)
    {
      var denied := Denied(Contents(), caller, org, ADMIN_OR_ABOVE);
      if denied.Some? {
        return Refused(denied.value);
      }
      if invitation !in invitations || invitations[invitation].org != org || invitations[invitation].status != Pending {
        return Refused(NotFound);
      }
      invitations := invitations[invitation := invitations[invitation].(status := Cancelled)];
      outcome := Done;
    }

    method Decline(caller: nat, invitation: nat) returns (outcome: Outcome)
      modifies this`invitations
      ensures Result(Contents(), outcome) == DeclineStep(old(Contents()), caller, invitation)
    {
      hide SameEmail;
      if caller !in users {
        return Refused(Forbidden);
      }
      if invitation !in invitations || invitations[invitation].status != Pending {
        return Refused(NotFound);
      }
      if !SameEmail(users[caller].email, invitations[invitation].email) {
        return Refused(Forbidden);
      }
      invitations := invitations[invitation := invitations[invitation].(status := Declined)];
      outcome := Done;
    }

    method PatchMember(caller: nat, org: nat, target: nat, newRole: Option<Role>, billing: Option<bool>)
      returns (outcome: Outcome)
      modifies this`members
      ensures Result(Contents(), outcome) == PatchMemberStep(old(Contents()), caller, org, target, newRole, billing)
    {
      var denied := Denied(Contents(), caller, org, ADMIN_OR_ABOVE);
      if denied.Some? {
        return Refused(denied.value);
      }
      if (org, target) !in members {
        return Refused(NotFound);
      }
      var callerRole, row := members[(org, caller)].role, members[(org, target)];
      if !Outranks(callerRole, row.role) {
        return Refused(Forbidden);
      }
      if newRole == Some(Owner) {
        return Refused(InvalidInput);
      }
      if newRole == None && billing == None {
        assert members[(org, target) := row] == members;
        return Done;
      }
      if newRole.Some? && !Outranks(callerRole, newRole.value) {
        return Refused(Forbidden);
      }
      if newRole.Some? {
        row := row.(role := newRole.value);
      }
      if billing.Some? {
        row := row.(isBilling := billing.value);
      }
      members := members[(org, target) := row];
      outcome := Done;
    }

    /** `QuerySet.delete()` on users: the account and all that hangs on it. */
    method DeleteUserRows(gone: set<nat>)
      modifies this
      ensures Contents() == DeleteUsers(old(Contents()), gone)
    {
      var lost := UserCustomers(Contents(), gone);
      subs := KeptSubs(subs, gone, lost);
      customers := customers - lost;
      members := KeptMembers(members, {}, gone);
      invitations := KeptInvitations(invitations, {}, gone);
      orgs := KeptOrgs(orgs, {}, gone);
      users := users - gone;
    }

    /** `QuerySet.delete()` on orgs. */
    method DeleteOrgRows(gone: set<nat>)
      modifies this
      ensures Contents() == DeleteOrgs(old(Contents()), gone)
    {
      var lost := OrgCustomers(Contents(), gone);
      subs := KeptSubs(subs, {}, lost);
      customers := customers - lost;
      members := KeptMembers(members, gone, {});
      invitations := KeptInvitations(invitations, gone, {});
      orgs := KeptOrgs(orgs, gone, {});
      users := users - {};
    }

    method RemoveMember(caller: nat, org: nat, target: nat) returns (outcome: Outcome)
      modifies this
      ensures Result(Contents(), outcome) == RemoveMemberStep(old(Contents()), caller, org, target)
    {
      hide DeleteUsers;
      var denied := Denied(Contents(), caller, org, ADMIN_OR_ABOVE);
      if denied.Some? {
        return Refused(denied.value);
      }
      if (org, target) !in members {
        return Refused(NotFound);
      }
      if members[(org, target)].role == Owner {
        return Refused(Forbidden);
      }
      if !Outranks(members[(org, caller)].role, members[(org, target)].role) {
        return Refused(Forbidden);
      }
      DeleteUserRows({target});
      outcome := Done;
    }

    /** The new owner's row is saved first; the index that allows one owned org per user may refuse it. */
    method TransferOwnership(caller: nat, org: nat, target: nat) returns (outcome: Outcome)
      modifies this`members
      ensures Result(Contents(), outcome) == TransferOwnershipStep(old(Contents()), caller, org, target)
    {
      var denied := Denied(Contents(), caller, org, OWNER_ONLY);
      if denied.Some? {
        return Refused(denied.value);
      }
      if (org, target) !in members {
        return Refused(NotFound);
      }
      if members[(org, target)].role != Admin {
        return Refused(Forbidden);
      }
      if OwnsAnOrg(Contents(), target) {
        return Refused(IntegrityError);
      }
      members := members[(org, target) := Membership(Owner, true)];
      members := members[(org, caller) := Membership(Admin, false)];
      outcome := Joined(org, Membership(Owner, true));
    }

    method CancelPendingRows(batch: set<nat>)
      modifies this`invitations
      ensures Contents() == CancelPending(old(Contents()), batch)
    {
      invitations := map i | i in invitations ::
        if invitations[i].org in batch && invitations[i].status == Pending
        then invitations[i].(status := Cancelled) else invitations[i];
    }

    method DeleteMemberRows(batch: set<nat>)
      modifies this`members
      ensures Contents() == DeleteMembers(old(Contents()), batch)
    {
      members := map k | k in members && k.0 !in batch :: members[k];
    }

    /** `_delete_org_db_only`, for the orgs of `batch`. */
    method DeleteBatch(batch: set<nat>)
      modifies this
      ensures Contents() == Cascade(old(Contents()), batch)
    {
      hide Deletable, DeleteUsers, DeleteOrgs, Cascade, CancelPending, DeleteMembers;
      StatementsAreTheCascade(Contents(), batch);
      CancelPendingRows(batch);
      var deletable := Deletable(Contents(), batch);
      DeleteUserRows(deletable);
      DeleteMemberRows(batch);
      DeleteOrgRows(batch);
    }

    /** Deleting one org: its Stripe id is read before the row it hangs on is gone. */
    method DeleteOrg(caller: nat, org: nat) returns (outcome: Outcome, cancels: seq<string>)
      modifies this
      ensures Result(Contents(), outcome) == DeleteOrgStep(old(Contents()), caller, org)
      ensures cancels == if outcome == Done then C.Snapshot(old(Contents()), org) else []
    {
      hide Cascade, C.Snapshot;
      var denied := Denied(Contents(), caller, org, OWNER_ONLY);
      if denied.Some? {
        return Refused(denied.value), [];
      }
      cancels := C.Snapshot(Contents(), org);
      DeleteBatch({org});
      outcome := Done;
    }

    /** The batch: one query for the subscriptions of all orgs, newest first; the first row met for an org
        wins. Then one deletion for all of them. Both agree with going org by org. */
    method DeleteOrgList(toDelete: seq<nat>) returns (cancels: seq<string>)
      modifies this
      ensures cancels == C.BatchedCancels(old(Contents()), toDelete)
      ensures Contents() == CascadeEach(old(Contents()), toDelete)
    {
      hide BatchSubs, NewestFirst, Cascade, CascadeEach, C.Snapshot, OrgOf, C.BatchedCancels;
      ghost var before := Contents();
      var batch := set o | o in toDelete;
      BatchSubsExist(before, batch);
      var rows := NewestFirst(subs, BatchSubs(Contents(), batch));
      var found := SubByOrg(rows);
      cancels := [];
      for i := 0 to |toDelete|
        invariant Contents() == before
        invariant FirstPerOrg(before, rows, |rows|, found)
        invariant cancels + C.BatchedCancels(before, toDelete[i..]) == C.BatchedCancels(before, toDelete)
      {
        var org := toDelete[i];
        FirstIsNewest(before, batch, org, rows, found);
        CancelsStep(before, toDelete[i..]);
        if org in found {
          cancels := cancels + [subs[found[org]].stripeId.value];
        }
        assert toDelete[i..][1..] == toDelete[i + 1..];
      }
      CancelsEnd(before, toDelete[|toDelete|..]);
      DeleteBatch(batch);
      assert batch == Named(toDelete);
      BatchedEqualsSequential(before, toDelete);
    }

    /** `delete_orgs_created_by_user`; the query lists the orgs in some order. */
    method DeleteOrgsCreatedByUser(user: nat) returns (toDelete: seq<nat>, cancels: seq<string>)
      modifies this
      ensures Named(toDelete) == CreatedBy(old(Contents()), user) && C.Distinct(toDelete)
      ensures cancels == C.BatchedCancels(old(Contents()), toDelete)
      ensures Contents() == CascadeEach(old(Contents()), toDelete)
                         == Cascade(old(Contents()), CreatedBy(old(Contents()), user))
    {
      hide CascadeEach, Cascade, C.BatchedCancels;
      toDelete := ListCreatedBy(user);
      BatchedEqualsSequential(Contents(), toDelete);
      if toDelete == [] {
        NothingToDelete(Contents(), toDelete);
        return toDelete, [];
      }
      cancels := DeleteOrgList(toDelete);
    }

    method ListCreatedBy(user: nat) returns (list: seq<nat>)
      ensures Named(list) == CreatedBy(Contents(), user) && C.Distinct(list)
    {
      list := [];
      var all := CreatedBy(Contents(), user);
      var left := all;
      while left != {}
        invariant left <= all && C.Distinct(list) && forall o :: o in list <==> o in all && o !in left
        decreases left
      {
        var org :| org in left;
        left := left - {org};
        list := list + [org];
      }
    }

    method DeleteCustomerRows(gone: set<string>)
      modifies this`customers, this`subs
      ensures Contents() == DeleteCustomers(old(Contents()), gone)
    {
      CustomersLeaveOrgs(Contents(), gone);
      subs := KeptSubs(subs, {}, gone);
      customers := customers - gone;
    }

    /** `get_active_for_user`: one query by user, one by customer, and the newer of the two answers. */
    method GetActiveForUser(user: nat) returns (active: Option<nat>)
      ensures active == C.ActiveForUser(Contents(), user) && (active.Some? ==> active.value in subs)
    {
      var byUser := C.Newest(subs, C.SubsByUser(Contents(), user));
      var byCustomer := C.Newest(subs, C.SubsByCustomer(Contents(), user));
      active := if byUser == None then byCustomer
                else if byCustomer == None || C.Newer(subs, byUser.value, byCustomer.value) then byUser else byCustomer;
      C.NewestOfUnion(subs, C.SubsByUser(Contents(), user), C.SubsByCustomer(Contents(), user));
    }

    /** Account deletion: the user's own subscription is cancelled and the Stripe customer goes, then the orgs the
        user created with their subscriptions, the memberships, the account. */
    method DeleteAccount(user: nat) returns (outcome: Outcome, created: seq<nat>, cancels: seq<string>)
      modifies this
      ensures Result(Contents(), outcome) == DeleteAccountStep(old(Contents()), user)
      ensures outcome != Done ==> created == [] && cancels == []
      ensures outcome == Done ==>
                && Named(created) == CreatedBy(old(Contents()), user) && C.Distinct(created)
                && cancels == C.PersonalCancels(old(Contents()), user) + C.BatchedCancels(old(Contents()), created)
    {
      ghost var before := Contents();
      hide Cascade, CascadeEach, DeleteUsers, UserCustomers, DeleteCustomers, CreatedBy, C.BatchedCancels,
           C.ActiveForUser;
      if user !in users {
        return Refused(NotFound), [], [];
      }
      var personal := [];
      var active := GetActiveForUser(user);
      if active.Some? && subs[active.value].stripeId.Some? {
        personal := [subs[active.value].stripeId.value];
      }
      assert personal == C.PersonalCancels(before, user);
      DeleteCustomerRows(UserCustomers(Contents(), {user}));
      SameCreated(before, user);
      var teams;
      created, teams := DeleteOrgsCreatedByUser(user);
      C.UnpaidKeepsCancels(before, user, created);
      members := map k | k in members && k.1 != user :: members[k];
      DeleteUserRows({user});
      cancels := personal + teams;
      outcome := Done;
    }

    /** The dictionary of the first row met per org. */
    method SubByOrg(rows: seq<nat>) returns (found: map<nat, nat>)
      ensures FirstPerOrg(Contents(), rows, |rows|, found)
    {
      hide OrgOf;
      found := map[];
      for i := 0 to |rows|
        invariant FirstPerOrg(Contents(), rows, i, found)
      {
        var org := OrgOf(Contents(), rows[i]);
        if org.Some? && org.value !in found {
          found := found[org.value := rows[i]];
        }
      }
    }

    method SubscriptionCanceled(org: nat) returns (outcome: Outcome)
      modifies this
      ensures Result(Contents(), outcome) == SubscriptionCanceledStep(old(Contents()), org)
    {
      hide Cascade;
      if org in orgs {
        DeleteBatch({org});
      }
      outcome := Done;
    }

    method ResizeSeats(caller: nat, org: nat, sub: nat, seats: int) returns (outcome: Outcome)
      modifies this`subs
      ensures Result(Contents(), outcome) == ResizeSeatsStep(old(Contents()), caller, org, sub, seats)
    {
      hide MembersOf;
      if (org, caller) !in members || !members[(org, caller)].isBilling {
        return Refused(Forbidden);
      }
      if sub !in subs || !IsTeamSub(Contents(), subs[sub], org) {
        return Refused(NotFound);
      }
      if seats < 1 {
        return Refused(InvalidInput);
      }
      if seats < |MembersOf(Contents(), org)| {
        return Refused(SeatsBelowMembers);
      }
      subs := subs[sub := subs[sub].(seatLimit := seats)];
      outcome := Done;
    }
  }

  lemma CancelsStep(db: Db, orgs: seq<nat>)
    requires orgs != []
    ensures C.BatchedCancels(db, orgs) == C.Snapshot(db, orgs[0]) + C.BatchedCancels(db, orgs[1..])
  {
  }

  lemma SameCreated(db: Db, user: nat)
    ensures CreatedBy(DeleteCustomers(db, UserCustomers(db, {user})), user) == CreatedBy(db, user)
  {
    CustomersLeaveOrgs(db, UserCustomers(db, {user}));
  }

  lemma NothingToDelete(db: Db, orgs: seq<nat>)
    requires orgs == []
    ensures CascadeEach(db, orgs) == db && C.BatchedCancels(db, orgs) == []
  {
  }

  lemma CancelsEnd(db: Db, orgs: seq<nat>)
    requires orgs == []
    ensures C.BatchedCancels(db, orgs) == []
  {
  }
}
