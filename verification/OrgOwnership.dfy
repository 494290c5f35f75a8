/** Who owns an org, over whole runs of the organisation API. */
module OrgOwnership {
  import opened Options
  import opened OrgData
  import opened OrgCascade
  import opened OrgSteps
  import opened OrgInvariants
  import Text

  /** Together with `OwnersOk`: every org has exactly one owner. */
  predicate EveryOrgOwned(db: Db) {
    forall o | o in db.orgs :: exists k :: k in db.members && k.0 == o && db.members[k].role == Owner
  }

  predicate Transfers(db: Db, step: Step, org: nat) {
    step.TransferOwnership? && step.org == org && Apply(db, step).outcome.Joined?
  }

  /** The step deletes the account of `user`: by removing the member, or at the user's own request. */
  predicate Departs(db: Db, step: Step, user: nat) {
    (step.RemoveMember? && step.target == user && Apply(db, step).outcome == Done)
    || (step.DeleteAccount? && step.user == user && user in db.users)
  }

  /** `user` owns an org that somebody else created, or that nobody is recorded to have created. */
  predicate OwnsAnothersOrg(db: Db, user: nat) {
    exists k :: k in db.members && k.1 == user && db.members[k].role == Owner
                && k.0 in db.orgs && db.orgs[k.0].createdBy != Some(user)
  }

  /** The ways to lose an owner: removing a member who owns another org, and deleting the account of a user
      who owns an org of another's making. The orgs a user created go with the account. */
  predicate Orphans(db: Db, step: Step) {
    (step.RemoveMember? && Apply(db, step).outcome == Done && OwnsAnOrg(db, step.target))
    || (step.DeleteAccount? && step.user in db.users && OwnsAnothersOrg(db, step.user))
  }

  /** A cascade deletes no owner of an org it leaves standing. */
  lemma CascadeKeepsOwners(db: Db, batch: set<nat>, org: nat, user: nat)
    requires MembersResolve(db.members, db.orgs.Keys, db.users.Keys)
    requires org !in batch
    ensures IsOwner(Cascade(db, batch), org, user) <==> IsOwner(db, org, user)
  {
    if IsOwner(db, org, user) { DeletableIff(db, batch, user); }
  }

  lemma RemovalOwners(db: Db, gone: nat, org: nat, user: nat)
    ensures IsOwner(DeleteUsers(db, {gone}), org, user) <==> IsOwner(db, org, user) && user != gone
  {
  }

  lemma QuietOwners(db: Db, step: Step, org: nat, user: nat)
    requires step.Invite? || step.CancelInvitation? || step.Decline? || step.ResizeSeats?
    ensures IsOwner(Apply(db, step).db, org, user) <==> IsOwner(db, org, user)
  {
    hide SeatLimit, HasPending, EmailRegistered, Denied, PendingOf, MembersOf, TeamSubs;
  }

  lemma PatchOwners(db: Db, step: Step, org: nat, user: nat)
    requires step.PatchMember?
    ensures IsOwner(Apply(db, step).db, org, user) <==> IsOwner(db, org, user)
  {
    hide Denied;
  }

  lemma CheckoutOwners(db: Db, step: Step, org: nat, user: nat)
    requires step.TeamCheckout? && org != db.next
    ensures IsOwner(Apply(db, step).db, org, user) <==> IsOwner(db, org, user)
  {
    hide NewSlug, OwnsAnOrg, AlreadyAttached;
  }

  lemma AcceptOwners(db: Db, step: Step, org: nat, user: nat)
    requires step.Accept? && !IsOwner(db, org, db.next)
    requires forall i | i in db.invitations :: db.invitations[i].role != Owner
    ensures IsOwner(Apply(db, step).db, org, user) <==> IsOwner(db, org, user)
  {
    hide SeatLimit, EmailRegistered, MembersOf, NormalizeEmail;
  }

  lemma TransferOwners(db: Db, step: Step, org: nat, user: nat)
    requires step.TransferOwnership? && OwnersOk(db.members)
    ensures IsOwner(Apply(db, step).db, org, user) <==>
              if Transfers(db, step, org) then user == step.target else IsOwner(db, org, user)
  {
    hide OwnsAnOrg, OwnersOk;
    if Transfers(db, step, org) {
      assert IsOwner(db, org, step.caller);
      SameOwner(db.members, org, user, step.caller);
    }
  }

  lemma SameOwner(members: map<(nat, nat), Membership>, org: nat, u: nat, v: nat)
    requires OwnersOk(members) && (org, v) in members && members[(org, v)].role == Owner
    ensures (org, u) in members && members[(org, u)].role == Owner ==> u == v
  {
  }

  lemma RemoveOwners(db: Db, step: Step, org: nat, user: nat)
    requires step.RemoveMember?
    ensures IsOwner(Apply(db, step).db, org, user) <==> IsOwner(db, org, user) && !Departs(db, step, user)
  {
    RemovalOwners(db, step.target, org, user);
  }

  lemma CustomersLeaveOrgs(db: Db, gone: set<string>)
    ensures DeleteCustomers(db, gone).orgs == db.orgs && DeleteCustomers(db, gone).members == db.members
    ensures DeleteCustomers(db, gone).users == db.users && DeleteCustomers(db, gone).invitations == db.invitations
  {
    assert KeptOrgs(db.orgs, {}, {}) == db.orgs;
    assert KeptMembers(db.members, {}, {}) == db.members;
    assert KeptInvitations(db.invitations, {}, {}) == db.invitations;
  }

  lemma CascadedOrgs(db: Db, batch: set<nat>, org: nat)
    ensures org in Cascade(db, batch).orgs <==> org in db.orgs && org !in batch
  {
    hide Deletable, LostCustomers, KeptMembers, KeptInvitations, KeptSubs;
  }

  /** Which orgs an account deletion takes: exactly those the user created, whoever owns them. */
  lemma OrgsThatGo(db: Db, user: nat, org: nat)
    requires user in db.users
    ensures org in DeleteAccountStep(db, user).db.orgs <==> org in db.orgs && db.orgs[org].createdBy != Some(user)
  {
    hide Deletable, LostCustomers, UserCustomers, KeptMembers, KeptInvitations, KeptSubs;
    CustomersLeaveOrgs(db, UserCustomers(db, {user}));
  }

  /** Who owns an org that stays: the same user as before, unless that user is the one who leaves. */
  lemma OwnersThatStay(db: Db, user: nat, org: nat, owner: nat)
    requires Valid(db) && user in db.users && org in DeleteAccountStep(db, user).db.orgs
    ensures IsOwner(DeleteAccountStep(db, user).db, org, owner) <==> IsOwner(db, org, owner) && owner != user
  {
    hide Deletable, LostCustomers, UserCustomers, KeptInvitations, KeptSubs, Cascade;
    var unpaid := DeleteCustomers(db, UserCustomers(db, {user}));
    CustomersLeaveOrgs(db, UserCustomers(db, {user}));
    CascadedOrgs(unpaid, CreatedBy(unpaid, user), org);
    assert org !in CreatedBy(unpaid, user);
    CascadeKeepsOwners(unpaid, CreatedBy(unpaid, user), org, owner);
  }

  lemma ApplyDeleteAccount(db: Db, step: Step)
    requires step.DeleteAccount?
    ensures Apply(db, step) == DeleteAccountStep(db, step.user)
  {
    hide DeleteAccountStep;
  }

  lemma UnknownAccount(db: Db, user: nat)
    requires user !in db.users
    ensures DeleteAccountStep(db, user) == Refuse(db, NotFound)
  {
    hide DeleteCustomers, Cascade, DeleteUsers, CreatedBy, UserCustomers, LeaveAll;
  }

  lemma DeleteAccountOwners(db: Db, step: Step, org: nat, user: nat)
    requires Valid(db) && step.DeleteAccount? && org in Apply(db, step).db.orgs
    ensures IsOwner(Apply(db, step).db, org, user) <==> IsOwner(db, org, user) && !Departs(db, step, user)
  {
    ApplyDeleteAccount(db, step);
    hide Apply, DeleteAccountStep, IsOwner, Valid;
    if step.user in db.users { OwnersThatStay(db, step.user, org, user); } else { UnknownAccount(db, step.user); }
  }

  lemma StaysUnlessDeleted(db: Db, step: Step, user: nat)
    ensures Departs(db, step, user) ==> step.RemoveMember? || step.DeleteAccount?
  {
  }

  /** The owner of a standing org changes only by transfer, or is lost when the step deletes the owner's
      account. */
  lemma OwnerAfterStep(db: Db, step: Step, org: nat, user: nat)
    requires Valid(db)
    requires org in db.orgs && org in Apply(db, step).db.orgs
    ensures IsOwner(Apply(db, step).db, org, user) <==>
              if Transfers(db, step, org) then user == step.target
              else IsOwner(db, org, user) && !Departs(db, step, user)
  {
    StaysUnlessDeleted(db, step, user);
    TransfersOnly(db, step, org);
    hide Apply, Valid, IsOwner, Departs, Transfers;
    match step
    case Invite(_, _, _, _, _) => QuietOwners(db, step, org, user);
    case CancelInvitation(_, _, _) => QuietOwners(db, step, org, user);
    case Decline(_, _) => QuietOwners(db, step, org, user);
    case ResizeSeats(_, _, _, _) => QuietOwners(db, step, org, user);
    case DeleteOrg(_, _) => OrgDeletionOwners(db, step, org, user);
    case SubscriptionCanceled(_) => OrgDeletionOwners(db, step, org, user);
    case RemoveMember(_, _, _) => RemoveOwners(db, step, org, user);
    case DeleteAccount(_) => DeleteAccountOwners(db, step, org, user);
    case TransferOwnership(_, _, _) => OneOwnerEach(db); TransferOwners(db, step, org, user);
    case TeamCheckout(_, _, _) => KeysAreOld(db, org); CheckoutOwners(db, step, org, user);
    case Accept(_, _) => KeysAreOld(db, org); AcceptOwners(db, step, org, user);
    case PatchMember(_, _, _, _, _) => PatchOwners(db, step, org, user);
  }

  lemma OneOwnerEach(db: Db)
    requires Valid(db)
    ensures OwnersOk(db.members)
  {
  }

  lemma KeysAreOld(db: Db, org: nat)
    requires Valid(db) && org in db.orgs
    ensures org != db.next && !IsOwner(db, org, db.next)
    ensures forall i | i in db.invitations :: db.invitations[i].role != Owner
  {
  }

  lemma TransfersOnly(db: Db, step: Step, org: nat)
    ensures Transfers(db, step, org) ==> step.TransferOwnership?
  {
  }

  lemma OrgDeletionOwners(db: Db, step: Step, org: nat, user: nat)
    requires Valid(db) && (step.DeleteOrg? || step.SubscriptionCanceled?) && org in Apply(db, step).db.orgs
    ensures IsOwner(Apply(db, step).db, org, user) <==> IsOwner(db, org, user)
  {
    hide Deletable, LostCustomers, Denied;
    if step.org != org { CascadeKeepsOwners(db, {step.org}, org, user); }
  }

  /** A new org is owned by the user who checked out, and it is the only new org. */
  lemma NewOrgIsOwned(db: Db, step: Step, org: nat)
    requires org !in db.orgs && org in Apply(db, step).db.orgs
    ensures step.TeamCheckout? && IsOwner(Apply(db, step).db, org, step.user)
  {
  }

  lemma OnlyOwner(db: Db, org: nat, u: nat, v: nat)
    requires Valid(db) && IsOwner(db, org, u) && IsOwner(db, org, v)
    ensures u == v
  {
    assert (org, u) in db.members && (org, v) in db.members;
  }

  lemma OwnersHaveOrgs(db: Db, org: nat, user: nat)
    requires Valid(db) && IsOwner(db, org, user)
    ensures org in db.orgs
  {
  }

  lemma OwnerIffRole(db: Db, k: (nat, nat))
    requires k in db.members
    ensures IsOwner(db, k.0, k.1) <==> db.members[k].role == Owner
  {
  }

  /** The owner's account goes and the org stays: nobody owns it. */
  lemma DepartingOwnerOrphans(db: Db, step: Step, org: nat, user: nat)
    requires Valid(db) && IsOwner(db, org, user) && Departs(db, step, user) && org in Apply(db, step).db.orgs
    ensures !EveryOrgOwned(Apply(db, step).db)
  {
    StaysUnlessDeleted(db, step, user);
    OwnersHaveOrgs(db, org, user);
    hide Apply, IsOwner, Valid, Departs;
    var after := Apply(db, step).db;
    forall k | k in after.members && k.0 == org ensures after.members[k].role != Owner {
      OwnerAfterStep(db, step, org, k.1);
      if IsOwner(db, org, k.1) { OnlyOwner(db, org, user, k.1); }
      OwnerIffRole(after, k);
    }
  }

  lemma RemovalKeepsOrgs(db: Db, step: Step, org: nat)
    requires step.RemoveMember?
    ensures org in Apply(db, step).db.orgs <==> org in db.orgs
  {
    hide Denied;
  }

  lemma OrphanedOrg(db: Db, step: Step)
    requires Valid(db) && Orphans(db, step)
    ensures !EveryOrgOwned(Apply(db, step).db)
  {
    hide Apply, Valid;
    var user := if step.RemoveMember? then step.target else step.user;
    var k :| k in db.members && k.1 == user && db.members[k].role == Owner
             && (step.DeleteAccount? ==> k.0 in db.orgs && db.orgs[k.0].createdBy != Some(user));
    OwnerIffRole(db, k);
    OwnersHaveOrgs(db, k.0, user);
    if step.RemoveMember? {
      RemovalKeepsOrgs(db, step, k.0);
    } else {
      OrgsThatGo(db, user, k.0);
      assert Apply(db, step) == DeleteAccountStep(db, user) by { ApplyDeleteAccount(db, step); }
    }
    DepartingOwnerOrphans(db, step, k.0, user);
  }

  /** Exactly when a step keeps every org owned: unless it deletes the account of somebody who owns an org
      that stays. */
  lemma KeepsOwnersIff(db: Db, step: Step)
    requires Valid(db) && EveryOrgOwned(db)
    ensures EveryOrgOwned(Apply(db, step).db) <==> !Orphans(db, step)
  {
    if Orphans(db, step) {
      OrphanedOrg(db, step);
    } else {
      var after := Apply(db, step).db;
      forall o | o in after.orgs
        ensures exists k :: k in after.members && k.0 == o && after.members[k].role == Owner
      {
        StepKeepsAnOwner(db, step, o);
      }
    }
  }

  lemma StepKeepsAnOwner(db: Db, step: Step, org: nat)
    requires Valid(db) && EveryOrgOwned(db) && !Orphans(db, step)
    requires org in Apply(db, step).db.orgs
    ensures exists k :: k in Apply(db, step).db.members && k.0 == org
                        && Apply(db, step).db.members[k].role == Owner
  {
    hide Apply, Valid, Orphans, Transfers, Departs;
    var after := Apply(db, step).db;
    if org !in db.orgs {
      NewOrgIsOwned(db, step, org);
      assert IsOwner(after, org, step.user);
    } else {
      var k :| k in db.members && k.0 == org && db.members[k].role == Owner;
      assert IsOwner(db, org, k.1);
      NotDeparting(db, step, org, k.1);
      TransfersOnly(db, step, org);
      var owner := if Transfers(db, step, org) then step.target else k.1;
      OwnerAfterStep(db, step, org, owner);
      assert IsOwner(after, org, owner);
    }
  }

  /** Without orphaning, the owner of an org that stays does not depart. */
  lemma NotDeparting(db: Db, step: Step, org: nat, user: nat)
    requires !Orphans(db, step) && IsOwner(db, org, user) && org in db.orgs && org in Apply(db, step).db.orgs
    ensures !Departs(db, step, user)
  {
    hide Apply, DeleteAccountStep;
    assert (org, user) in db.members;
    if step.DeleteAccount? && step.user == user && user in db.users {
      ApplyDeleteAccount(db, step);
      OrgsThatGo(db, user, org);
    }
  }

  /** No step of the run deletes the account of somebody who owns an org that stays. */
  predicate NoOrphaning(db: Db, steps: seq<Step>)
    decreases steps
  {
    steps == [] || (!Orphans(db, steps[0]) && NoOrphaning(Apply(db, steps[0]).db, steps[1..]))
  }

  /** Every org is owned in every state the run passes through. */
  predicate OwnedThroughout(db: Db, steps: seq<Step>)
    decreases steps
  {
    EveryOrgOwned(db) && (steps == [] || OwnedThroughout(Apply(db, steps[0]).db, steps[1..]))
  }

  lemma {:induction false} OwnedThroughoutIff(db: Db, steps: seq<Step>)
    requires Valid(db) && EveryOrgOwned(db)
    ensures OwnedThroughout(db, steps) <==> NoOrphaning(db, steps)
    decreases steps
  {
    if steps != [] {
      KeepsOwnersIff(db, steps[0]);
      StepKeepsValid(db, steps[0]);
      if !Orphans(db, steps[0]) {
        OwnedThroughoutIff(Apply(db, steps[0]).db, steps[1..]);
      }
    }
  }

  /** Exactly one owner per org, one owned org per user, and every owner billing, in every state of a run
      that deletes no owner of an org that stays. */
  lemma {:induction false} ExactlyOneOwner(db: Db, steps: seq<Step>, org: nat)
    requires Valid(db) && EveryOrgOwned(db) && NoOrphaning(db, steps)
    requires org in Run(db, steps).orgs
    ensures var last := Run(db, steps);
            exists k :: k in last.members && k.0 == org && last.members[k] == Membership(Owner, true)
                        && forall j | j in last.members && j.0 == org && j != k :: last.members[j].role != Owner
    decreases steps
  {
    if steps == [] {
      var k :| k in db.members && k.0 == org && db.members[k].role == Owner;
      assert db.members[k] == Membership(Owner, true);
    } else {
      KeepsOwnersIff(db, steps[0]);
      StepKeepsValid(db, steps[0]);
      ExactlyOneOwner(Apply(db, steps[0]).db, steps[1..], org);
    }
  }

  lemma CheckoutGoesThrough(db: Db, user: nat, name: string)
    requires user in db.users && !OwnsAnOrg(db, user)
    ensures var own := Apply(db, TeamCheckout(user, name, None)).db;
            db.next in own.orgs && own.members == db.members[(db.next, user) := Membership(Owner, true)]
  {
    hide NewSlug, OwnsAnOrg;
  }

  lemma RemovalGoesThrough(db: Db, admin: nat, org: nat, user: nat)
    requires IsOwner(db, org, admin) && (org, user) in db.members && db.members[(org, user)].role == Member
    ensures Apply(db, RemoveMember(admin, org, user)) == Result(DeleteUsers(db, {user}), Done)
  {
    hide DeleteUsers;
  }

  /** How an org loses its owner: a member starts a team of their own, and is then removed from the org
      they had joined. The new team is left standing with nobody owning it. */
  lemma RemovalOrphansTheMembersTeam(db: Db, admin: nat, org: nat, user: nat, name: string)
    requires user in db.users && org != db.next && IsOwner(db, org, admin) && !OwnsAnOrg(db, user)
    requires (org, user) in db.members && db.members[(org, user)].role == Member
    requires forall k | k in db.members :: k.0 != db.next
    ensures var own := Apply(db, TeamCheckout(user, name, None)).db;
            var removal := RemoveMember(admin, org, user);
            && Orphans(own, removal)
            && db.next in Apply(own, removal).db.orgs
            && forall u :: !IsOwner(Apply(own, removal).db, db.next, u)
  {
    var own := Apply(db, TeamCheckout(user, name, None)).db;
    var removal := RemoveMember(admin, org, user);
    CheckoutGoesThrough(db, user, name);
    hide Apply, DeleteUsers, Orphans, OwnsAnOrg;
    var key := (db.next, user);
    assert own.members == db.members[key := Membership(Owner, true)];
    assert own.members[(org, admin)] == db.members[(org, admin)] && own.members[(org, user)] == db.members[(org, user)];
    RemovalGoesThrough(own, admin, org, user);
    OrphansByRemoval(own, removal, key);
    RemovalKeepsOrgs(own, removal, db.next);
    forall u ensures !IsOwner(Apply(own, removal).db, db.next, u) {
      RemovalOwners(own, user, db.next, u);
      SoleMember(db, own, key, u);
    }
  }

  lemma OrphansByRemoval(db: Db, step: Step, k: (nat, nat))
    requires step.RemoveMember? && Apply(db, step).outcome == Done
    requires k in db.members && k.1 == step.target && db.members[k].role == Owner
    ensures Orphans(db, step)
  {
    hide Apply;
  }

  lemma SoleMember(db: Db, own: Db, key: (nat, nat), u: nat)
    requires own.members == db.members[key := Membership(Owner, true)]
    requires forall k | k in db.members :: k.0 != key.0
    ensures IsOwner(own, key.0, u) ==> u == key.1
  {
  }

  /** An org with an owner and one plain member. */
  const EXAMPLE: Db :=
    Db(3, map[0 := User("o"), 1 := User("m")], map[2 := Org("org", Some(0))],
       map[(2, 0) := Membership(Owner, true), (2, 1) := Membership(Member, false)], map[], map[], map[])

  lemma ExampleEmails()
    ensures EmailsUnique(EXAMPLE.users)
  {
    assert Text.Lower("o")[0] != Text.Lower("m")[0];
  }

  lemma ExampleMembers()
    ensures MembersResolve(EXAMPLE.members, EXAMPLE.orgs.Keys, EXAMPLE.users.Keys)
    ensures OwnersOk(EXAMPLE.members) && EveryOrgOwned(EXAMPLE)
  {
    assert (2, 0) in EXAMPLE.members && EXAMPLE.members[(2, 0)].role == Owner;
  }

  lemma ExampleIsValid()
    ensures Valid(EXAMPLE) && EveryOrgOwned(EXAMPLE)
  {
    ExampleEmails();
    ExampleMembers();
    hide EmailsUnique, MembersResolve, OwnersOk, EveryOrgOwned;
  }

  lemma NotOrphanFree(db: Db, first: Step, second: Step)
    requires Orphans(Apply(db, first).db, second)
    ensures !NoOrphaning(db, [first, second])
  {
    hide Apply, Orphans;
    assert [first, second][1..] == [second];
    assert !NoOrphaning(Apply(db, first).db, [second]);
  }

  /** The situation exists. */
  lemma OrphaningExample()
    ensures Valid(EXAMPLE) && EveryOrgOwned(EXAMPLE)
    ensures !OwnedThroughout(EXAMPLE, [TeamCheckout(1, "x", None), RemoveMember(0, 2, 1)])
  {
    ExampleIsValid();
    RemovalOrphansTheMembersTeam(EXAMPLE, 0, 2, 1, "x");
    hide Apply, Orphans, Valid, EveryOrgOwned;
    NotOrphanFree(EXAMPLE, TeamCheckout(1, "x", None), RemoveMember(0, 2, 1));
    OwnedThroughoutIff(EXAMPLE, [TeamCheckout(1, "x", None), RemoveMember(0, 2, 1)]);
  }

  /** A member patch stays strictly below the caller: neither the old nor the new role reaches the
      caller's rank, nobody else is touched, and the owner role is never handed out. */
  lemma PatchStaysBelowCaller(db: Db, caller: nat, org: nat, target: nat, newRole: Option<Role>, billing: Option<bool>)
    ensures var r := PatchMemberStep(db, caller, org, target, newRole, billing);
            r.outcome == Done ==>
              && (org, caller) in db.members && (org, target) in db.members && target != caller
              && Rank(db.members[(org, target)].role) < Rank(db.members[(org, caller)].role)
              && Rank(r.db.members[(org, target)].role) < Rank(r.db.members[(org, caller)].role)
              && r.db.members[(org, target)].role != Owner
              && (newRole.Some? ==> r.db.members[(org, target)].role == newRole.value)
              && (billing.Some? ==> r.db.members[(org, target)].isBilling == billing.value)
              && forall k | k in db.members && k != (org, target) :: r.db.members[k] == db.members[k]
  {
  }
}
