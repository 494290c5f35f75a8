/** Account deletion after a transfer: the orgs a user created go with the account, whoever owns them. */
module OrgAccountDeletion {
  import opened Options
  import opened OrgData
  import opened OrgSteps
  import opened OrgInvariants
  import opened OrgOwnership

  /** Exactly when an account deletion keeps every remaining org owned: when the user owns no org that
      somebody else created. After a transfer the two differ. */
  lemma AccountDeletionKeepsOwnersIff(db: Db, user: nat)
    requires Valid(db) && EveryOrgOwned(db) && user in db.users
    ensures EveryOrgOwned(DeleteAccountStep(db, user).db)
            <==> forall o :: o in db.orgs && IsOwner(db, o, user) ==> db.orgs[o].createdBy == Some(user)
  {
    var step := DeleteAccount(user);
    hide Apply, DeleteAccountStep, EveryOrgOwned, Valid;
    ApplyDeleteAccount(db, step);
    KeepsOwnersIff(db, step);
    if o :| o in db.orgs && IsOwner(db, o, user) && db.orgs[o].createdBy != Some(user) {
      assert (o, user) in db.members && db.members[(o, user)].role == Owner;
    } else {
      forall k | k in db.members && k.1 == user && db.members[k].role == Owner && k.0 in db.orgs
        ensures db.orgs[k.0].createdBy == Some(user)
      {
        OwnerIffRole(db, k);
      }
    }
  }

  lemma TransferRows(db: Db, caller: nat, org: nat, target: nat)
    requires TransferOwnershipStep(db, caller, org, target).outcome.Joined?
    ensures var after := TransferOwnershipStep(db, caller, org, target).db;
            IsOwner(after, org, target) && after.orgs == db.orgs && after.users == db.users
            && (org, caller) in db.members && (org, target) in db.members && caller != target
  {
    hide OwnsAnOrg;
  }

  lemma MembersAreUsers(db: Db)
    requires Valid(db)
    ensures MembersResolve(db.members, db.orgs.Keys, db.users.Keys)
  {
  }

  lemma TransferDone(db: Db, caller: nat, org: nat, target: nat)
    requires Valid(db) && TransferOwnershipStep(db, caller, org, target).outcome.Joined?
    ensures var after := TransferOwnershipStep(db, caller, org, target).db;
            Valid(after) && IsOwner(after, org, target) && after.orgs == db.orgs && caller != target
            && caller in after.users && target in after.users
  {
    hide Valid, TransferOwnershipStep, IsOwner;
    StepKeepsValid(db, TransferOwnership(caller, org, target));
    TransferRows(db, caller, org, target);
    MembersAreUsers(db);
    assert Apply(db, TransferOwnership(caller, org, target)) == TransferOwnershipStep(db, caller, org, target);
  }

  /** A transfer does not change who created an org, so the former owner's account deletion still takes it,
      and the new owner's leaves it without an owner. */
  lemma TransferKeepsCreator(db: Db, caller: nat, org: nat, target: nat)
    requires Valid(db) && org in db.orgs && db.orgs[org].createdBy == Some(caller)
    requires TransferOwnershipStep(db, caller, org, target).outcome.Joined?
    ensures var after := TransferOwnershipStep(db, caller, org, target).db;
            && IsOwner(after, org, target)
            && org !in DeleteAccountStep(after, caller).db.orgs
            && org in DeleteAccountStep(after, target).db.orgs
            && !EveryOrgOwned(DeleteAccountStep(after, target).db)
  {
    var after := TransferOwnershipStep(db, caller, org, target).db;
    ApplyDeleteAccount(after, DeleteAccount(target));
    assert Departs(after, DeleteAccount(target), target) by { TransferDone(db, caller, org, target); }
    hide DeleteAccountStep, TransferOwnershipStep, Valid, IsOwner, EveryOrgOwned, Apply, Departs;
    TransferDone(db, caller, org, target);
    OrgsThatGo(after, caller, org);
    OrgsThatGo(after, target, org);
    DepartingOwnerOrphans(after, DeleteAccount(target), org, target);
  }
}
