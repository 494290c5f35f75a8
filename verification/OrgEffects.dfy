/** When each request of the organisation API goes through, and what it then changes: read from the rows. */
module OrgEffects {
  import opened Options
  import opened OrgData
  import opened OrgCascade
  import opened OrgSteps
  import opened OrgInvariants
  import opened OrgSurvivors
  import Text

  // ------------------------------------------------------------------ subscriptions that count

  /** A member who pays for an active personal plan keeps account and subscription when the orgs go. */
  lemma PayingMembersStay(db: Db, batch: set<nat>, u: nat, s: nat, customer: string)
    requires Valid(db) && u in db.users && s in db.subs && db.subs[s].user == Some(u)
    requires db.subs[s].customer == Some(customer) && customer in db.customers && db.customers[customer] == UserOwner(u)
    requires db.subs[s].status == Active || db.subs[s].status == Trialing || db.subs[s].status == PastDue
    ensures u in Cascade(db, batch).users && s in Cascade(db, batch).subs
  {
    assert IsPersonalSub(db, db.subs[s], u);
    DeletableIff(db, batch, u);
    CascadeLeaves(db, batch);
    hide Cascade, Deletable, OrgsSurvive, MembersSurvive, InvitationsSurvive;
  }

  /** One whose subscriptions have all ended, or are not on a customer of their own, does not. */
  lemma LapsedMembersGo(db: Db, batch: set<nat>, u: nat, org: nat)
    requires u in db.users && org in batch && (org, u) in db.members
    requires forall o :: (o, u) in db.members ==> o in batch
    requires forall s | s in db.subs && db.subs[s].user == Some(u) ::
               || db.subs[s].status in {Canceled, Incomplete, IncompleteExpired, Paused, Unpaid}
               || (db.subs[s].customer.Some? && db.subs[s].customer.value in db.customers
                   && db.customers[db.subs[s].customer.value] != UserOwner(u))
               || db.subs[s].customer == None
    ensures u !in Cascade(db, batch).users
  {
    DeletableIff(db, batch, u);
    forall s | s in db.subs ensures !IsPersonalSub(db, db.subs[s], u) {
    }
  }

  predicate TeamSubOf(db: Db, s: nat, org: nat) {
    s in db.subs && (db.subs[s].status == Active || db.subs[s].status == Trialing || db.subs[s].status == PastDue)
    && exists c :: c in db.customers && db.subs[s].customer == Some(c) && db.customers[c] == OrgOwner(org)
  }

  /** The seat limit of an org: none without an active subscription on its customer, else that of the first. */
  lemma SeatLimitMeans(db: Db, org: nat)
    ensures SeatLimit(db, org) == None <==> forall s | s in db.subs :: !TeamSubOf(db, s, org)
    ensures SeatLimit(db, org).Some? ==>
              exists s :: TeamSubOf(db, s, org) && db.subs[s].seatLimit == SeatLimit(db, org).value
                          && forall t | t in db.subs && TeamSubOf(db, t, org) :: s <= t
  {
    forall s ensures s in TeamSubs(db, org) <==> TeamSubOf(db, s, org) { TeamSubMeans(db, s, org); }
    hide TeamSubs, TeamSubOf;
    var first := First(TeamSubs(db, org));
    if first.Some? { assert TeamSubOf(db, first.value, org); }
  }

  lemma TeamSubMeans(db: Db, s: nat, org: nat)
    ensures s in TeamSubs(db, org) <==> TeamSubOf(db, s, org)
  {
    if s in TeamSubs(db, org) { assert db.customers[db.subs[s].customer.value] == OrgOwner(org); }
  }

  function Team(db: Db, org: nat): set<nat> { set u | u in db.users && (org, u) in db.members }

  function Paired(org: nat, team: set<nat>): set<(nat, nat)> { set u | u in team :: (org, u) }

  /** The head-count of an org is the number of accounts that belong to it. */
  lemma HeadCount(db: Db, org: nat)
    requires Valid(db)
    ensures |MembersOf(db, org)| == |Team(db, org)|
  {
    forall k ensures k in MembersOf(db, org) <==> k in Paired(org, Team(db, org)) {
      if k in MembersOf(db, org) { assert k == (org, k.1) && k.1 in Team(db, org); }
    }
    hide Valid, MembersOf, Team, Paired;
    assert MembersOf(db, org) == Paired(org, Team(db, org));
    PairCount(org, Team(db, org));
  }

  lemma {:induction false} PairCount(org: nat, team: set<nat>)
    ensures |Paired(org, team)| == |team|
  {
    if team == {} {
      assert Paired(org, team) == {};
    } else {
      var x :| x in team;
      PairCount(org, team - {x});
      assert Paired(org, team) == Paired(org, team - {x}) + {(org, x)};
    }
  }

  // ------------------------------------------------------------------ invitations

  predicate Registered(db: Db, email: string) {
    exists u :: u in db.users && Text.Lower(db.users[u].email) == Text.Lower(email)
  }

  predicate AlreadyInvited(db: Db, org: nat, email: string) {
    exists i :: i in db.invitations && db.invitations[i].org == org && db.invitations[i].email == email
                && db.invitations[i].status == Pending
  }

  predicate Manages(db: Db, org: nat, caller: nat) {
    (org, caller) in db.members && db.members[(org, caller)].role != Member
  }

  predicate SeatFree(db: Db, org: nat, claimed: nat) {
    SeatLimit(db, org).Some? ==> claimed < SeatLimit(db, org).value
  }

  /** An invitation goes out exactly when an owner or admin offers a lower role than owner to an address that has
      neither an account nor a pending invitation, and a seat is free. It is pending, and good for seven days. */
  lemma InviteMeans(db: Db, caller: nat, org: nat, email: string, role: Role, now: int)
    ensures var r := InviteStep(db, caller, org, email, role, now);
            && (r.outcome == Done
                <==> Manages(db, org, caller) && role != Owner
                     && !Registered(db, email) && !AlreadyInvited(db, org, email)
                     && SeatFree(db, org, |MembersOf(db, org)| + |PendingOf(db, org)|))
            && (r.outcome == Done ==>
                  r.db == db.(next := db.next + 1, invitations := r.db.invitations)
                  && r.db.invitations
                     == db.invitations[db.next := Invitation(org, email, role, Pending, Some(caller), now + 604800)])
            && (r.outcome == Refused(SeatLimitReached) ==>
                  !SeatFree(db, org, |MembersOf(db, org)| + |PendingOf(db, org)|))
  {
    RegisteredMeans(db, email);
    AlreadyInvitedMeans(db, org, email);
    ManagesMeans(db, org, caller);
    hide SeatLimit, EmailRegistered, HasPending, Registered, AlreadyInvited, MembersOf, PendingOf, Manages, Denied;
  }

  lemma RegisteredMeans(db: Db, email: string)
    ensures EmailRegistered(db, email) <==> Registered(db, email)
  {
  }

  lemma AlreadyInvitedMeans(db: Db, org: nat, email: string)
    ensures HasPending(db, org, email) <==> AlreadyInvited(db, org, email)
  {
    if AlreadyInvited(db, org, email) {
      var i :| i in db.invitations && db.invitations[i].org == org && db.invitations[i].email == email
               && db.invitations[i].status == Pending;
      assert i in PendingOf(db, org);
    }
  }

  /** Who may manage an org, and how a refusal reads. */
  lemma ManagesMeans(db: Db, org: nat, caller: nat)
    ensures Denied(db, caller, org, ADMIN_OR_ABOVE) == None <==> Manages(db, org, caller)
    ensures Denied(db, caller, org, OWNER_ONLY) == None <==> IsOwner(db, org, caller)
    ensures Denied(db, caller, org, ADMIN_OR_ABOVE) == Some(OrgNotFound)
            <==> org !in db.orgs && (org, caller) !in db.members
    ensures var d := Denied(db, caller, org, ADMIN_OR_ABOVE); d in {None, Some(OrgNotFound), Some(Forbidden)}
  {
  }

  /** A pending invitation is accepted exactly when it has not expired, its address has no account, and a seat is
      free: a new account with that address joins with the role offered and without billing rights. */
  lemma AcceptMeans(db: Db, i: nat, now: int)
    requires i in db.invitations && db.invitations[i].status == Pending
    ensures var inv, r := db.invitations[i], AcceptStep(db, i, now);
            && (r.outcome.Joined?
                <==> now <= inv.expiresAt && !Registered(db, inv.email)
                     && SeatFree(db, inv.org, |MembersOf(db, inv.org)|))
            && (r.outcome == Refused(InvitationExpired) <==> inv.expiresAt < now)
            && (inv.expiresAt < now ==> r.db == db.(invitations := db.invitations[i := inv.(status := Expired)]))
            && (r.outcome.Joined? ==> AcceptedInto(db, r.db, i))
  {
    RegisteredMeans(db, db.invitations[i].email);
    NormalizeKeepsIdentity(db.invitations[i].email);
    hide SeatLimit, EmailRegistered, Registered, MembersOf, NormalizeEmail, SameEmail;
  }

  /** Any other invitation is refused without effect. */
  lemma OnlyPendingAccepted(db: Db, i: nat, now: int)
    requires i in db.invitations ==> db.invitations[i].status != Pending
    ensures AcceptStep(db, i, now) == Result(db, Refused(NotFound))
  {
  }

  predicate AcceptedInto(db: Db, after: Db, i: nat)
    requires i in db.invitations
  {
    var inv := db.invitations[i];
    && db.next in after.users && SameEmail(after.users[db.next].email, inv.email)
    && after.users == db.users[db.next := after.users[db.next]]
    && after.members == db.members[(inv.org, db.next) := Membership(inv.role, false)]
    && after.invitations == db.invitations[i := inv.(status := Accepted)]
    && after.orgs == db.orgs && after.customers == db.customers && after.subs == db.subs && after.next == db.next + 1
  }

  /** An address keeps everything before its last at-sign, and has the rest in lower case. */
  lemma {:induction false} NormalizeMeans(name: string, domain: string)
    requires '@' !in domain
    ensures NormalizeEmail(name + "@" + domain) == name + "@" + Text.Lower(domain)
  {
    var email := name + "@" + domain;
    LastAtMeans(name, domain);
    Text.LowerAppend("@", domain);
    assert Text.Lower("@") == "@";
    hide LastAt, Text.Lower;
    assert email[..|name|] == name && email[|name|..] == "@" + domain;
  }

  lemma {:induction false} LastAtMeans(name: string, domain: string)
    requires '@' !in domain
    ensures LastAt(name + "@" + domain) == |name|
    decreases |domain|
  {
    var email := name + "@" + domain;
    assert email[|name|] == '@';
    if domain != "" {
      var n := |domain| - 1;
      assert email[|email| - 1] == domain[n] && domain[n] in domain;
      assert email[..|email| - 1] == name + "@" + domain[..n];
      LastAtMeans(name, domain[..n]);
    } else {
      assert email == name + "@";
    }
  }

  /** Cancelling and declining close a pending invitation and change nothing else. */
  lemma CloseMeans(db: Db, caller: nat, org: nat, i: nat)
    ensures var r := CancelInvitationStep(db, caller, org, i);
            && (r.outcome == Done <==> Manages(db, org, caller) && i in db.invitations && db.invitations[i].org == org
                                       && db.invitations[i].status == Pending)
            && (r.outcome == Done ==>
                  r.db == db.(invitations := db.invitations[i := db.invitations[i].(status := Cancelled)]))
    ensures var r := DeclineStep(db, caller, i);
            && (r.outcome == Done
                <==> caller in db.users && i in db.invitations && db.invitations[i].status == Pending
                     && Text.Lower(db.users[caller].email) == Text.Lower(db.invitations[i].email))
            && (r.outcome == Done ==>
                  r.db == db.(invitations := db.invitations[i := db.invitations[i].(status := Declined)]))
  {
    ManagesMeans(db, org, caller);
    hide Denied, Manages;
  }

  lemma AuthorLeaves(db: Db, author: nat, i: nat)
    requires Valid(db) && i in db.invitations && db.invitations[i].invitedBy == Some(author)
    ensures var after := DeleteUsers(db, {author});
            && i in after.invitations && after.invitations[i] == db.invitations[i].(invitedBy := None)
            && forall u | u in after.users :: u in db.users && after.users[u] == db.users[u]
  {
    UserDeletionLeaves(db, {author});
    InvitedOrgExists(db, i);
    hide DeleteUsers, Valid, OrgsSurvive, MembersSurvive, CustomersSurvive, SubsSurvive;
  }

  lemma RegisteredShrinks(db: Db, after: Db, email: string)
    requires forall u | u in after.users :: u in db.users && after.users[u] == db.users[u]
    ensures Registered(after, email) ==> Registered(db, email)
  {
    hide Text.Lower;
  }

  /** An invitation outlives the account that sent it: it stays pending, and until it expires only a registered
      address or a lack of seats keeps it from being accepted. */
  lemma InvitationOutlivesAuthor(db: Db, caller: nat, org: nat, author: nat, i: nat, now: int)
    requires Valid(db) && RemoveMemberStep(db, caller, org, author).outcome == Done
    requires i in db.invitations && db.invitations[i].status == Pending && db.invitations[i].invitedBy == Some(author)
    ensures var after := RemoveMemberStep(db, caller, org, author).db;
            && i in after.invitations && after.invitations[i] == db.invitations[i].(invitedBy := None)
            && (AcceptStep(after, i, now).outcome.Joined?
                <==> now <= db.invitations[i].expiresAt && !Registered(after, db.invitations[i].email)
                     && SeatFree(after, db.invitations[i].org, |MembersOf(after, db.invitations[i].org)|))
            && (Registered(after, db.invitations[i].email) ==> Registered(db, db.invitations[i].email))
  {
    var after := RemoveMemberStep(db, caller, org, author).db;
    assert after == DeleteUsers(db, {author}) by { hide DeleteUsers; }
    hide DeleteUsers, RemoveMemberStep, Valid, Registered, SeatFree, MembersOf, AcceptStep;
    AuthorLeaves(db, author, i);
    RegisteredShrinks(db, after, db.invitations[i].email);
    AcceptMeans(after, i, now);
  }

  lemma InvitedOrgExists(db: Db, i: nat)
    requires Valid(db) && i in db.invitations
    ensures db.invitations[i].org in db.orgs
  {
  }

  // ------------------------------------------------------------------ members

  /** Whom an owner or an admin may manage: an owner all but owners, an admin plain members only. */
  predicate MayManage(caller: Role, target: Role) {
    (caller == Owner && target != Owner) || (caller == Admin && target == Member)
  }

  /** A patch goes through exactly when the caller may manage the target and may hand out the new role; what it does
      not name stays. */
  lemma PatchMeans(db: Db, caller: nat, org: nat, target: nat, newRole: Option<Role>, billing: Option<bool>)
    ensures var r := PatchMemberStep(db, caller, org, target, newRole, billing);
            && (r.outcome == Done
                <==> (org, caller) in db.members && (org, target) in db.members
                     && MayManage(db.members[(org, caller)].role, db.members[(org, target)].role)
                     && (newRole.Some? ==> MayManage(db.members[(org, caller)].role, newRole.value)))
            && (r.outcome == Done ==>
                  && r.db == db.(members := r.db.members) && r.db.members.Keys == db.members.Keys
                  && (forall k | k in db.members && k != (org, target) :: r.db.members[k] == db.members[k])
                  && (var was, now := db.members[(org, target)], r.db.members[(org, target)];
                      && (newRole == None ==> now.role == was.role) && (newRole.Some? ==> Some(now.role) == newRole)
                      && (billing == None ==> now.isBilling == was.isBilling)
                      && (billing.Some? ==> Some(now.isBilling) == billing)))
  {
  }

  /** A removal goes through exactly when the caller may manage the target; it deletes the account and no org. */
  lemma RemoveMeans(db: Db, caller: nat, org: nat, target: nat)
    requires Valid(db)
    ensures var r := RemoveMemberStep(db, caller, org, target);
            && (r.outcome == Done
                <==> (org, caller) in db.members && (org, target) in db.members
                     && MayManage(db.members[(org, caller)].role, db.members[(org, target)].role))
            && (r.outcome == Done ==> Survivors(db, r.db, {target}) && r.db.orgs.Keys == db.orgs.Keys)
  {
    UserDeletionLeaves(db, {target});
    RemovalRights(db, caller, org, target);
    hide Valid, DeleteUsers, Survivors, RemoveMemberStep, MayManage;
  }

  lemma RemovalRights(db: Db, caller: nat, org: nat, target: nat)
    ensures var r := RemoveMemberStep(db, caller, org, target);
            && (r.outcome == Done
                <==> (org, caller) in db.members && (org, target) in db.members
                     && MayManage(db.members[(org, caller)].role, db.members[(org, target)].role))
            && (r.outcome == Done ==> r.db == DeleteUsers(db, {target}))
  {
    hide DeleteUsers;
  }

  /** A transfer goes through exactly when the owner names an admin who owns no org. The new owner becomes owner with
      billing rights, the former one an admin without, and nothing else changes. */
  lemma TransferMeans(db: Db, caller: nat, org: nat, target: nat)
    ensures var r := TransferOwnershipStep(db, caller, org, target);
            && (r.outcome.Joined?
                <==> IsOwner(db, org, caller) && (org, target) in db.members && db.members[(org, target)].role == Admin
                     && forall k | k in db.members && k.1 == target :: db.members[k].role != Owner)
            && (r.outcome.Joined? ==>
                  && r.db == db.(members := r.db.members) && r.db.members.Keys == db.members.Keys
                  && r.db.members[(org, target)] == Membership(Owner, true)
                  && r.db.members[(org, caller)] == Membership(Admin, false)
                  && forall k | k in db.members && k != (org, caller) && k != (org, target) ::
                       r.db.members[k] == db.members[k])
  {
  }

  /** Deleting an org is the owner's right; it takes the org and leaves what the schema lets survive. */
  lemma DeleteOrgMeans(db: Db, caller: nat, org: nat)
    requires Valid(db)
    ensures var r := DeleteOrgStep(db, caller, org);
            && (r.outcome == Done <==> IsOwner(db, org, caller))
            && (r.outcome == Done ==>
                  Survivors(db, r.db, Deletable(db, {org})) && forall o :: o in r.db.orgs <==> o in db.orgs && o != org)
  {
    CascadeLeaves(db, {org});
    ManagesMeans(db, org, caller);
    hide Valid, Cascade, Survivors, Deletable, Denied;
  }

  /** The end of a team's subscription deletes the org like its owner would; a second notice changes nothing. */
  lemma SubscriptionEndMeans(db: Db, org: nat)
    requires Valid(db)
    ensures var r := SubscriptionCanceledStep(db, org);
            && r.outcome == Done && org !in r.db.orgs && SubscriptionCanceledStep(r.db, org).db == r.db
            && (org !in db.orgs ==> r.db == db)
            && (org in db.orgs ==>
                  Survivors(db, r.db, Deletable(db, {org})) && forall o :: o in r.db.orgs <==> o in db.orgs && o != org)
  {
    CascadeLeaves(db, {org});
    hide Valid, Cascade, Survivors, Deletable;
  }

  /** Seats change exactly for a billing member, on an active subscription of the org, to at least one seat and no
      fewer than the members. */
  lemma ResizeMeans(db: Db, caller: nat, org: nat, sub: nat, seats: int)
    ensures var r := ResizeSeatsStep(db, caller, org, sub, seats);
            && (r.outcome == Done
                <==> (org, caller) in db.members && db.members[(org, caller)].isBilling && TeamSubOf(db, sub, org)
                     && seats >= 1 && seats >= |MembersOf(db, org)|)
            && (r.outcome == Done ==>
                  sub in db.subs && r.db == db.(subs := db.subs[sub := db.subs[sub].(seatLimit := seats)]))
  {
    TeamSubMeans(db, sub, org);
    assert TeamSubOf(db, sub, org) ==> sub in db.subs;
    hide TeamSubOf, MembersOf;
  }

  /** A checkout reports an org exactly when its user exists and either belongs to the org the customer is attached to,
      or owns no org while the customer is new. */
  lemma CheckoutMeans(db: Db, user: nat, name: string, customer: Option<string>)
    ensures TeamCheckoutStep(db, user, name, customer).outcome.Joined?
            <==> user in db.users
                 && ((exists c, o :: customer == Some(c) && c in db.customers && db.customers[c] == OrgOwner(o)
                                     && o in db.orgs && (o, user) in db.members)
                     || ((forall k | k in db.members && k.1 == user :: db.members[k].role != Owner)
                         && (customer.Some? ==> customer.value !in db.customers)))
  {
    hide NewSlug;
    if AlreadyAttached(db, user, customer) {
      assert db.customers[customer.value] == OrgOwner(db.customers[customer.value].org);
    }
  }
}
