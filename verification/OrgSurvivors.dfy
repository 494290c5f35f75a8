/** What a deletion leaves behind, row by row: the foreign keys of the schema, read from the tables before and after. */
module OrgSurvivors {
  import opened Options
  import opened OrgData
  import opened OrgCascade
  import opened OrgSteps
  import opened OrgInvariants

  /** `on_delete=SET_NULL`: the author is forgotten exactly when the account is gone. */
  predicate AuthorKept(was: Option<nat>, now: Option<nat>, gone: set<nat>) {
    && (now == None <==> was == None || was.value in gone)
    && (now.Some? ==> now == was)
  }

  /** An invitation lives as long as its org, whatever becomes of the account that sent it. */
  predicate InvitationsSurvive(db: Db, after: Db, gone: set<nat>) {
    && (forall i | i in after.invitations :: i in db.invitations)
    && (forall i | i in db.invitations :: i in after.invitations <==> db.invitations[i].org in after.orgs)
    && (forall i | i in after.invitations && i in db.invitations ::
          && after.invitations[i].org == db.invitations[i].org && after.invitations[i].email == db.invitations[i].email
          && after.invitations[i].role == db.invitations[i].role
          && after.invitations[i].status == db.invitations[i].status
          && after.invitations[i].expiresAt == db.invitations[i].expiresAt
          && AuthorKept(db.invitations[i].invitedBy, after.invitations[i].invitedBy, gone))
  }

  /** An org that stays keeps its slug, and its creator unless that account is gone. */
  predicate OrgsSurvive(db: Db, after: Db, gone: set<nat>) {
    forall o | o in after.orgs ::
      o in db.orgs && after.orgs[o].slug == db.orgs[o].slug
      && AuthorKept(db.orgs[o].createdBy, after.orgs[o].createdBy, gone)
  }

  /** A membership lives as long as both its org and its user. */
  predicate MembersSurvive(db: Db, after: Db) {
    && (forall k | k in after.members :: k in db.members && after.members[k] == db.members[k])
    && (forall k | k in db.members :: k in after.members <==> k.0 in after.orgs && k.1 in after.users)
  }

  /** A Stripe customer lives as long as the user or org that owns it. */
  predicate CustomersSurvive(db: Db, after: Db) {
    && (forall c | c in after.customers :: c in db.customers && after.customers[c] == db.customers[c])
    && (forall c | c in db.customers :: c in after.customers <==>
          match db.customers[c] case UserOwner(u) => u in after.users case OrgOwner(o) => o in after.orgs)
  }

  /** A subscription lives as long as its user and its customer. */
  predicate SubsSurvive(db: Db, after: Db, gone: set<nat>) {
    && (forall s | s in after.subs :: s in db.subs && after.subs[s] == db.subs[s])
    && (forall s | s in db.subs :: s in after.subs <==>
          && (db.subs[s].user.Some? ==> db.subs[s].user.value !in gone)
          && (db.subs[s].customer.Some? ==> db.subs[s].customer.value in after.customers))
  }

  predicate UsersSurvive(db: Db, after: Db, gone: set<nat>) {
    && (forall u | u in after.users :: u in db.users && after.users[u] == db.users[u])
    && (forall u | u in db.users :: u in after.users <==> u !in gone)
  }

  /** All tables together; `gone` are the accounts deleted. */
  predicate Survivors(db: Db, after: Db, gone: set<nat>) {
    && UsersSurvive(db, after, gone) && OrgsSurvive(db, after, gone) && MembersSurvive(db, after)
    && InvitationsSurvive(db, after, gone) && CustomersSurvive(db, after) && SubsSurvive(db, after, gone)
  }

  lemma AuthorsOf(fk: Option<nat>, gone: set<nat>)
    ensures AuthorKept(fk, Forget(fk, gone), gone)
  {
  }

  lemma PurgedOrgs(db: Db, batch: set<nat>, dead: set<nat>, lost: set<string>)
    ensures var after := Purge(db, batch, dead, lost);
            OrgsSurvive(db, after, dead) && UsersSurvive(db, after, dead)
            && forall o :: o in after.orgs <==> o in db.orgs && o !in batch
  {
    hide AuthorKept, KeptMembers, KeptInvitations, KeptSubs, Forget;
    forall o | o in db.orgs { AuthorsOf(db.orgs[o].createdBy, dead); }
  }

  lemma PurgedInvitations(db: Db, batch: set<nat>, dead: set<nat>, lost: set<string>)
    requires InvitationsResolve(db.invitations, db.orgs.Keys)
    ensures InvitationsSurvive(db, Purge(db, batch, dead, lost), dead)
  {
    hide AuthorKept, KeptMembers, KeptSubs, Forget;
    forall i | i in db.invitations { AuthorsOf(db.invitations[i].invitedBy, dead); }
  }

  lemma PurgedMembers(db: Db, batch: set<nat>, dead: set<nat>, lost: set<string>)
    requires MembersResolve(db.members, db.orgs.Keys, db.users.Keys)
    ensures MembersSurvive(db, Purge(db, batch, dead, lost))
  {
    hide KeptInvitations, KeptSubs, Forget;
  }

  lemma PurgedBilling(db: Db, batch: set<nat>, dead: set<nat>)
    requires CustomersResolve(db.customers, db.orgs.Keys, db.users.Keys) && SubsResolve(db.subs, db.customers)
    ensures var after := Purge(db, batch, dead, OrgCustomers(db, batch) + UserCustomers(db, dead));
            CustomersSurvive(db, after) && SubsSurvive(db, after, dead)
  {
    hide KeptInvitations, KeptMembers, Forget;
  }

  lemma PurgeLeaves(db: Db, batch: set<nat>, dead: set<nat>)
    requires Valid(db)
    ensures var after := Purge(db, batch, dead, OrgCustomers(db, batch) + UserCustomers(db, dead));
            Survivors(db, after, dead) && forall o :: o in after.orgs <==> o in db.orgs && o !in batch
  {
    var lost := OrgCustomers(db, batch) + UserCustomers(db, dead);
    PurgedOrgs(db, batch, dead, lost);
    PurgedInvitations(db, batch, dead, lost);
    PurgedMembers(db, batch, dead, lost);
    PurgedBilling(db, batch, dead);
    hide Purge, UsersSurvive, OrgsSurvive, MembersSurvive, InvitationsSurvive, CustomersSurvive, SubsSurvive;
  }

  /** After the deletion of orgs. Which accounts go is said by `WhoIsRemoved`. */
  lemma CascadeLeaves(db: Db, batch: set<nat>)
    requires Valid(db)
    ensures var after := Cascade(db, batch);
            && Survivors(db, after, Deletable(db, batch))
            && forall o :: o in after.orgs <==> o in db.orgs && o !in batch
  {
    hide Deletable, Survivors, Purge, Valid;
    PurgeLeaves(db, batch, Deletable(db, batch));
  }

  /** After the deletion of accounts, as member removal does it: no org goes. */
  lemma UserDeletionLeaves(db: Db, gone: set<nat>)
    requires Valid(db)
    ensures var after := DeleteUsers(db, gone);
            Survivors(db, after, gone) && forall o :: o in after.orgs <==> o in db.orgs
  {
    assert OrgCustomers(db, {}) + UserCustomers(db, gone) == UserCustomers(db, gone);
    hide Survivors, Purge, Valid;
    PurgeLeaves(db, {}, gone);
  }

  // ------------------------------------------------------------------ account deletion

  lemma AuthorTwice(a: Option<nat>, b: Option<nat>, c: Option<nat>, g: set<nat>, h: set<nat>)
    requires AuthorKept(a, b, g) && AuthorKept(b, c, h)
    ensures AuthorKept(a, c, g + h)
  {
  }

  lemma OrgsTwice(a: Db, b: Db, c: Db, g: set<nat>, h: set<nat>)
    requires OrgsSurvive(a, b, g) && OrgsSurvive(b, c, h)
    ensures OrgsSurvive(a, c, g + h)
  {
    hide AuthorKept;
    forall o | o in c.orgs { AuthorTwice(a.orgs[o].createdBy, b.orgs[o].createdBy, c.orgs[o].createdBy, g, h); }
  }

  lemma UsersTwice(a: Db, b: Db, c: Db, g: set<nat>, h: set<nat>)
    requires UsersSurvive(a, b, g) && UsersSurvive(b, c, h)
    ensures UsersSurvive(a, c, g + h)
  {
  }

  lemma InvitationsTwice(a: Db, b: Db, c: Db, g: set<nat>, h: set<nat>)
    requires InvitationsSurvive(a, b, g) && InvitationsSurvive(b, c, h) && OrgsSurvive(b, c, h)
    ensures InvitationsSurvive(a, c, g + h)
  {
    hide AuthorKept;
    forall i | i in c.invitations {
      AuthorTwice(a.invitations[i].invitedBy, b.invitations[i].invitedBy, c.invitations[i].invitedBy, g, h);
    }
  }

  /** Memberships go with the org or the user; the leaver's were deleted by hand before. */
  lemma MembersOfLeaver(db: Db, teamless: Db, after: Db, user: nat)
    requires MembersSurvive(db, teamless) && MembersSurvive(LeaveAll(teamless, user), after)
    requires user !in after.users && forall u | u in after.users :: u in teamless.users
    requires forall o | o in after.orgs :: o in teamless.orgs
    ensures MembersSurvive(db, after)
  {
  }

  /** So do customers and subscriptions; the leaver's own customer was deleted by hand before. */
  lemma CustomersOfLeaver(db: Db, unpaid: Db, teamless: Db, after: Db, user: nat)
    requires unpaid.customers == db.customers - UserCustomers(db, {user})
    requires CustomersSurvive(unpaid, teamless) && CustomersSurvive(teamless, after)
    requires user !in after.users && forall u | u in after.users :: u in teamless.users
    requires forall o | o in after.orgs :: o in teamless.orgs
    ensures CustomersSurvive(db, after)
  {
    forall c | c in db.customers
      ensures c in after.customers <==>
                match db.customers[c] case UserOwner(u) => u in after.users case OrgOwner(o) => o in after.orgs
    {
      assert c in unpaid.customers <==> db.customers[c] != UserOwner(user);
    }
  }

  lemma SubsOfLeaver(db: Db, unpaid: Db, teamless: Db, after: Db, g: set<nat>, h: set<nat>)
    requires unpaid.subs == KeptSubs(db.subs, {}, db.customers.Keys - unpaid.customers.Keys)
    requires SubsResolve(db.subs, db.customers)
    requires SubsSurvive(unpaid, teamless, g) && SubsSurvive(teamless, after, h)
    requires forall c | c in after.customers :: c in teamless.customers && c in unpaid.customers
    ensures SubsSurvive(db, after, g + h)
  {
    forall s | s in db.subs
      ensures s in after.subs <==>
                && (db.subs[s].user.Some? ==> db.subs[s].user.value !in g + h)
                && (db.subs[s].customer.Some? ==> db.subs[s].customer.value in after.customers)
    {
      assert s in unpaid.subs <==>
        (db.subs[s].customer.Some? ==> db.subs[s].customer.value in unpaid.customers);
    }
  }

  lemma UnpaidTables(db: Db, user: nat)
    ensures var unpaid := DeleteCustomers(db, UserCustomers(db, {user}));
            && unpaid.users == db.users && unpaid.orgs == db.orgs && unpaid.members == db.members
            && unpaid.invitations == db.invitations && unpaid.customers == db.customers - UserCustomers(db, {user})
            && unpaid.subs == KeptSubs(db.subs, {}, db.customers.Keys - unpaid.customers.Keys)
  {
    NothingKept(db);
    var lost := UserCustomers(db, {user});
    assert db.customers.Keys - (db.customers - lost).Keys == lost;
  }

  /** The accounts an account deletion takes: the user's, and those of members of the user's teams alone. */
  function LeaversOf(db: Db, user: nat): set<nat> {
    var unpaid := DeleteCustomers(db, UserCustomers(db, {user}));
    Deletable(unpaid, CreatedBy(unpaid, user)) + {user}
  }

  /** After an account deletion. Which orgs go is said by `OrgsThatGo`. */
  lemma AccountDeletionLeaves(db: Db, user: nat)
    requires Valid(db) && user in db.users
    ensures Survivors(db, DeleteAccountStep(db, user).db, LeaversOf(db, user))
  {
    var lost := UserCustomers(db, {user});
    var unpaid := DeleteCustomers(db, lost);
    var batch := CreatedBy(unpaid, user);
    var dead := Deletable(unpaid, batch);
    var teamless := Cascade(unpaid, batch);
    var left := LeaveAll(teamless, user);
    var after := DeleteUsers(left, {user});
    UnpaidTables(db, user);
    ValidSubs(db);
    DeleteCustomersKeepsValid(db, lost);
    CascadeKeepsValid(unpaid, batch);
    LeaveAllKeepsValid(teamless, user);
    CascadeLeaves(unpaid, batch);
    UserDeletionLeaves(left, {user});
    hide Valid, SubsResolve, KeptSubs, DeleteCustomers, Cascade, DeleteUsers, Deletable, CreatedBy, UserCustomers,
         OrgsSurvive, MembersSurvive, InvitationsSurvive, CustomersSurvive, SubsSurvive, UsersSurvive;
    LeaverTables(db, unpaid, teamless, left, after, dead, user);
  }

  lemma ValidSubs(db: Db)
    requires Valid(db)
    ensures SubsResolve(db.subs, db.customers)
  {
  }

  lemma LeaverTables(db: Db, unpaid: Db, teamless: Db, left: Db, after: Db, dead: set<nat>, user: nat)
    requires SubsResolve(db.subs, db.customers)
    requires unpaid.users == db.users && unpaid.orgs == db.orgs && unpaid.members == db.members
    requires unpaid.invitations == db.invitations && unpaid.customers == db.customers - UserCustomers(db, {user})
    requires unpaid.subs == KeptSubs(db.subs, {}, db.customers.Keys - unpaid.customers.Keys)
    requires Survivors(unpaid, teamless, dead) && left == LeaveAll(teamless, user) && Survivors(left, after, {user})
    ensures Survivors(db, after, dead + {user})
  {
    SameTables(unpaid, teamless, left, after, db, dead, user);
    hide SubsResolve, KeptSubs, UserCustomers, LeaveAll, AuthorKept;
    Monotone(unpaid, teamless, dead);
    Monotone(left, after, {user});
    hide OrgsSurvive, MembersSurvive, InvitationsSurvive, CustomersSurvive, SubsSurvive, UsersSurvive;
    OrgsTwice(db, teamless, after, dead, {user});
    UsersTwice(db, teamless, after, dead, {user});
    InvitationsTwice(db, teamless, after, dead, {user});
    MembersOfLeaver(db, teamless, after, user);
    CustomersOfLeaver(db, unpaid, teamless, after, user);
    SubsOfLeaver(db, unpaid, teamless, after, dead, {user});
  }

  lemma Monotone(a: Db, b: Db, gone: set<nat>)
    requires Survivors(a, b, gone)
    ensures forall u | u in b.users :: u in a.users && u !in gone
    ensures forall o | o in b.orgs :: o in a.orgs
    ensures forall c | c in b.customers :: c in a.customers
  {
    hide MembersSurvive, InvitationsSurvive, SubsSurvive, AuthorKept;
  }

  // Each relation looks at its own table of the first database only.

  lemma SameOrgs(a: Db, b: Db, after: Db, gone: set<nat>)
    requires a.orgs == b.orgs && OrgsSurvive(a, after, gone)
    ensures OrgsSurvive(b, after, gone)
  {
    hide AuthorKept;
  }

  lemma SameUsers(a: Db, b: Db, after: Db, gone: set<nat>)
    requires a.users == b.users && UsersSurvive(a, after, gone)
    ensures UsersSurvive(b, after, gone)
  {
  }

  lemma SameInvitations(a: Db, b: Db, after: Db, gone: set<nat>)
    requires a.invitations == b.invitations && InvitationsSurvive(a, after, gone)
    ensures InvitationsSurvive(b, after, gone)
  {
    hide AuthorKept;
  }

  lemma SameMembers(a: Db, b: Db, after: Db)
    requires a.members == b.members && MembersSurvive(a, after)
    ensures MembersSurvive(b, after)
  {
  }

  lemma SameBilling(a: Db, b: Db, after: Db, gone: set<nat>)
    requires a.customers == b.customers && a.subs == b.subs && CustomersSurvive(a, after) && SubsSurvive(a, after, gone)
    ensures CustomersSurvive(b, after) && SubsSurvive(b, after, gone)
  {
  }

  lemma SameTables(unpaid: Db, teamless: Db, left: Db, after: Db, db: Db, dead: set<nat>, user: nat)
    requires unpaid.users == db.users && unpaid.orgs == db.orgs && unpaid.members == db.members
    requires unpaid.invitations == db.invitations
    requires Survivors(unpaid, teamless, dead) && left == LeaveAll(teamless, user) && Survivors(left, after, {user})
    ensures OrgsSurvive(db, teamless, dead) && UsersSurvive(db, teamless, dead) && MembersSurvive(db, teamless)
    ensures InvitationsSurvive(db, teamless, dead)
    ensures OrgsSurvive(teamless, after, {user}) && UsersSurvive(teamless, after, {user})
    ensures InvitationsSurvive(teamless, after, {user})
    ensures CustomersSurvive(teamless, after) && SubsSurvive(teamless, after, {user})
    ensures left.users == teamless.users && left.orgs == teamless.orgs && left.customers == teamless.customers
  {
    hide OrgsSurvive, MembersSurvive, InvitationsSurvive, CustomersSurvive, SubsSurvive, UsersSurvive;
    SameOrgs(unpaid, db, teamless, dead);
    SameUsers(unpaid, db, teamless, dead);
    SameInvitations(unpaid, db, teamless, dead);
    SameMembers(unpaid, db, teamless);
    SameOrgs(left, teamless, after, {user});
    SameUsers(left, teamless, after, {user});
    SameInvitations(left, teamless, after, {user});
    SameBilling(left, teamless, after, {user});
  }
}
