/** What every run of the organisation API keeps: the schema's constraints, and what the code adds to them. */
module OrgInvariants {
  import opened Options
  import opened OrgData
  import opened OrgCascade
  import opened OrgSteps
  import Slug

  predicate MembersResolve(members: map<(nat, nat), Membership>, orgs: set<nat>, users: set<nat>) {
    forall k | k in members :: k.0 in orgs && k.1 in users
  }

  /** An invitation belongs to an org, and never offers the owner role. */
  predicate InvitationsResolve(invitations: map<nat, Invitation>, orgs: set<nat>) {
    forall i | i in invitations :: invitations[i].org in orgs && invitations[i].role != Owner
  }

  predicate CustomersResolve(customers: map<string, CustomerOwner>, orgs: set<nat>, users: set<nat>) {
    forall c | c in customers ::
      match customers[c] case UserOwner(u) => u in users case OrgOwner(o) => o in orgs
  }

  /** A subscription's customer exists. That a subscription of an org's customer carries no user is no
      constraint of the schema: the mirror copies the user of the customer, and an org's customer has none. */
  predicate SubsResolve(subs: map<nat, Subscription>, customers: map<string, CustomerOwner>) {
    forall s | s in subs && subs[s].customer.Some? ::
      subs[s].customer.value in customers
      && (customers[subs[s].customer.value].OrgOwner? ==> subs[s].user == None)
  }

  /** Every key handed out so far is below `next`. */
  predicate KeysBelow(keys: set<nat>, next: nat) { forall k | k in keys :: k < next }

  /** The schema has one owned org per user and billing owners. One owner per org is not in the schema; the
      code keeps it, because only a checkout and a transfer make owners. */
  predicate OwnersOk(members: map<(nat, nat), Membership>) {
    && (forall k | k in members && members[k].role == Owner :: members[k].isBilling)
    && (forall k, j | k in members && j in members && members[k].role == Owner && members[j].role == Owner ::
          k.0 == j.0 <==> k.1 == j.1)
  }

  predicate SlugsUnique(orgs: map<nat, Org>) {
    forall o, p | o in orgs && p in orgs && o != p :: orgs[o].slug != orgs[p].slug
  }

  predicate EmailsUnique(users: map<nat, User>) {
    forall u, v | u in users && v in users && u != v :: !SameEmail(users[u].email, users[v].email)
  }

  predicate CustomersUnique(customers: map<string, CustomerOwner>) {
    forall c, d | c in customers && d in customers && c != d && customers[c].OrgOwner? ::
      customers[c] != customers[d]
  }

  predicate SamePending(i: Invitation, j: Invitation) {
    i.status == Pending && j.status == Pending && i.org == j.org && i.email == j.email
  }

  predicate PendingUnique(invitations: map<nat, Invitation>) {
    forall i, j | i in invitations && j in invitations && i != j :: !SamePending(invitations[i], invitations[j])
  }

  /** The schema's constraints (foreign keys, checks, unique indexes), and the two invariants of the code
      named above: one owner per org, and no user on the subscription of an org. */
  predicate Valid(db: Db) {
    && MembersResolve(db.members, db.orgs.Keys, db.users.Keys)
    && InvitationsResolve(db.invitations, db.orgs.Keys)
    && CustomersResolve(db.customers, db.orgs.Keys, db.users.Keys)
    && SubsResolve(db.subs, db.customers)
    && KeysBelow(db.users.Keys + db.orgs.Keys + db.invitations.Keys, db.next)
    && OwnersOk(db.members)
    && SlugsUnique(db.orgs)
    && EmailsUnique(db.users)
    && CustomersUnique(db.customers)
    && PendingUnique(db.invitations)
  }

  /** Deleting orgs and users keeps the constraints when the memberships of deleted users and orgs and
      their customers go along. */
  lemma PurgeKeepsValid(db: Db, batch: set<nat>, dead: set<nat>)
    requires Valid(db)
    ensures Valid(Purge(db, batch, dead, OrgCustomers(db, batch) + UserCustomers(db, dead)))
  {
    var lost := OrgCustomers(db, batch) + UserCustomers(db, dead);
    PurgeKeepsReferences(db, batch, dead);
    PurgeKeepsUnique(db, batch, dead, lost);
    hide MembersResolve, InvitationsResolve, CustomersResolve, SubsResolve, OwnersOk, SlugsUnique, EmailsUnique,
         CustomersUnique, PendingUnique;
  }

  lemma PurgeKeepsReferences(db: Db, batch: set<nat>, dead: set<nat>)
    requires MembersResolve(db.members, db.orgs.Keys, db.users.Keys) && InvitationsResolve(db.invitations, db.orgs.Keys)
    requires CustomersResolve(db.customers, db.orgs.Keys, db.users.Keys) && SubsResolve(db.subs, db.customers)
    ensures var after := Purge(db, batch, dead, OrgCustomers(db, batch) + UserCustomers(db, dead));
            && MembersResolve(after.members, after.orgs.Keys, after.users.Keys)
            && InvitationsResolve(after.invitations, after.orgs.Keys)
            && CustomersResolve(after.customers, after.orgs.Keys, after.users.Keys)
            && SubsResolve(after.subs, after.customers)
  {
  }

  lemma PurgeKeepsUnique(db: Db, batch: set<nat>, dead: set<nat>, lost: set<string>)
    requires OwnersOk(db.members) && SlugsUnique(db.orgs) && EmailsUnique(db.users)
    requires CustomersUnique(db.customers) && PendingUnique(db.invitations)
    ensures var after := Purge(db, batch, dead, lost);
            && OwnersOk(after.members) && SlugsUnique(after.orgs) && EmailsUnique(after.users)
            && CustomersUnique(after.customers) && PendingUnique(after.invitations)
            && after.users.Keys + after.orgs.Keys + after.invitations.Keys
               <= db.users.Keys + db.orgs.Keys + db.invitations.Keys
  {
    hide SameEmail;
  }

  lemma CascadeKeepsValid(db: Db, batch: set<nat>)
    requires Valid(db)
    ensures Valid(Cascade(db, batch))
  {
    PurgeKeepsValid(db, batch, Deletable(db, batch));
  }

  lemma DeleteUsersKeepsValid(db: Db, dead: set<nat>)
    requires Valid(db)
    ensures Valid(DeleteUsers(db, dead))
  {
    PurgeKeepsValid(db, {}, dead);
    assert OrgCustomers(db, {}) + UserCustomers(db, dead) == UserCustomers(db, dead);
  }

  lemma DeleteCustomersKeepsValid(db: Db, gone: set<string>)
    requires Valid(db)
    ensures Valid(DeleteCustomers(db, gone))
  {
    NothingKept(db);
    CustomersGone(db.customers, db.subs, db.orgs.Keys, db.users.Keys, gone);
    hide MembersResolve, InvitationsResolve, CustomersResolve, SubsResolve, OwnersOk, SlugsUnique, EmailsUnique,
         CustomersUnique, PendingUnique;
    assert db.users - {} == db.users;
  }

  lemma NothingKept(db: Db)
    ensures KeptOrgs(db.orgs, {}, {}) == db.orgs
    ensures KeptMembers(db.members, {}, {}) == db.members
    ensures KeptInvitations(db.invitations, {}, {}) == db.invitations
  {
  }

  lemma CustomersGone(customers: map<string, CustomerOwner>, subs: map<nat, Subscription>,
                      orgs: set<nat>, users: set<nat>, gone: set<string>)
    requires CustomersResolve(customers, orgs, users) && CustomersUnique(customers) && SubsResolve(subs, customers)
    ensures CustomersResolve(customers - gone, orgs, users) && CustomersUnique(customers - gone)
    ensures SubsResolve(KeptSubs(subs, {}, gone), customers - gone)
  {
  }

  lemma LeaveAllKeepsValid(db: Db, user: nat)
    requires Valid(db)
    ensures Valid(LeaveAll(db, user))
  {
  }

  /** Account deletion keeps the constraints, whatever it takes along. */
  lemma DeleteAccountKeepsValid(db: Db, user: nat)
    requires Valid(db)
    ensures Valid(DeleteAccountStep(db, user).db)
  {
    hide Valid, Cascade, DeleteUsers, DeleteCustomers, LeaveAll, CreatedBy;
    var unpaid := DeleteCustomers(db, UserCustomers(db, {user}));
    var teamless := Cascade(unpaid, CreatedBy(unpaid, user));
    DeleteCustomersKeepsValid(db, UserCustomers(db, {user}));
    CascadeKeepsValid(unpaid, CreatedBy(unpaid, user));
    LeaveAllKeepsValid(teamless, user);
    DeleteUsersKeepsValid(LeaveAll(teamless, user), {user});
  }

  // Table by table: what one insert or update needs to keep a constraint.

  lemma PutMemberResolves(members: map<(nat, nat), Membership>, orgs: set<nat>, users: set<nat>,
                          orgs': set<nat>, users': set<nat>, k: (nat, nat), row: Membership)
    requires MembersResolve(members, orgs, users) && orgs <= orgs' && users <= users'
    requires k.0 in orgs' && k.1 in users'
    ensures MembersResolve(members[k := row], orgs', users')
  {
  }

  lemma PutOwnerOk(members: map<(nat, nat), Membership>, k: (nat, nat))
    requires OwnersOk(members)
    requires forall j | j in members && members[j].role == Owner :: j.0 != k.0 && j.1 != k.1
    ensures OwnersOk(members[k := Membership(Owner, true)])
  {
  }

  lemma PutNonOwnerOk(members: map<(nat, nat), Membership>, k: (nat, nat), row: Membership)
    requires OwnersOk(members) && row.role != Owner
    ensures OwnersOk(members[k := row])
  {
  }

  lemma AttachCustomer(customers: map<string, CustomerOwner>, subs: map<nat, Subscription>,
                       orgs: set<nat>, users: set<nat>, c: string, org: nat)
    requires CustomersResolve(customers, orgs, users) && CustomersUnique(customers) && SubsResolve(subs, customers)
    requires c !in customers && org !in orgs
    ensures CustomersResolve(customers[c := OrgOwner(org)], orgs + {org}, users)
    ensures CustomersUnique(customers[c := OrgOwner(org)])
    ensures SubsResolve(subs, customers[c := OrgOwner(org)])
  {
  }

  lemma AddSlug(orgs: map<nat, Org>, o: nat, org: Org)
    requires SlugsUnique(orgs) && forall p | p in orgs :: orgs[p].slug != org.slug
    ensures SlugsUnique(orgs[o := org])
  {
  }

  lemma AddEmail(users: map<nat, User>, u: nat, email: string)
    requires EmailsUnique(users) && forall v | v in users :: !SameEmail(users[v].email, email)
    ensures EmailsUnique(users[u := User(NormalizeEmail(email))])
  {
    NormalizeKeepsIdentity(email);
  }

  lemma OrgsGrow(invitations: map<nat, Invitation>, customers: map<string, CustomerOwner>,
                 orgs: set<nat>, users: set<nat>, o: nat)
    requires InvitationsResolve(invitations, orgs) && CustomersResolve(customers, orgs, users)
    ensures InvitationsResolve(invitations, orgs + {o}) && CustomersResolve(customers, orgs + {o}, users)
  {
  }

  lemma AddOrgKeepsValid(db: Db, user: nat, org: Org, customer: Option<string>)
    requires Valid(db) && user in db.users
    requires forall o | o in db.orgs :: db.orgs[o].slug != org.slug
    requires forall k | k in db.members && k.1 == user :: db.members[k].role != Owner
    requires customer.Some? ==> customer.value !in db.customers
    ensures Valid(db.(next := db.next + 1,
                      orgs := db.orgs[db.next := org],
                      members := db.members[(db.next, user) := Membership(Owner, true)],
                      customers := if customer.Some? then db.customers[customer.value := OrgOwner(db.next)]
                                   else db.customers))
  {
    var orgs := db.orgs[db.next := org];
    assert orgs.Keys == db.orgs.Keys + {db.next};
    KeysGrow(db.users.Keys + db.orgs.Keys + db.invitations.Keys, db.next);
    assert db.users.Keys + orgs.Keys + db.invitations.Keys
        == db.users.Keys + db.orgs.Keys + db.invitations.Keys + {db.next};
    OrgsGrow(db.invitations, db.customers, db.orgs.Keys, db.users.Keys, db.next);
    hide InvitationsResolve, CustomersResolve, SubsResolve, SlugsUnique, EmailsUnique, CustomersUnique, PendingUnique,
         KeysBelow;
    PutMemberResolves(db.members, db.orgs.Keys, db.users.Keys, orgs.Keys, db.users.Keys,
                      (db.next, user), Membership(Owner, true));
    PutOwnerOk(db.members, (db.next, user));
    AddSlug(db.orgs, db.next, org);
    if customer.Some? {
      AttachCustomer(db.customers, db.subs, db.orgs.Keys, db.users.Keys, customer.value, db.next);
    }
  }

  lemma CheckoutKeepsValid(db: Db, user: nat, name: string, customer: Option<string>)
    requires Valid(db)
    ensures Valid(TeamCheckoutStep(db, user, name, customer).db)
  {
    var after := TeamCheckoutStep(db, user, name, customer).db;
    if after != db {
      var org := after.orgs[db.next];
      Slug.UniqueSlugChosen(Slug.Base(name), Slugs(db));
      forall o | o in db.orgs ensures db.orgs[o].slug != org.slug {
        assert db.orgs[o].slug in Slugs(db);
      }
      AddOrgKeepsValid(db, user, org, customer);
    }
  }

  lemma AddInvitationKeepsValid(db: Db, row: Invitation)
    requires Valid(db)
    requires row.org in db.orgs && row.role != Owner
    requires forall i | i in db.invitations :: !SamePending(db.invitations[i], row)
    ensures Valid(db.(next := db.next + 1, invitations := db.invitations[db.next := row]))
  {
  }

  lemma InviteIsNew(db: Db, caller: nat, org: nat, email: string, role: Role, now: int)
    requires MembersResolve(db.members, db.orgs.Keys, db.users.Keys)
    requires InviteStep(db, caller, org, email, role, now).db != db
    ensures var after := InviteStep(db, caller, org, email, role, now).db;
            db.next in after.invitations && org in db.orgs
            && after == db.(next := db.next + 1, invitations := db.invitations[db.next := after.invitations[db.next]])
            && after.invitations[db.next].org == org && after.invitations[db.next].role != Owner
            && forall i | i in db.invitations :: !SamePending(db.invitations[i], after.invitations[db.next])
  {
    hide SeatLimit, EmailRegistered, MembersOf;
    assert (org, caller) in db.members;
    forall i | i in db.invitations && db.invitations[i].status == Pending && db.invitations[i].org == org
      ensures db.invitations[i].email != email
    {
      assert i in PendingOf(db, org);
    }
  }

  lemma InviteKeepsValid(db: Db, caller: nat, org: nat, email: string, role: Role, now: int)
    requires Valid(db)
    ensures Valid(InviteStep(db, caller, org, email, role, now).db)
  {
    var after := InviteStep(db, caller, org, email, role, now).db;
    if after != db {
      InviteIsNew(db, caller, org, email, role, now);
      hide Valid, InviteStep;
      AddInvitationKeepsValid(db, after.invitations[db.next]);
    }
  }

  lemma SetStatusKeepsValid(db: Db, invitation: nat, status: InvitationStatus)
    requires Valid(db) && invitation in db.invitations && status != Pending
    ensures Valid(SetStatus(db, invitation, status))
  {
  }

  lemma AdmitKeepsValid(db: Db, i: nat)
    requires Valid(db) && i in db.invitations && !EmailRegistered(db, db.invitations[i].email)
    ensures Valid(Admit(db, db.invitations[i]))
  {
    AdmitRowKeepsValid(db, db.invitations[i]);
  }

  lemma KeysGrow(keys: set<nat>, next: nat)
    requires KeysBelow(keys, next)
    ensures KeysBelow(keys + {next}, next + 1)
  {
  }

  lemma NotRegistered(db: Db, email: string)
    requires !EmailRegistered(db, email)
    ensures forall u | u in db.users :: !SameEmail(db.users[u].email, email)
  {
  }

  lemma UsersGrow(customers: map<string, CustomerOwner>, orgs: set<nat>, users: set<nat>, u: nat)
    requires CustomersResolve(customers, orgs, users)
    ensures CustomersResolve(customers, orgs, users + {u})
  {
  }

  lemma AdmitRowKeepsValid(db: Db, inv: Invitation)
    requires Valid(db) && inv.org in db.orgs && inv.role != Owner && !EmailRegistered(db, inv.email)
    ensures Valid(Admit(db, inv))
  {
    var users := db.users[db.next := User(NormalizeEmail(inv.email))];
    assert users.Keys == db.users.Keys + {db.next};
    NotRegistered(db, inv.email);
    UsersGrow(db.customers, db.orgs.Keys, db.users.Keys, db.next);
    KeysGrow(db.users.Keys + db.orgs.Keys + db.invitations.Keys, db.next);
    assert users.Keys + db.orgs.Keys + db.invitations.Keys
        == db.users.Keys + db.orgs.Keys + db.invitations.Keys + {db.next};
    hide MembersResolve, InvitationsResolve, CustomersResolve, SubsResolve, OwnersOk, SlugsUnique, EmailsUnique,
         CustomersUnique, PendingUnique, NormalizeEmail, SameEmail, EmailRegistered, KeysBelow;
    AddEmail(db.users, db.next, inv.email);
    PutMemberResolves(db.members, db.orgs.Keys, db.users.Keys, db.orgs.Keys, users.Keys,
                      (inv.org, db.next), Membership(inv.role, false));
    PutNonOwnerOk(db.members, (inv.org, db.next), Membership(inv.role, false));
  }

  lemma AcceptKeepsValid(db: Db, invitation: nat, now: int)
    requires Valid(db)
    ensures Valid(AcceptStep(db, invitation, now).db)
  {
    hide Valid;
    if invitation in db.invitations {
      SetStatusKeepsValid(db, invitation, Expired);
      SetStatusKeepsValid(db, invitation, Accepted);
      if !EmailRegistered(db, db.invitations[invitation].email) {
        AdmitKeepsValid(SetStatus(db, invitation, Accepted), invitation);
      }
    }
  }

  lemma SetMemberKeepsValid(db: Db, k: (nat, nat), row: Membership)
    requires Valid(db) && k in db.members && row.role != Owner
    ensures Valid(db.(members := db.members[k := row]))
  {
    PutMemberResolves(db.members, db.orgs.Keys, db.users.Keys, db.orgs.Keys, db.users.Keys, k, row);
    PutNonOwnerOk(db.members, k, row);
  }

  lemma TransferOwnersOk(members: map<(nat, nat), Membership>, org: nat, from: nat, to: nat)
    requires OwnersOk(members) && (org, from) in members && members[(org, from)].role == Owner && from != to
    requires forall k | k in members && k.1 == to :: members[k].role != Owner
    ensures OwnersOk(members[(org, to) := Membership(Owner, true)][(org, from) := Membership(Admin, false)])
  {
  }

  lemma TransferKeepsValid(db: Db, org: nat, from: nat, to: nat)
    requires Valid(db) && IsOwner(db, org, from) && (org, to) in db.members && !OwnsAnOrg(db, to)
    ensures Valid(db.(members := db.members[(org, to) := Membership(Owner, true)]
                                           [(org, from) := Membership(Admin, false)]))
  {
    TransferOwnersOk(db.members, org, from, to);
    var promoted := db.members[(org, to) := Membership(Owner, true)];
    PutMemberResolves(db.members, db.orgs.Keys, db.users.Keys, db.orgs.Keys, db.users.Keys,
                      (org, to), Membership(Owner, true));
    PutMemberResolves(promoted, db.orgs.Keys, db.users.Keys, db.orgs.Keys, db.users.Keys,
                      (org, from), Membership(Admin, false));
  }

  lemma ResizeKeepsValid(db: Db, sub: nat, seats: int)
    requires Valid(db) && sub in db.subs
    ensures Valid(db.(subs := db.subs[sub := db.subs[sub].(seatLimit := seats)]))
  {
  }

  lemma MemberStepKeepsValid(db: Db, step: Step)
    requires Valid(db)
    requires step.PatchMember? || step.RemoveMember? || step.TransferOwnership?
    ensures Valid(Apply(db, step).db)
  {
    hide Valid;
    var after := Apply(db, step).db;
    match step
    case PatchMember(_, org, target, _, _) =>
      if after != db { SetMemberKeepsValid(db, (org, target), after.members[(org, target)]); }
    case RemoveMember(_, _, target) => DeleteUsersKeepsValid(db, {target});
    case TransferOwnership(caller, org, target) =>
      if after != db { TransferKeepsValid(db, org, caller, target); }
  }

  lemma InvitationStepKeepsValid(db: Db, step: Step)
    requires Valid(db)
    requires step.Invite? || step.Accept? || step.CancelInvitation? || step.Decline?
    ensures Valid(Apply(db, step).db)
  {
    hide Valid;
    match step
    case Invite(caller, org, email, role, now) => InviteKeepsValid(db, caller, org, email, role, now);
    case Accept(invitation, now) => AcceptKeepsValid(db, invitation, now);
    case CancelInvitation(_, _, i) => if i in db.invitations { SetStatusKeepsValid(db, i, Cancelled); }
    case Decline(_, i) => if i in db.invitations { SetStatusKeepsValid(db, i, Declined); }
  }

  lemma OrgStepKeepsValid(db: Db, step: Step)
    requires Valid(db)
    requires step.TeamCheckout? || step.DeleteOrg? || step.SubscriptionCanceled? || step.ResizeSeats?
             || step.DeleteAccount?
    ensures Valid(Apply(db, step).db)
  {
    hide Valid;
    match step
    case TeamCheckout(user, name, customer) => CheckoutKeepsValid(db, user, name, customer);
    case DeleteOrg(_, org) => CascadeKeepsValid(db, {org});
    case SubscriptionCanceled(org) => CascadeKeepsValid(db, {org});
    case ResizeSeats(_, _, sub, seats) => if sub in db.subs { ResizeKeepsValid(db, sub, seats); }
    case DeleteAccount(user) => DeleteAccountKeepsValid(db, user);
  }

  /** Every step keeps every constraint. */
  lemma StepKeepsValid(db: Db, step: Step)
    requires Valid(db)
    ensures Valid(Apply(db, step).db)
  {
    hide Valid;
    if step.PatchMember? || step.RemoveMember? || step.TransferOwnership? {
      MemberStepKeepsValid(db, step);
    } else if step.Invite? || step.Accept? || step.CancelInvitation? || step.Decline? {
      InvitationStepKeepsValid(db, step);
    } else {
      OrgStepKeepsValid(db, step);
    }
  }

  /** Every run keeps every constraint. */
  lemma {:induction false} RunKeepsValid(db: Db, steps: seq<Step>)
    requires Valid(db)
    ensures Valid(Run(db, steps))
    decreases steps
  {
    if steps != [] {
      StepKeepsValid(db, steps[0]);
      RunKeepsValid(Apply(db, steps[0]).db, steps[1..]);
    }
  }
}
