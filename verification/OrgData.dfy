/** The tables behind organisations, memberships, invitations and their billing rows.

    Every table is a map from primary key to row. `next` hands out primary keys, so a
    key is never used twice. Stripe customers are keyed by their unique Stripe id. */
module OrgData {
  import opened Options

  datatype Role = Owner | Admin | Member

  /** ORG_ROLE_RANK. */
  function Rank(r: Role): nat {
    match r
    case Owner => 3
    case Admin => 2
    case Member => 1
  }

  datatype InvitationStatus = Pending | Accepted | Expired | Cancelled | Declined

  datatype SubscriptionStatus =
    | Active | Trialing | PastDue | Canceled | Incomplete | IncompleteExpired | Paused | Unpaid

  /** ACTIVE_SUBSCRIPTION_STATUSES. */
  predicate IsActive(s: SubscriptionStatus) { s in {Active, Trialing, PastDue} }

  datatype User = User(email: string)
  datatype Org = Org(slug: string, createdBy: Option<nat>)
  datatype Membership = Membership(role: Role, isBilling: bool)
  datatype Invitation = Invitation(
    org: nat, email: string, role: Role, status: InvitationStatus, invitedBy: Option<nat>, expiresAt: int)

  /** A Stripe customer belongs to a user or to an org, never to both (`stripecustomer_has_owner`). */
  datatype CustomerOwner = UserOwner(user: nat) | OrgOwner(org: nat)

  datatype Subscription = Subscription(
    stripeId: Option<string>, customer: Option<string>, user: Option<nat>,
    status: SubscriptionStatus, seatLimit: int, createdAt: int)

  datatype Db = Db(
    next: nat,
    users: map<nat, User>,
    orgs: map<nat, Org>,
    members: map<(nat, nat), Membership>,
    invitations: map<nat, Invitation>,
    customers: map<string, CustomerOwner>,
    subs: map<nat, Subscription>)

  /** `on_delete=SET_NULL` for a foreign key to a user. */
  function Forget(fk: Option<nat>, gone: set<nat>): Option<nat> {
    if fk.Some? && fk.value in gone then None else fk
  }

  predicate OwnedByUser(o: CustomerOwner, users: set<nat>) { o.UserOwner? && o.user in users }

  predicate OwnedByOrg(o: CustomerOwner, orgs: set<nat>) { o.OrgOwner? && o.org in orgs }

  /** The foreign key `fk` points at a row of `table` whose value satisfies the deletion `gone`. */
  predicate PointsInto(fk: Option<string>, gone: set<string>) { fk.Some? && fk.value in gone }

  function UserCustomers(db: Db, gone: set<nat>): set<string> {
    set c | c in db.customers && OwnedByUser(db.customers[c], gone)
  }

  function OrgCustomers(db: Db, gone: set<nat>): set<string> {
    set c | c in db.customers && OwnedByOrg(db.customers[c], gone)
  }

  function KeptOrgs(orgs: map<nat, Org>, batch: set<nat>, dead: set<nat>): map<nat, Org> {
    map o | o in orgs && o !in batch :: orgs[o].(createdBy := Forget(orgs[o].createdBy, dead))
  }

  function KeptInvitations(invitations: map<nat, Invitation>, batch: set<nat>, dead: set<nat>): map<nat, Invitation> {
    map i | i in invitations && invitations[i].org !in batch ::
      invitations[i].(invitedBy := Forget(invitations[i].invitedBy, dead))
  }

  predicate KeepsSub(s: Subscription, dead: set<nat>, lost: set<string>) {
    !(s.user.Some? && s.user.value in dead) && !PointsInto(s.customer, lost)
  }

  function KeptSubs(subs: map<nat, Subscription>, dead: set<nat>, lost: set<string>): map<nat, Subscription> {
    map s | s in subs && KeepsSub(subs[s], dead, lost) :: subs[s]
  }

  function KeptMembers(members: map<(nat, nat), Membership>, batch: set<nat>, dead: set<nat>)
    : map<(nat, nat), Membership>
  {
    map k | k in members && k.0 !in batch && k.1 !in dead :: members[k]
  }

  /** The rows left when the orgs `batch`, the users `dead` and the customers `lost` are gone, with the
      foreign-key actions of the schema: memberships, invitations and subscriptions cascade, while
      authorship (`created_by`, `invited_by`) is set to NULL. */
  function Purge(db: Db, batch: set<nat>, dead: set<nat>, lost: set<string>): Db {
    Db(db.next, db.users - dead, KeptOrgs(db.orgs, batch, dead), KeptMembers(db.members, batch, dead),
       KeptInvitations(db.invitations, batch, dead), db.customers - lost, KeptSubs(db.subs, dead, lost))
  }

  /** `User.objects.filter(id__in=gone).delete()`. */
  function DeleteUsers(db: Db, gone: set<nat>): Db {
    Purge(db, {}, gone, UserCustomers(db, gone))
  }

  /** `Org.objects.filter(id__in=gone).delete()`. */
  function DeleteOrgs(db: Db, gone: set<nat>): Db {
    Purge(db, gone, {}, OrgCustomers(db, gone))
  }

  lemma KeptOrgsCompose(orgs: map<nat, Org>, a: set<nat>, dead: set<nat>, b: set<nat>, dead': set<nat>)
    ensures KeptOrgs(KeptOrgs(orgs, a, dead), b, dead') == KeptOrgs(orgs, a + b, dead + dead')
  {
  }

  lemma KeptInvitationsCompose(invitations: map<nat, Invitation>, a: set<nat>, dead: set<nat>,
                               b: set<nat>, dead': set<nat>)
    ensures KeptInvitations(KeptInvitations(invitations, a, dead), b, dead')
         == KeptInvitations(invitations, a + b, dead + dead')
  {
  }

  lemma KeptSubsCompose(subs: map<nat, Subscription>, dead: set<nat>, lost: set<string>,
                        dead': set<nat>, lost': set<string>)
    ensures KeptSubs(KeptSubs(subs, dead, lost), dead', lost') == KeptSubs(subs, dead + dead', lost + lost')
  {
    forall s | s in subs
      ensures KeepsSub(subs[s], dead + dead', lost + lost')
          <==> KeepsSub(subs[s], dead, lost) && KeepsSub(subs[s], dead', lost')
    {
    }
  }

  lemma KeptMembersCompose(members: map<(nat, nat), Membership>, a: set<nat>, dead: set<nat>,
                           b: set<nat>, dead': set<nat>)
    ensures KeptMembers(KeptMembers(members, a, dead), b, dead') == KeptMembers(members, a + b, dead + dead')
  {
  }

  lemma PurgeCompose(db: Db, a: set<nat>, dead: set<nat>, lost: set<string>,
                     b: set<nat>, dead': set<nat>, lost': set<string>)
    ensures Purge(Purge(db, a, dead, lost), b, dead', lost') == Purge(db, a + b, dead + dead', lost + lost')
  {
    KeptOrgsCompose(db.orgs, a, dead, b, dead');
    KeptInvitationsCompose(db.invitations, a, dead, b, dead');
    KeptSubsCompose(db.subs, dead, lost, dead', lost');
    KeptMembersCompose(db.members, a, dead, b, dead');
    assert db.users - dead - dead' == db.users - (dead + dead');
    assert db.customers - lost - lost' == db.customers - (lost + lost');
  }

  /** `_personal_subs_outer_ref_qs`: an active subscription of `u` on `u`'s own Stripe customer. */
  predicate IsPersonalSub(db: Db, s: Subscription, u: nat) {
    s.user == Some(u) && IsActive(s.status)
    && s.customer.Some? && s.customer.value in db.customers
    && db.customers[s.customer.value] == UserOwner(u)
  }

  predicate HasPersonalSub(db: Db, u: nat) {
    exists s :: s in db.subs && IsPersonalSub(db, db.subs[s], u)
  }
}
