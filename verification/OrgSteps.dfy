/** What each request of the organisation API does to the tables, as one atomic step. */
module OrgSteps {
  import opened Options
  import opened OrgData
  import opened OrgCascade
  import Slug
  import Text

  datatype Error =
    | OrgNotFound | Forbidden | NotFound | InvalidInput | EmailExists | InvitationPending
    | InvitationExpired | SeatLimitReached | SeatsBelowMembers | IntegrityError

  datatype Outcome = Done | Joined(org: nat, member: Membership) | Refused(error: Error)

  datatype Result = Result(db: Db, outcome: Outcome)

  datatype Step =
    | TeamCheckout(user: nat, name: string, customer: Option<string>)
    | Invite(caller: nat, org: nat, email: string, role: Role, now: int)
    | Accept(invitation: nat, now: int)
    | CancelInvitation(caller: nat, org: nat, invitation: nat)
    | Decline(caller: nat, invitation: nat)
    | PatchMember(caller: nat, org: nat, target: nat, newRole: Option<Role>, billing: Option<bool>)
    | RemoveMember(caller: nat, org: nat, target: nat)
    | TransferOwnership(caller: nat, org: nat, target: nat)
    | DeleteOrg(caller: nat, org: nat)
    | SubscriptionCanceled(org: nat)
    | ResizeSeats(caller: nat, org: nat, sub: nat, seats: int)
    | DeleteAccount(user: nat)

  /** INVITATION_EXPIRY_DAYS, in seconds. */
  const INVITATION_LIFETIME := 7 * 24 * 3600

  // ------------------------------------------------------------------ queries

  function MembersOf(db: Db, org: nat): set<(nat, nat)> { set k | k in db.members && k.0 == org }

  function PendingOf(db: Db, org: nat): set<nat> {
    set i | i in db.invitations && db.invitations[i].org == org && db.invitations[i].status == Pending
  }

  predicate IsTeamSub(db: Db, s: Subscription, org: nat) {
    IsActive(s.status) && s.customer.Some? && s.customer.value in db.customers
    && db.customers[s.customer.value] == OrgOwner(org)
  }

  function TeamSubs(db: Db, org: nat): set<nat> { set s | s in db.subs && IsTeamSub(db, db.subs[s], org) }

  /** `.first()`: the row with the least primary key. */
  function First(ids: set<nat>): (first: Option<nat>)
    ensures first == None <==> ids == {}
    ensures first.Some? ==> first.value in ids && forall i | i in ids :: first.value <= i
  {
    if ids == {} then None
    else
      assert exists m :: m in ids && forall i | i in ids :: m <= i by {
        var some :| some in ids;
        LeastExists(ids, some);
      }
      var m :| m in ids && forall i | i in ids :: m <= i;
      Some(m)
  }

  lemma {:induction false} LeastExists(ids: set<nat>, from: nat)
    requires from in ids
    ensures exists m :: m in ids && forall i | i in ids :: m <= i
    decreases from
  {
    if i :| i in ids && i < from {
      LeastExists(ids, i);
    } else {
      assert forall i | i in ids :: from <= i;
    }
  }

  lemma {:induction false} SubsetSize<T>(a: set<T>, b: set<T>)
    requires a <= b
    ensures |a| <= |b|
  {
    if a != {} {
      var x :| x in a;
      SubsetSize(a - {x}, b - {x});
    }
  }

  /** `lock_active_team_sub`: the seat limit that binds `org`, if a team subscription is active. */
  function SeatLimit(db: Db, org: nat): Option<int> {
    var sub := First(TeamSubs(db, org));
    if sub.Some? then Some(db.subs[sub.value].seatLimit) else None
  }

  predicate SameEmail(a: string, b: string) { Text.Lower(a) == Text.Lower(b) }

  /** `email_is_registered`. */
  predicate EmailRegistered(db: Db, email: string) {
    exists u :: u in db.users && SameEmail(db.users[u].email, email)
  }

  predicate HasPending(db: Db, org: nat, email: string) {
    exists i :: i in PendingOf(db, org) && db.invitations[i].email == email
  }

  predicate IsOwner(db: Db, org: nat, user: nat) {
    (org, user) in db.members && db.members[(org, user)].role == Owner
  }

  predicate OwnsAnOrg(db: Db, user: nat) {
    exists k :: k in db.members && k.1 == user && db.members[k].role == Owner
  }

  function Slugs(db: Db): set<string> { set o | o in db.orgs :: db.orgs[o].slug }

  function NewSlug(db: Db, name: string): string { Slug.UniqueSlug(Slug.Base(name), Slugs(db)) }

  /** `_get_org_and_member`: the reason to refuse `caller`, if any. */
  function Denied(db: Db, caller: nat, org: nat, allowed: set<Role>): Option<Error> {
    if (org, caller) !in db.members then Some(if org in db.orgs then Forbidden else OrgNotFound)
    else if db.members[(org, caller)].role !in allowed then Some(Forbidden)
    else None
  }

  const ADMIN_OR_ABOVE: set<Role> := {Owner, Admin}
  const OWNER_ONLY: set<Role> := {Owner}

  /** `check_can_manage_member` and `check_can_assign_role`: strictly below the caller. */
  predicate Outranks(caller: Role, other: Role) { Rank(other) < Rank(caller) }

  /** `normalize_email`: the domain, after the last at-sign, in lower case. */
  function NormalizeEmail(email: string): string {
    var at := LastAt(email);
    email[..at] + Text.Lower(email[at..])
  }

  function LastAt(s: string): (at: nat)
    ensures at <= |s|
  {
    if s == "" || '@' !in s then |s|
    else if s[|s| - 1] == '@' then |s| - 1
    else LastAt(s[..|s| - 1])
  }

  lemma NormalizeKeepsIdentity(email: string)
    ensures SameEmail(NormalizeEmail(email), email)
  {
    var at := LastAt(email);
    Text.LowerAppend(email[..at], Text.Lower(email[at..]));
    Text.LowerAppend(email[..at], email[at..]);
    Text.LowerTwice(email[at..]);
    assert email[..at] + email[at..] == email;
  }

  // ------------------------------------------------------------------ steps

  function Refuse(db: Db, e: Error): Result { Result(db, Refused(e)) }

  /** The org a Stripe customer already belongs to, when `user` is still a member of it. */
  predicate AlreadyAttached(db: Db, user: nat, customer: Option<string>) {
    customer.Some? && customer.value in db.customers && db.customers[customer.value].OrgOwner?
    && db.customers[customer.value].org in db.orgs
    && (db.customers[customer.value].org, user) in db.members
  }

  /** `_create_org_with_owner`: replay short-circuit, else three inserts that all commit or none. */
  function TeamCheckoutStep(db: Db, user: nat, name: string, customer: Option<string>): Result {
    if user !in db.users then Refuse(db, NotFound)
    else if AlreadyAttached(db, user, customer) then
      var org := db.customers[customer.value].org;
      Result(db, Joined(org, db.members[(org, user)]))
    else if OwnsAnOrg(db, user) || (customer.Some? && customer.value in db.customers) then
      Refuse(db, IntegrityError)
    else
      var owner := Membership(Owner, true);
      Result(db.(next := db.next + 1,
                 orgs := db.orgs[db.next := Org(NewSlug(db, name), Some(user))],
                 members := db.members[(db.next, user) := owner],
                 customers := if customer.Some? then db.customers[customer.value := OrgOwner(db.next)]
                              else db.customers),
             Joined(db.next, owner))
  }

  function InviteStep(db: Db, caller: nat, org: nat, email: string, role: Role, now: int): Result {
    var denied := Denied(db, caller, org, ADMIN_OR_ABOVE);
    if denied.Some? then Refuse(db, denied.value)
    else if role == Owner then Refuse(db, InvalidInput)
    else if EmailRegistered(db, email) then Refuse(db, EmailExists)
    else if HasPending(db, org, email) then Refuse(db, InvitationPending)
    else
      var limit := SeatLimit(db, org);
      if limit.Some? && |MembersOf(db, org)| + |PendingOf(db, org)| >= limit.value then
        Refuse(db, SeatLimitReached)
      else
        var row := Invitation(org, email, role, Pending, Some(caller), now + INVITATION_LIFETIME);
        Result(db.(next := db.next + 1, invitations := db.invitations[db.next := row]), Done)
  }

  function SetStatus(db: Db, invitation: nat, status: InvitationStatus): Db
    requires invitation in db.invitations
  {
    db.(invitations := db.invitations[invitation := db.invitations[invitation].(status := status)])
  }

  /** A new account for the invitee, with the membership the invitation offers. */
  function Admit(db: Db, inv: Invitation): Db {
    db.(next := db.next + 1,
        users := db.users[db.next := User(NormalizeEmail(inv.email))],
        members := db.members[(inv.org, db.next) := Membership(inv.role, false)])
  }

  function AcceptStep(db: Db, invitation: nat, now: int): Result {
    if invitation !in db.invitations || db.invitations[invitation].status != Pending then Refuse(db, NotFound)
    else
      var inv := db.invitations[invitation];
      if inv.expiresAt < now then Refuse(SetStatus(db, invitation, Expired), InvitationExpired)
      else if EmailRegistered(db, inv.email) then Refuse(db, EmailExists)
      else
        var limit := SeatLimit(db, inv.org);
        if limit.Some? && |MembersOf(db, inv.org)| + 1 > limit.value then Refuse(db, SeatLimitReached)
        else
          Result(Admit(SetStatus(db, invitation, Accepted), inv), Joined(inv.org, Membership(inv.role, false)))
  }

  function CancelInvitationStep(db: Db, caller: nat, org: nat, invitation: nat): Result {
    var denied := Denied(db, caller, org, ADMIN_OR_ABOVE);
    if denied.Some? then Refuse(db, denied.value)
    else if invitation !in PendingOf(db, org) then Refuse(db, NotFound)
    else Result(SetStatus(db, invitation, Cancelled), Done)
  }

  function DeclineStep(db: Db, caller: nat, invitation: nat): Result {
    if caller !in db.users then Refuse(db, Forbidden)
    else if invitation !in db.invitations || db.invitations[invitation].status != Pending then Refuse(db, NotFound)
    else if !SameEmail(db.users[caller].email, db.invitations[invitation].email) then Refuse(db, Forbidden)
    else Result(SetStatus(db, invitation, Declined), Done)
  }

  function PatchMemberStep(db: Db, caller: nat, org: nat, target: nat,
                           newRole: Option<Role>, billing: Option<bool>): Result {
    var denied := Denied(db, caller, org, ADMIN_OR_ABOVE);
    if denied.Some? then Refuse(db, denied.value)
    else if (org, target) !in db.members then Refuse(db, NotFound)
    else
      var callerRole, row := db.members[(org, caller)].role, db.members[(org, target)];
      if !Outranks(callerRole, row.role) then Refuse(db, Forbidden)
      else if newRole == Some(Owner) then Refuse(db, InvalidInput)
      else if newRole.Some? && !Outranks(callerRole, newRole.value) then Refuse(db, Forbidden)
      else
        var patched := Membership(if newRole.Some? then newRole.value else row.role,
                                  if billing.Some? then billing.value else row.isBilling);
        Result(db.(members := db.members[(org, target) := patched]), Done)
  }

  function RemoveMemberStep(db: Db, caller: nat, org: nat, target: nat): Result {
    var denied := Denied(db, caller, org, ADMIN_OR_ABOVE);
    if denied.Some? then Refuse(db, denied.value)
    else if (org, target) !in db.members then Refuse(db, NotFound)
    else if db.members[(org, target)].role == Owner then Refuse(db, Forbidden)
    else if !Outranks(db.members[(org, caller)].role, db.members[(org, target)].role) then Refuse(db, Forbidden)
    else Result(DeleteUsers(db, {target}), Done)
  }

  function TransferOwnershipStep(db: Db, caller: nat, org: nat, target: nat): Result {
    var denied := Denied(db, caller, org, OWNER_ONLY);
    if denied.Some? then Refuse(db, denied.value)
    else if (org, target) !in db.members then Refuse(db, NotFound)
    else if db.members[(org, target)].role != Admin then Refuse(db, Forbidden)
    else if OwnsAnOrg(db, target) then Refuse(db, IntegrityError)
    else Result(db.(members := db.members[(org, target) := Membership(Owner, true)]
                                         [(org, caller) := Membership(Admin, false)]),
                Joined(org, Membership(Owner, true)))
  }

  function DeleteOrgStep(db: Db, caller: nat, org: nat): Result {
    var denied := Denied(db, caller, org, OWNER_ONLY);
    if denied.Some? then Refuse(db, denied.value) else Result(Cascade(db, {org}), Done)
  }

  /** `delete_org_on_subscription_cancel_task`: a missing org is a no-op. */
  function SubscriptionCanceledStep(db: Db, org: nat): Result {
    if org in db.orgs then Result(Cascade(db, {org}), Done) else Result(db, Done)
  }

  /** A seat-only change of one of the org's active team subscriptions. */
  function ResizeSeatsStep(db: Db, caller: nat, org: nat, sub: nat, seats: int): Result {
    if (org, caller) !in db.members || !db.members[(org, caller)].isBilling then Refuse(db, Forbidden)
    else if sub !in TeamSubs(db, org) then Refuse(db, NotFound)
    else if seats < 1 then Refuse(db, InvalidInput)
    else if seats < |MembersOf(db, org)| then Refuse(db, SeatsBelowMembers)
    else Result(db.(subs := db.subs[sub := db.subs[sub].(seatLimit := seats)]), Done)
  }

  /** `Org.objects.filter(created_by_id=user)`. */
  function CreatedBy(db: Db, user: nat): set<nat> { set o | o in db.orgs && db.orgs[o].createdBy == Some(user) }

  /** Deleting Stripe customers takes their subscriptions along. */
  function DeleteCustomers(db: Db, gone: set<string>): Db { Purge(db, {}, {}, gone) }

  function LeaveAll(db: Db, user: nat): Db {
    db.(members := map k | k in db.members && k.1 != user :: db.members[k])
  }

  /** The customer, then the orgs the user created, then the memberships, then the account. */
  function DeleteAccountStep(db: Db, user: nat): Result {
    if user !in db.users then Refuse(db, NotFound)
    else
      var unpaid := DeleteCustomers(db, UserCustomers(db, {user}));
      var teamless := Cascade(unpaid, CreatedBy(unpaid, user));
      Result(DeleteUsers(LeaveAll(teamless, user), {user}), Done)
  }

  function Apply(db: Db, step: Step): Result {
    match step
    case TeamCheckout(user, name, customer) => TeamCheckoutStep(db, user, name, customer)
    case Invite(caller, org, email, role, now) => InviteStep(db, caller, org, email, role, now)
    case Accept(invitation, now) => AcceptStep(db, invitation, now)
    case CancelInvitation(caller, org, invitation) => CancelInvitationStep(db, caller, org, invitation)
    case Decline(caller, invitation) => DeclineStep(db, caller, invitation)
    case PatchMember(caller, org, target, newRole, billing) =>
      PatchMemberStep(db, caller, org, target, newRole, billing)
    case RemoveMember(caller, org, target) => RemoveMemberStep(db, caller, org, target)
    case TransferOwnership(caller, org, target) => TransferOwnershipStep(db, caller, org, target)
    case DeleteOrg(caller, org) => DeleteOrgStep(db, caller, org)
    case SubscriptionCanceled(org) => SubscriptionCanceledStep(db, org)
    case ResizeSeats(caller, org, sub, seats) => ResizeSeatsStep(db, caller, org, sub, seats)
    case DeleteAccount(user) => DeleteAccountStep(db, user)
  }

  /** A run: the steps one after another, refused ones included. */
  function Run(db: Db, steps: seq<Step>): Db
    decreases steps
  {
    if steps == [] then db else Run(Apply(db, steps[0]).db, steps[1..])
  }
}
