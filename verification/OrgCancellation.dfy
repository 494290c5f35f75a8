/** Which Stripe subscriptions are cancelled when orgs are deleted. */
module OrgCancellation {
  import opened Options
  import opened OrgData
  import opened OrgCascade
  import opened OrgSteps
  import opened OrgInvariants

  predicate IsStripeSub(db: Db, s: Subscription, org: nat) { IsTeamSub(db, s, org) && s.stripeId.Some? }

  function StripeSubs(db: Db, org: nat): set<nat> { set s | s in db.subs && IsStripeSub(db, db.subs[s], org) }

  /** `ORDER BY created_at DESC`, rows of equal age by key. */
  predicate Newer(subs: map<nat, Subscription>, s: nat, t: nat)
    requires s in subs && t in subs
  {
    subs[s].createdAt > subs[t].createdAt || (subs[s].createdAt == subs[t].createdAt && s <= t)
  }

  predicate IsNewest(subs: map<nat, Subscription>, ids: set<nat>, s: nat) {
    s in ids && s in subs && forall t | t in ids && t in subs :: Newer(subs, s, t)
  }

  lemma {:induction false} NewestExists(subs: map<nat, Subscription>, ids: set<nat>)
    requires ids != {} && ids <= subs.Keys
    ensures exists s :: IsNewest(subs, ids, s)
    decreases |ids|
  {
    var x :| x in ids;
    var rest := ids - {x};
    var newest := x;
    if rest != {} {
      NewestExists(subs, rest);
      var s :| IsNewest(subs, rest, s);
      newest := if Newer(subs, s, x) then s else x;
    }
    forall t | t in ids ensures Newer(subs, newest, t) {
      if t != x { assert t in rest; }
    }
    assert IsNewest(subs, ids, newest);
  }

  /** `_get_active_stripe_sub`: the org's newest active subscription that Stripe knows. */
  function Newest(subs: map<nat, Subscription>, ids: set<nat>): (newest: Option<nat>)
    requires ids <= subs.Keys
    ensures newest == None <==> ids == {}
    ensures newest.Some? ==> IsNewest(subs, ids, newest.value)
  {
    if ids == {} then None
    else
      NewestExists(subs, ids);
      var s :| IsNewest(subs, ids, s);
      Some(s)
  }

  /** The Stripe id that deleting `org` cancels. */
  function Snapshot(db: Db, org: nat): seq<string> {
    var s := Newest(db.subs, StripeSubs(db, org));
    if s.Some? then [db.subs[s.value].stripeId.value] else []
  }

  /** The batched deletion: all ids are read before the first row goes. */
  function BatchedCancels(db: Db, orgs: seq<nat>): seq<string> {
    if orgs == [] then [] else Snapshot(db, orgs[0]) + BatchedCancels(db, orgs[1..])
  }

  /** Org by org: each id is read just before that org goes. */
  function SequentialCancels(db: Db, orgs: seq<nat>): seq<string>
    decreases orgs
  {
    if orgs == [] then [] else Snapshot(db, orgs[0]) + SequentialCancels(Cascade(db, {orgs[0]}), orgs[1..])
  }

  lemma CascadeKeepsSnapshot(db: Db, batch: set<nat>, org: nat)
    requires SubsResolve(db.subs, db.customers) && org !in batch
    ensures Snapshot(Cascade(db, batch), org) == Snapshot(db, org)
  {
    var after := Cascade(db, batch);
    var dead, lost := Deletable(db, batch), LostCustomers(db, batch);
    forall s | s in db.subs && IsStripeSub(db, db.subs[s], org) ensures KeepsSub(db.subs[s], dead, lost) {
    }
    assert StripeSubs(after, org) == StripeSubs(db, org);
    var ids := StripeSubs(db, org);
    if ids != {} {
      var s, t := Newest(db.subs, ids).value, Newest(after.subs, ids).value;
      assert Newer(db.subs, s, t) && Newer(after.subs, t, s);
    }
  }

  lemma {:induction false} CascadeKeepsCancels(db: Db, batch: set<nat>, orgs: seq<nat>)
    requires SubsResolve(db.subs, db.customers) && forall o | o in orgs :: o !in batch
    ensures BatchedCancels(Cascade(db, batch), orgs) == BatchedCancels(db, orgs)
  {
    if orgs != [] {
      CascadeKeepsSnapshot(db, batch, orgs[0]);
      CascadeKeepsCancels(db, batch, orgs[1..]);
    }
  }

  predicate Distinct(orgs: seq<nat>) { forall i, j | 0 <= i < j < |orgs| :: orgs[i] != orgs[j] }

  /** Reading every Stripe id up front cancels the same subscriptions as deleting org by org. */
  lemma {:induction false} BatchedCancelsEqualSequential(db: Db, orgs: seq<nat>)
    requires Valid(db) && Distinct(orgs)
    ensures BatchedCancels(db, orgs) == SequentialCancels(db, orgs)
    decreases orgs
  {
    if orgs != [] {
      assert forall o | o in orgs[1..] :: o !in {orgs[0]};
      CascadeKeepsCancels(db, {orgs[0]}, orgs[1..]);
      CascadeKeepsValid(db, {orgs[0]});
      BatchedCancelsEqualSequential(Cascade(db, {orgs[0]}), orgs[1..]);
    }
  }

  // ------------------------------------------------------------------ account deletion

  function SubsByUser(db: Db, user: nat): set<nat> {
    set s | s in db.subs && IsActive(db.subs[s].status) && db.subs[s].user == Some(user)
  }

  function SubsByCustomer(db: Db, user: nat): set<nat> {
    set s | s in db.subs && IsActive(db.subs[s].status) && PointsInto(db.subs[s].customer, UserCustomers(db, {user}))
  }

  /** `get_active_for_user`: the newest active subscription that names the user or sits on the user's customer. */
  function ActiveForUser(db: Db, user: nat): Option<nat> {
    Newest(db.subs, SubsByUser(db, user) + SubsByCustomer(db, user))
  }

  /** The Stripe id that deleting the account cancels, besides those of its orgs. */
  function PersonalCancels(db: Db, user: nat): seq<string> {
    var s := ActiveForUser(db, user);
    if s.Some? && db.subs[s.value].stripeId.Some? then [db.subs[s.value].stripeId.value] else []
  }

  lemma NewestUnique(subs: map<nat, Subscription>, ids: set<nat>, s: nat)
    requires IsNewest(subs, ids, s) && ids <= subs.Keys
    ensures Newest(subs, ids) == Some(s)
  {
    var t := Newest(subs, ids).value;
    assert Newer(subs, s, t) && Newer(subs, t, s);
  }

  /** The newer of the newest of two sets is the newest of both. */
  function NewerOf(subs: map<nat, Subscription>, a: Option<nat>, b: Option<nat>): Option<nat>
    requires (a.Some? ==> a.value in subs) && (b.Some? ==> b.value in subs)
  {
    if a == None then b else if b == None || Newer(subs, a.value, b.value) then a else b
  }

  lemma NewestOfUnion(subs: map<nat, Subscription>, a: set<nat>, b: set<nat>)
    requires a <= subs.Keys && b <= subs.Keys
    ensures NewerOf(subs, Newest(subs, a), Newest(subs, b)) == Newest(subs, a + b)
  {
    var r := NewerOf(subs, Newest(subs, a), Newest(subs, b));
    if r.Some? {
      forall t | t in a + b ensures Newer(subs, r.value, t) {
        assert t in a ==> Newer(subs, Newest(subs, a).value, t);
        assert t in b ==> Newer(subs, Newest(subs, b).value, t);
      }
      assert IsNewest(subs, a + b, r.value);
      NewestUnique(subs, a + b, r.value);
    }
  }

  lemma UnpaidKeepsSnapshot(db: Db, user: nat, org: nat)
    ensures Snapshot(DeleteCustomers(db, UserCustomers(db, {user})), org) == Snapshot(db, org)
  {
    var lost := UserCustomers(db, {user});
    var after := DeleteCustomers(db, lost);
    forall s | s in db.subs && IsStripeSub(db, db.subs[s], org) ensures KeepsSub(db.subs[s], {}, lost) {
    }
    assert StripeSubs(after, org) == StripeSubs(db, org);
    var ids := StripeSubs(db, org);
    if ids != {} {
      var s, t := Newest(db.subs, ids).value, Newest(after.subs, ids).value;
      assert Newer(db.subs, s, t) && Newer(after.subs, t, s);
    }
  }

  /** Deleting the user's own customer first does not change what the user's orgs cancel. */
  lemma {:induction false} UnpaidKeepsCancels(db: Db, user: nat, orgs: seq<nat>)
    ensures BatchedCancels(DeleteCustomers(db, UserCustomers(db, {user})), orgs) == BatchedCancels(db, orgs)
  {
    if orgs != [] {
      UnpaidKeepsSnapshot(db, user, orgs[0]);
      UnpaidKeepsCancels(db, user, orgs[1..]);
    }
  }

  /** The subscription is active, and it names the user or sits on a customer of the user. */
  predicate IsUsersOwn(db: Db, s: nat, user: nat) {
    s in db.subs && (db.subs[s].status == Active || db.subs[s].status == Trialing || db.subs[s].status == PastDue)
    && (db.subs[s].user == Some(user)
        || exists c :: c in db.customers && db.subs[s].customer == Some(c) && db.customers[c] == UserOwner(user))
  }

  lemma UsersOwnMeans(db: Db, s: nat, user: nat)
    ensures s in SubsByUser(db, user) + SubsByCustomer(db, user) <==> IsUsersOwn(db, s, user)
  {
    if IsUsersOwn(db, s, user) && db.subs[s].user != Some(user) {
      var c :| c in db.customers && db.subs[s].customer == Some(c) && db.customers[c] == UserOwner(user);
      assert c in UserCustomers(db, {user});
    }
    if s in SubsByCustomer(db, user) {
      assert db.customers[db.subs[s].customer.value] == UserOwner(user);
    }
  }

  /** Deleting an account cancels the newest active subscription of the user, if Stripe knows it, and nothing else
      of the user's. */
  lemma PersonalCancelsMeans(db: Db, user: nat)
    ensures |PersonalCancels(db, user)| <= 1
    ensures PersonalCancels(db, user) != [] ==>
              exists s :: IsUsersOwn(db, s, user) && db.subs[s].stripeId == Some(PersonalCancels(db, user)[0])
                          && forall t | IsUsersOwn(db, t, user) :: db.subs[t].createdAt <= db.subs[s].createdAt
    ensures (exists s :: IsUsersOwn(db, s, user)) && (forall s | IsUsersOwn(db, s, user) :: db.subs[s].stripeId.Some?)
            ==> PersonalCancels(db, user) != []
    ensures forall s | IsUsersOwn(db, s, user)
                       && (forall t | IsUsersOwn(db, t, user) && t != s ::
                             db.subs[t].createdAt < db.subs[s].createdAt) ::
              PersonalCancels(db, user) == match db.subs[s].stripeId case None => [] case Some(id) => [id]
  {
    forall s ensures s in SubsByUser(db, user) + SubsByCustomer(db, user) <==> IsUsersOwn(db, s, user) {
      UsersOwnMeans(db, s, user);
    }
    hide SubsByUser, SubsByCustomer, IsUsersOwn;
    var newest := ActiveForUser(db, user);
    if newest.Some? {
      assert IsUsersOwn(db, newest.value, user);
      forall t | IsUsersOwn(db, t, user)
        ensures t in db.subs && db.subs[t].createdAt <= db.subs[newest.value].createdAt
      {
        OwnExists(db, t, user);
        assert Newer(db.subs, newest.value, t);
      }
    }
  }

  lemma OwnExists(db: Db, s: nat, user: nat)
    requires IsUsersOwn(db, s, user)
    ensures s in db.subs
  {
  }

  /** The subscription is active, known to Stripe, and on the org's customer. */
  predicate IsTeams(db: Db, s: nat, org: nat) {
    s in db.subs && (db.subs[s].status == Active || db.subs[s].status == Trialing || db.subs[s].status == PastDue)
    && db.subs[s].stripeId.Some?
    && exists c :: c in db.customers && db.subs[s].customer == Some(c) && db.customers[c] == OrgOwner(org)
  }

  lemma TeamsMeans(db: Db, s: nat, org: nat)
    ensures s in StripeSubs(db, org) <==> IsTeams(db, s, org)
  {
    if s in StripeSubs(db, org) { assert db.customers[db.subs[s].customer.value] == OrgOwner(org); }
  }

  /** Deleting an org cancels its newest such subscription; nothing exactly when there is none. */
  lemma SnapshotMeans(db: Db, org: nat)
    ensures Snapshot(db, org) == [] <==> forall s :: !IsTeams(db, s, org)
    ensures Snapshot(db, org) != [] ==>
              |Snapshot(db, org)| == 1
              && exists s :: IsTeams(db, s, org) && db.subs[s].stripeId == Some(Snapshot(db, org)[0])
                             && forall t | IsTeams(db, t, org) :: db.subs[t].createdAt <= db.subs[s].createdAt
  {
    forall s ensures s in StripeSubs(db, org) <==> IsTeams(db, s, org) { TeamsMeans(db, s, org); }
    hide StripeSubs, IsTeams;
    var newest := Newest(db.subs, StripeSubs(db, org));
    if newest.Some? {
      assert IsTeams(db, newest.value, org);
      forall t | IsTeams(db, t, org) ensures t in db.subs && db.subs[t].createdAt <= db.subs[newest.value].createdAt {
        assert t in db.subs by { TeamExists(db, t, org); }
        assert Newer(db.subs, newest.value, t);
      }
    }
  }

  lemma TeamExists(db: Db, s: nat, org: nat)
    requires IsTeams(db, s, org)
    ensures s in db.subs
  {
  }
}
