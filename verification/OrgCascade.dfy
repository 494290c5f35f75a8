/** The deletion cascade: which rows survive when a set of orgs is deleted. */
module OrgCascade {
  import opened Options
  import opened OrgData

  /** Users with a membership in `batch`, none outside it, and no active personal subscription. */
  function Deletable(db: Db, batch: set<nat>): set<nat> {
    set k | k in db.members && k.0 in batch
            && (forall j | j in db.members && j.1 == k.1 :: j.0 in batch)
            && !HasPersonalSub(db, k.1)
         :: k.1
  }

  /** The customers that go with `batch`: those of its orgs and those of its deleted users. */
  function LostCustomers(db: Db, batch: set<nat>): set<string> {
    OrgCustomers(db, batch) + UserCustomers(db, Deletable(db, batch))
  }

  /** The database after `batch` is deleted. */
  function Cascade(db: Db, batch: set<nat>): Db {
    Purge(db, batch, Deletable(db, batch), LostCustomers(db, batch))
  }

  /** The orgs named by a list. */
  function Named(orgs: seq<nat>): set<nat> { set o | o in orgs }

  /** Deleting the orgs one after another, each with its own cascade. */
  function CascadeEach(db: Db, orgs: seq<nat>): Db
    decreases orgs
  {
    if orgs == [] then db else CascadeEach(Cascade(db, {orgs[0]}), orgs[1..])
  }

  /** A user whose account survives keeps the personal subscription that saved it. */
  lemma PersonalSubSurvives(db: Db, batch: set<nat>, u: nat)
    requires u !in Deletable(db, batch)
    ensures HasPersonalSub(Cascade(db, batch), u) <==> HasPersonalSub(db, u)
  {
    var after := Cascade(db, batch);
    if HasPersonalSub(db, u) {
      var s :| s in db.subs && IsPersonalSub(db, db.subs[s], u);
      assert IsPersonalSub(after, after.subs[s], u);
    }
    if HasPersonalSub(after, u) {
      var s :| s in after.subs && IsPersonalSub(after, after.subs[s], u);
      assert IsPersonalSub(db, db.subs[s], u);
    }
  }

  lemma DeletableIff(db: Db, batch: set<nat>, u: nat)
    ensures u in Deletable(db, batch) <==>
              (exists o :: o in batch && (o, u) in db.members)
              && (forall o :: (o, u) in db.members ==> o in batch)
              && !HasPersonalSub(db, u)
  {
    if (exists o :: o in batch && (o, u) in db.members)
       && (forall o :: (o, u) in db.members ==> o in batch) && !HasPersonalSub(db, u) {
      var o :| o in batch && (o, u) in db.members;
      forall j | j in db.members && j.1 == u ensures j.0 in batch {
        assert (j.0, u) in db.members;
      }
      assert (o, u).1 in Deletable(db, batch);
    }
  }

  /** Deleting `a` and then `b` removes the same users as deleting both at once. */
  lemma DeletableCompose(db: Db, a: set<nat>, b: set<nat>)
    ensures Deletable(db, a) + Deletable(Cascade(db, a), b) == Deletable(db, a + b)
  {
    var after := Cascade(db, a);
    forall u ensures u in Deletable(db, a) || u in Deletable(after, b) <==> u in Deletable(db, a + b) {
      DeletableIff(db, a, u);
      DeletableIff(after, b, u);
      DeletableIff(db, a + b, u);
      if u !in Deletable(db, a) {
        PersonalSubSurvives(db, a, u);
        assert forall o :: (o, u) in after.members <==> (o, u) in db.members && o !in a;
        if u in Deletable(db, a + b) {
          assert !(forall o :: (o, u) in db.members ==> o in a);
        }
      }
    }
  }

  lemma LostCompose(db: Db, a: set<nat>, b: set<nat>)
    ensures LostCustomers(db, a) + LostCustomers(Cascade(db, a), b) == LostCustomers(db, a + b)
  {
    DeletableCompose(db, a, b);
  }

  lemma CascadeCompose(db: Db, a: set<nat>, b: set<nat>)
    ensures Cascade(Cascade(db, a), b) == Cascade(db, a + b)
  {
    DeletableCompose(db, a, b);
    LostCompose(db, a, b);
    PurgeCompose(db, a, Deletable(db, a), LostCustomers(db, a),
                 b, Deletable(Cascade(db, a), b), LostCustomers(Cascade(db, a), b));
  }

  lemma CascadeNothing(db: Db)
    ensures Cascade(db, {}) == db
  {
    assert Deletable(db, {}) == {};
    assert LostCustomers(db, {}) == {};
    hide Deletable, LostCustomers;
    PurgeNothing(db);
  }

  lemma PurgeNothing(db: Db)
    ensures Purge(db, {}, {}, {}) == db
  {
    assert KeptOrgs(db.orgs, {}, {}) == db.orgs;
    assert KeptMembers(db.members, {}, {}) == db.members;
    assert KeptInvitations(db.invitations, {}, {}) == db.invitations;
    assert KeptSubs(db.subs, {}, {}) == db.subs;
    assert db.customers - {} == db.customers && db.users - {} == db.users;
  }

  /** The single-transaction deletion of a list of orgs agrees with deleting them one by one. */
  lemma {:induction false} BatchedEqualsSequential(db: Db, orgs: seq<nat>)
    ensures CascadeEach(db, orgs) == Cascade(db, Named(orgs))
    decreases orgs
  {
    if orgs == [] {
      CascadeNothing(db);
      assert Named(orgs) == {};
    } else {
      BatchedEqualsSequential(Cascade(db, {orgs[0]}), orgs[1..]);
      CascadeCompose(db, {orgs[0]}, Named(orgs[1..]));
      assert Named(orgs) == {orgs[0]} + Named(orgs[1..]);
    }
  }

  /** ... in any order, and however often an org is repeated. */
  lemma OrderIrrelevant(db: Db, orgs: seq<nat>, orgs': seq<nat>)
    requires Named(orgs) == Named(orgs')
    ensures CascadeEach(db, orgs) == CascadeEach(db, orgs')
  {
    BatchedEqualsSequential(db, orgs);
    BatchedEqualsSequential(db, orgs');
  }

  /** Who loses the account: exactly the users whose memberships all lie in the batch and who do
      not pay for themselves. Everybody else keeps the account, the memberships outside the batch,
      and any active personal subscription. */
  lemma WhoIsRemoved(db: Db, batch: set<nat>, u: nat)
    requires u in db.users
    ensures u !in Cascade(db, batch).users <==>
              (exists o :: o in batch && (o, u) in db.members)
              && (forall o :: (o, u) in db.members ==> o in batch)
              && !HasPersonalSub(db, u)
    ensures u in Cascade(db, batch).users ==>
              && (HasPersonalSub(db, u) ==> HasPersonalSub(Cascade(db, batch), u))
              && forall o :: o !in batch && (o, u) in db.members ==>
                   (o, u) in Cascade(db, batch).members
                   && Cascade(db, batch).members[(o, u)] == db.members[(o, u)]
  {
    DeletableIff(db, batch, u);
    if u in Cascade(db, batch).users {
      PersonalSubSurvives(db, batch, u);
    }
  }
}
