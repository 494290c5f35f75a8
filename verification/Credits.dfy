/** The credit ledger and its denormalised balances: `grant_credits_for_session`. */
module Credits {
  import opened Options

  datatype Account = UserAccount(id: nat) | OrgAccount(id: nat)

  datatype Transaction = Transaction(account: Account, amount: int, reason: string)

  datatype Product = Product(name: string, credits: int)

  /** Ledger rows by their unique Stripe session id, and one balance row per account. */
  datatype Books = Books(ledger: map<string, Transaction>, balances: map<Account, int>)

  datatype Grant = Grant(session: string, entry: Transaction)

  /** A missing balance row counts as zero. */
  function BalanceOf(b: Books, a: Account): int { if a in b.balances then b.balances[a] else 0 }

  /** A grant is booked when its amount is positive and its session is new. */
  predicate Accepts(b: Books, g: Grant) { g.entry.amount > 0 && g.session !in b.ledger }

  function Post(b: Books, g: Grant): Books {
    if !Accepts(b, g) then b
    else Books(b.ledger[g.session := g.entry],
               b.balances[g.entry.account := BalanceOf(b, g.entry.account) + g.entry.amount])
  }

  function PostAll(b: Books, grants: seq<Grant>): Books
    decreases grants
  {
    if grants == [] then b else PostAll(Post(b, grants[0]), grants[1..])
  }

  /** The sum of an account's ledger rows. */
  ghost function Total(ledger: map<string, Transaction>, a: Account): int {
    if ledger == map[] then 0
    else
      var s :| s in ledger;
      (if ledger[s].account == a then ledger[s].amount else 0) + Total(ledger - {s}, a)
  }

  /** Whichever row is taken off first, the sum is the same. */
  lemma {:induction false} TotalWithout(ledger: map<string, Transaction>, a: Account, s: string)
    requires s in ledger
    ensures Total(ledger, a) == (if ledger[s].account == a then ledger[s].amount else 0) + Total(ledger - {s}, a)
    decreases |ledger|
  {
    var t :| t in ledger
      && Total(ledger, a) == (if ledger[t].account == a then ledger[t].amount else 0) + Total(ledger - {t}, a);
    if t != s {
      TotalWithout(ledger - {t}, a, s);
      TotalWithout(ledger - {s}, a, t);
      assert ledger - {t} - {s} == ledger - {s} - {t};
    }
  }

  lemma TotalWith(ledger: map<string, Transaction>, a: Account, s: string, tx: Transaction)
    requires s !in ledger
    ensures Total(ledger[s := tx], a) == Total(ledger, a) + if tx.account == a then tx.amount else 0
  {
    TotalWithout(ledger[s := tx], a, s);
    assert ledger[s := tx] - {s} == ledger;
  }

  /** Every balance is the sum of its ledger rows, and every row is a positive grant. */
  ghost predicate Balanced(b: Books) {
    && (forall a :: BalanceOf(b, a) == Total(b.ledger, a))
    && (forall s | s in b.ledger :: b.ledger[s].amount > 0)
  }

  lemma PostKeepsBalanced(b: Books, g: Grant)
    requires Balanced(b)
    ensures Balanced(Post(b, g))
  {
    if Accepts(b, g) {
      forall a ensures BalanceOf(Post(b, g), a) == Total(Post(b, g).ledger, a) {
        TotalWith(b.ledger, a, g.session, g.entry);
      }
    }
  }

  /** Conservation: in every run each balance is the sum of the account's ledger rows. */
  lemma {:induction false} Conservation(b: Books, grants: seq<Grant>)
    requires Balanced(b)
    ensures Balanced(PostAll(b, grants))
    decreases grants
  {
    if grants != [] {
      PostKeepsBalanced(b, grants[0]);
      Conservation(Post(b, grants[0]), grants[1..]);
    }
  }

  /** The grants without later duplicates: a session seen in an earlier positive grant is dropped. */
  function WithoutRepeats(grants: seq<Grant>, seen: set<string>): seq<Grant> {
    if grants == [] then []
    else if grants[0].session in seen then WithoutRepeats(grants[1..], seen)
    else
      var more := if grants[0].entry.amount > 0 then {grants[0].session} else {};
      [grants[0]] + WithoutRepeats(grants[1..], seen + more)
  }

  /** Dropping the duplicate deliveries changes nothing. */
  lemma {:induction false} RepeatsChangeNothing(b: Books, grants: seq<Grant>, seen: set<string>)
    requires seen <= b.ledger.Keys
    ensures PostAll(b, WithoutRepeats(grants, seen)) == PostAll(b, grants)
    decreases grants
  {
    if grants != [] {
      var g := grants[0];
      if g.session in seen {
        assert Post(b, g) == b;
        RepeatsChangeNothing(b, grants[1..], seen);
      } else {
        var seen' := seen + if g.entry.amount > 0 then {g.session} else {};
        RepeatsChangeNothing(Post(b, g), grants[1..], seen');
        assert WithoutRepeats(grants, seen)[1..] == WithoutRepeats(grants[1..], seen');
      }
    }
  }

  /** Redeliveries carry the same purchase. */
  ghost predicate Consistent(grants: seq<Grant>) {
    forall i, j | 0 <= i < |grants| && 0 <= j < |grants| && grants[i].session == grants[j].session ::
      grants[i] == grants[j]
  }

  /** What the ledger holds after a run: the old rows and one row per session granted. */
  lemma {:induction false} LedgerAfter(b: Books, grants: seq<Grant>)
    requires Consistent(grants)
    ensures var after := PostAll(b, grants).ledger;
            && (forall s :: s in after <==>
                              s in b.ledger || exists g :: g in grants && g.session == s && g.entry.amount > 0)
            && (forall s | s in b.ledger :: after[s] == b.ledger[s])
            && (forall g | g in grants && g.entry.amount > 0 && g.session !in b.ledger :: after[g.session] == g.entry)
    decreases grants
  {
    if grants != [] {
      var g, rest := grants[0], grants[1..];
      assert Consistent(rest) by {
        forall i, j | 0 <= i < |rest| && 0 <= j < |rest| && rest[i].session == rest[j].session
          ensures rest[i] == rest[j]
        {
          assert rest[i] == grants[i + 1] && rest[j] == grants[j + 1];
        }
      }
      LedgerAfter(Post(b, g), rest);
      forall h ensures h in grants <==> h == g || h in rest { MemberSplit(grants, h); }
      forall h | h in rest && h.session == g.session ensures h == g {
        var j :| 0 <= j < |rest| && rest[j] == h;
        assert grants[j + 1] == h && grants[0] == g;
      }
    }
  }

  lemma MemberSplit(grants: seq<Grant>, h: Grant)
    requires grants != []
    ensures h in grants <==> h == grants[0] || h in grants[1..]
  {
    assert grants == [grants[0]] + grants[1..];
  }

  /** Order does not matter: two delivery orders of the same purchases, however often repeated, end with
      the same ledger and the same balance for every account. */
  lemma OrderIrrelevant(b: Books, grants: seq<Grant>, grants': seq<Grant>, a: Account)
    requires Balanced(b) && Consistent(grants) && Consistent(grants')
    requires forall g :: g in grants <==> g in grants'
    ensures PostAll(b, grants).ledger == PostAll(b, grants').ledger
    ensures BalanceOf(PostAll(b, grants), a) == BalanceOf(PostAll(b, grants'), a)
  {
    LedgerAfter(b, grants);
    LedgerAfter(b, grants');
    var l, l' := PostAll(b, grants).ledger, PostAll(b, grants').ledger;
    assert l.Keys == l'.Keys;
    forall s | s in l ensures l[s] == l'[s] {
      if s !in b.ledger {
        var g :| g in grants && g.session == s && g.entry.amount > 0;
        assert l[s] == g.entry && l'[s] == g.entry;
      }
    }
    assert l == l';
    Conservation(b, grants);
    Conservation(b, grants');
  }

  /** The billing tables and the catalog they refer to. */
  class CreditStore {
    var ledger: map<string, Transaction>
    var balances: map<Account, int>
    var products: map<nat, Product>
    var users: set<nat>
    var orgs: set<nat>

    function Snapshot(): Books
      reads this
    {
      Books(ledger, balances)
    }

    /** Inserts the ledger row first; a session already in the ledger is a conflict and skips the balance.
        None stands for the ValueError on an amount that is not positive. */
    method GrantForSession(session: string, amount: int, reason: string, account: Account)
      returns (granted: Option<bool>)
      modifies this`ledger, this`balances
      ensures Snapshot() == Post(old(Snapshot()), Grant(session, Transaction(account, amount, reason)))
      ensures granted == if amount <= 0 then None else Some(session !in old(ledger))
    {
      if amount <= 0 {
        return None;
      }
      if session in ledger {
        return Some(false);
      }
      ledger := ledger[session := Transaction(account, amount, reason)];
      if account !in balances {
        balances := balances[account := 0];
      }
      balances := balances[account := balances[account] + amount];
      granted := Some(true);
    }

    /** The grant a completed product checkout stands for, if its product and owner exist. */
    function PurchaseOf(session: string, product: nat, user: nat, org: Option<nat>): (g: Option<Grant>)
      reads this
      ensures g.Some? <==> product in products && products[product].credits > 0
                           && if org.Some? then org.value in orgs else user in users
      ensures g.Some? ==> g.value.session == session && g.value.entry.amount == products[product].credits
                          && g.value.entry.account == if org.Some? then OrgAccount(org.value) else UserAccount(user)
    {
      if product !in products || products[product].credits <= 0 then None
      else
        var reason := "purchase:" + products[product].name;
        if org.Some? then
          if org.value in orgs
          then Some(Grant(session, Transaction(OrgAccount(org.value), products[product].credits, reason)))
          else None
        else if user in users
        then Some(Grant(session, Transaction(UserAccount(user), products[product].credits, reason)))
        else None
    }

    method OnProductCheckoutCompleted(session: string, product: nat, user: nat, org: Option<nat>)
      modifies this`ledger, this`balances
      ensures var purchase := old(PurchaseOf(session, product, user, org));
              Snapshot() == if purchase.Some? then Post(old(Snapshot()), purchase.value) else old(Snapshot())
    {
      if product !in products {
        return;
      }
      var row := products[product];
      if row.credits <= 0 {
        return;
      }
      var reason := "purchase:" + row.name;
      if org.Some? {
        if org.value !in orgs {
          return;
        }
        var _ := GrantForSession(session, row.credits, reason, OrgAccount(org.value));
      } else {
        if user !in users {
          return;
        }
        var _ := GrantForSession(session, row.credits, reason, UserAccount(user));
      }
    }
  }
}
