/** Access tokens checked against a cached copy of the user row: `JWTAuthentication.authenticate`. */
module AuthCache {
  import opened Options

  /** Times are in microseconds; `int(dt.timestamp())` keeps the whole seconds. */
  function Seconds(t: nat): nat { t / 1_000_000 }

  /** _AUTH_CACHE_TTL and ACCESS_TOKEN_LIFETIME. */
  const CACHE_TTL: nat := 60 * 1_000_000
  const ACCESS_TOKEN_LIFETIME: nat := 15 * 60 * 1_000_000

  datatype User = User(isActive: bool, passwordChangedAt: Option<nat>, profile: string)

  datatype Entry = Entry(user: User, expires: nat)

  /** Account ids grow: `next` is fresh. */
  datatype State = State(next: nat, users: map<nat, User>, cache: map<nat, Entry>)

  datatype Token = Token(subject: Option<nat>, isAccess: bool, stamp: Option<nat>, expires: nat)

  datatype Error = TokenExpired | InvalidToken | UserNotFound | TokenRevoked

  datatype Verdict = Authenticated(user: User) | Refused(error: Error)

  /** The writes of the application to a user row, and a request that authenticates. */
  datatype Event =
    | Register(row: User)
    | SaveProfile(user: nat, isActive: bool, profile: string)
    | ChangePassword(user: nat, now: nat)
    | Delete(user: nat)
    | Request(token: Token, now: nat)

  function Stamp(u: User): nat {
    if u.passwordChangedAt.Some? then Seconds(u.passwordChangedAt.value) else 0
  }

  /** `create_access_token`. */
  function Mint(id: nat, u: User, now: nat): Token {
    Token(Some(id), true, Some(Stamp(u)), now + ACCESS_TOKEN_LIFETIME)
  }

  function Claim(t: Token): nat { if t.stamp.Some? then t.stamp.value else 0 }

  /** The checks that need no user row. */
  function Decoded(t: Token, now: nat): Option<Error> {
    if t.expires <= now then Some(TokenExpired)
    else if !t.isAccess || t.subject == None then Some(InvalidToken)
    else None
  }

  function CheckStamp(t: Token, u: User): Verdict {
    if Claim(t) < Stamp(u) then Refused(TokenRevoked) else Authenticated(u)
  }

  /** `cache.get`: an expired entry is not returned. */
  function CacheGet(cache: map<nat, Entry>, id: nat, now: nat): Option<User> {
    if id in cache && now < cache[id].expires then Some(cache[id].user) else None
  }

  /** `User.objects.get(id=..., is_active=True)`. */
  function ActiveUser(users: map<nat, User>, id: nat): Option<User> {
    if id in users && users[id].isActive then Some(users[id]) else None
  }

  /** Authentication as the code does it. */
  function Cached(s: State, t: Token, now: nat): (State, Verdict) {
    var error := Decoded(t, now);
    if error.Some? then (s, Refused(error.value))
    else
      var id := t.subject.value;
      var hit := CacheGet(s.cache, id, now);
      if hit.Some? then (s, CheckStamp(t, hit.value))
      else
        var row := ActiveUser(s.users, id);
        if row == None then (s, Refused(UserNotFound))
        else (s.(cache := s.cache[id := Entry(row.value, now + CACHE_TTL)]), CheckStamp(t, row.value))
  }

  /** Authentication against the table alone. */
  function Uncached(users: map<nat, User>, t: Token, now: nat): Verdict {
    var error := Decoded(t, now);
    if error.Some? then Refused(error.value)
    else
      var row := ActiveUser(users, t.subject.value);
      if row == None then Refused(UserNotFound) else CheckStamp(t, row.value)
  }

  /** A save signal: the row changes and the cached copy goes. */
  function Save(s: State, id: nat, row: User): State { State(s.next, s.users[id := row], s.cache - {id}) }

  function Apply(s: State, e: Event): State {
    match e
    case Register(row) => Save(s.(next := s.next + 1), s.next, row)
    case SaveProfile(id, isActive, profile) =>
      if id in s.users then Save(s, id, s.users[id].(isActive := isActive, profile := profile)) else s
    case ChangePassword(id, now) =>
      if id in s.users then Save(s, id, s.users[id].(passwordChangedAt := Some(now))) else s
    case Delete(id) => State(s.next, s.users - {id}, s.cache - {id})
    case Request(t, now) => Cached(s, t, now).0
  }

  function Run(s: State, events: seq<Event>): State
    decreases events
  {
    if events == [] then s else Run(Apply(s, events[0]), events[1..])
  }

  /** Every cached copy, expired or not, equals an active row of the table. */
  predicate Coherent(s: State) {
    forall id | id in s.cache :: ActiveUser(s.users, id) == Some(s.cache[id].user)
  }

  lemma {:induction false} RunKeepsCoherent(s: State, events: seq<Event>)
    requires Coherent(s)
    ensures Coherent(Run(s, events))
    decreases events
  {
    if events != [] { RunKeepsCoherent(Apply(s, events[0]), events[1..]); }
  }

  /** Refinement: after every run, cached authentication answers what the table alone would answer. */
  lemma CachedRefinesUncached(s: State, events: seq<Event>, t: Token, now: nat)
    requires Coherent(s)
    ensures var last := Run(s, events);
            Cached(last, t, now).1 == Uncached(last.users, t, now)
  {
    RunKeepsCoherent(s, events);
  }

  /** Exactly when a request is let in, after any run: the token is an access token that has not expired, it names an
      active account, and it is stamped no earlier than the whole second of the last password change. */
  lemma AuthenticatedIff(s: State, events: seq<Event>, t: Token, now: nat)
    requires Coherent(s)
    ensures var last := Run(s, events);
            Cached(last, t, now).1.Authenticated?
            <==> now < t.expires && t.isAccess && t.subject.Some? && t.subject.value in last.users
                 && last.users[t.subject.value].isActive
                 && match last.users[t.subject.value].passwordChangedAt
                    case None => true
                    case Some(changed) => changed / 1_000_000 <= match t.stamp case None => 0 case Some(n) => n
  {
    CachedRefinesUncached(s, events, t, now);
  }

  /** How a refusal reads. */
  lemma RefusalReads(s: State, t: Token, now: nat)
    ensures t.expires <= now ==> Cached(s, t, now) == (s, Refused(TokenExpired))
    ensures now < t.expires && (!t.isAccess || t.subject == None) ==> Cached(s, t, now) == (s, Refused(InvalidToken))
    ensures Coherent(s) && now < t.expires && t.isAccess && t.subject.Some?
            && (t.subject.value !in s.users || !s.users[t.subject.value].isActive)
            ==> Cached(s, t, now).1 == Refused(UserNotFound)
  {
  }

  /** A minted token is for its account, and good for fifteen minutes and no longer. */
  lemma MintedTokenLapses(s: State, id: nat, u: User, minted: nat, now: nat)
    ensures var t := Mint(id, u, minted);
            t.subject == Some(id) && t.isAccess && t.expires == minted + 900_000_000
            && (minted + 900_000_000 <= now ==> Cached(s, t, now).1 == Refused(TokenExpired))
  {
  }

  /** Password changes carry non-decreasing clock readings, none before `from`. */
  predicate ClockFrom(events: seq<Event>, from: nat)
    decreases events
  {
    events == []
    || (if events[0].ChangePassword? then from <= events[0].now && ClockFrom(events[1..], events[0].now)
        else ClockFrom(events[1..], from))
  }

  lemma {:induction false} StampNeverFalls(s: State, events: seq<Event>, id: nat, from: nat)
    requires id < s.next
    requires id in s.users ==> s.users[id].passwordChangedAt.Some? && from <= s.users[id].passwordChangedAt.value
    requires id in s.users ==> ClockFrom(events, s.users[id].passwordChangedAt.value)
    ensures id in Run(s, events).users ==> Stamp(Run(s, events).users[id]) >= Seconds(from)
    decreases events
  {
    if events != [] && id in s.users {
      var e, after := events[0], Apply(s, events[0]);
      if id in after.users {
        var changed := s.users[id].passwordChangedAt.value;
        if e.ChangePassword? && e.user != id { ClockLater(events[1..], e.now, changed); }
        StampNeverFalls(after, events[1..], id, from);
      } else {
        GoneStaysGone(after, events[1..], id);
      }
    } else {
      GoneStaysGone(s, events, id);
    }
  }

  lemma {:induction false} ClockLater(events: seq<Event>, from: nat, earlier: nat)
    requires ClockFrom(events, from) && earlier <= from
    ensures ClockFrom(events, earlier)
    decreases events
  {
    if events != [] && !events[0].ChangePassword? { ClockLater(events[1..], from, earlier); }
  }

  /** Registration hands out fresh ids, so nobody gets the id of a deleted account. */
  lemma {:induction false} GoneStaysGone(s: State, events: seq<Event>, id: nat)
    requires id < s.next
    ensures id !in s.users ==> id !in Run(s, events).users
    decreases events
  {
    if events != [] { GoneStaysGone(Apply(s, events[0]), events[1..], id); }
  }

  /** A deleted account is locked out for good: no later request with a token of its own gets in. */
  lemma DeletionLocksOut(s: State, events: seq<Event>, id: nat, t: Token, now: nat)
    requires Coherent(s) && id < s.next && t.subject == Some(id)
    ensures var after := Run(Apply(s, Delete(id)), events);
            id !in after.users && Cached(after, t, now).1.Refused?
  {
    var gone := Apply(s, Delete(id));
    GoneStaysGone(gone, events, id);
    CachedRefinesUncached(gone, events, t, now);
  }

  /** A password change revokes for good every token stamped in an earlier whole second. */
  lemma ChangeRevokesOlderTokens(s: State, id: nat, changed: nat, events: seq<Event>, t: Token, now: nat)
    requires Coherent(s) && id in s.users && id < s.next && t.subject == Some(id)
    requires Claim(t) < Seconds(changed) && ClockFrom(events, changed)
    ensures Cached(Run(Apply(s, ChangePassword(id, changed)), events), t, now).1.Refused?
  {
    var mid := Apply(s, ChangePassword(id, changed));
    StampNeverFalls(mid, events, id, changed);
    CachedRefinesUncached(mid, events, t, now);
  }

  /** Right after a change, an otherwise good token passes exactly when its stamp is not from an earlier
      whole second: a change within the second of the stamp revokes nothing. */
  lemma ChangeRevokesIff(s: State, id: nat, changed: nat, t: Token, now: nat)
    requires Coherent(s) && id in s.users && s.users[id].isActive
    requires t.subject == Some(id) && Decoded(t, now) == None
    ensures Cached(Apply(s, ChangePassword(id, changed)), t, now).1.Authenticated? <==> Seconds(changed) <= Claim(t)
  {
    CachedRefinesUncached(Apply(s, ChangePassword(id, changed)), [], t, now);
  }

  /** The token handed out with the new password is accepted for its lifetime. */
  lemma FreshTokenPasses(s: State, id: nat, changed: nat, now: nat)
    requires Coherent(s) && id in s.users && s.users[id].isActive && changed <= now < changed + ACCESS_TOKEN_LIFETIME
    ensures var after := Apply(s, ChangePassword(id, changed));
            Cached(after, Mint(id, after.users[id], changed), now).1 == Authenticated(after.users[id])
  {
    var after := Apply(s, ChangePassword(id, changed));
    CachedRefinesUncached(after, [], Mint(id, after.users[id], changed), now);
  }

  // ------------------------------------------------------------------ writes that send no signal

  /** `QuerySet.update()` on one user: the row changes and no signal is sent. No step of the application does
      this; the cache would not follow. */
  function BulkUpdate(s: State, id: nat, row: User): State {
    if id in s.users then s.(users := s.users[id := row]) else s
  }

  /** Exactly when such a write keeps the cache in step: the user is not cached, or the new row is the cached one. */
  lemma BulkUpdateCoherentIff(s: State, id: nat, row: User)
    requires Coherent(s)
    ensures Coherent(BulkUpdate(s, id, row)) <==> !(id in s.cache && row != s.cache[id].user)
  {
    var after := BulkUpdate(s, id, row);
    if id in s.cache {
      assert ActiveUser(s.users, id) == Some(s.cache[id].user);
      if row != s.cache[id].user { assert ActiveUser(after.users, id) != Some(after.cache[id].user); }
    }
  }

  /** Otherwise a good token of a cached user is judged by the old row until the entry expires: here one that the
      table, with the account deactivated, would turn away. */
  lemma BulkUpdateGoesUnnoticed(s: State, id: nat, t: Token, now: nat)
    requires Coherent(s) && id in s.cache && now < s.cache[id].expires
    requires t.subject == Some(id) && Decoded(t, now) == None && Stamp(s.cache[id].user) <= Claim(t)
    ensures var after := BulkUpdate(s, id, s.cache[id].user.(isActive := false));
            Cached(after, t, now).1.Authenticated? && Uncached(after.users, t, now) == Refused(UserNotFound)
  {
    assert ActiveUser(s.users, id) == Some(s.cache[id].user);
  }

  /** But not for long: a copy made at `now` is judged against the table again sixty seconds later, whatever has been
      written behind the cache's back. */
  lemma BulkUpdateShowsAfterAMinute(s: State, id: nat, t: Token, now: nat, row: User, other: Token, later: nat)
    requires t.subject == Some(id) && Cached(s, t, now).1.Authenticated? && CacheGet(s.cache, id, now) == None
    requires now + 60_000_000 <= later && other.subject == Some(id)
    ensures var after := BulkUpdate(Cached(s, t, now).0, id, row);
            Cached(after, other, later).1 == Uncached(after.users, other, later)
  {
  }

  /** The user table, the cache and the signal receivers between them. */
  class AuthBackend {
    var next: nat
    var users: map<nat, User>
    var cache: map<nat, Entry>

    function Snapshot(): State
      reads this
    {
      State(next, users, cache)
    }

    /** `create_user`: a fresh id, and the same signal as any save. */
    method CreateUser(row: User) returns (id: nat)
      modifies this
      ensures Snapshot() == Apply(old(Snapshot()), Register(row)) && id == old(next)
    {
      id := next;
      next := next + 1;
      SaveUser(id, row);
    }

    /** `user.save(...)` with its post-save signal. */
    method SaveUser(id: nat, row: User)
      modifies this`users, this`cache
      ensures Snapshot() == Save(old(Snapshot()), id, row)
    {
      users := users[id := row];
      cache := cache - {id};
    }

    /** `user.delete()` with its post-delete signal. */
    method DeleteUser(id: nat)
      modifies this
      ensures Snapshot() == Apply(old(Snapshot()), Delete(id))
    {
      users := users - {id};
      cache := cache - {id};
    }

    method SetPassword(id: nat, now: nat)
      modifies this
      ensures Snapshot() == Apply(old(Snapshot()), ChangePassword(id, now))
    {
      if id in users {
        SaveUser(id, users[id].(passwordChangedAt := Some(now)));
      }
    }

    method Authenticate(t: Token, now: nat) returns (verdict: Verdict)
      modifies this`cache
      ensures (Snapshot(), verdict) == Cached(old(Snapshot()), t, now)
      ensures old(Coherent(Snapshot())) ==> Coherent(Snapshot()) && verdict == Uncached(users, t, now)
    {
      if t.expires <= now {
        return Refused(TokenExpired);
      }
      if !t.isAccess || t.subject == None {
        return Refused(InvalidToken);
      }
      var id := t.subject.value;
      var user: User;
      if id in cache && now < cache[id].expires {
        user := cache[id].user;
      } else {
        if id !in users || !users[id].isActive {
          return Refused(UserNotFound);
        }
        user := users[id];
        cache := cache[id := Entry(user, now + CACHE_TTL)];
      }
      if Claim(t) < Stamp(user) {
        return Refused(TokenRevoked);
      }
      verdict := Authenticated(user);
    }
  }
}
