/** Refresh-token rotation with reuse detection: `rotate_refresh_token` and the revocations. */
module RefreshTokens {
  import opened Options

  /** REFRESH_TOKEN_LIFETIME, in seconds. */
  const LIFETIME := 7 * 24 * 3600

  /** A token row. `chain` is the token that started the sequence of rotations this one belongs to; the
      table does not store it, and no step looks at it. */
  datatype Row = Row(user: nat, expiresAt: int, revokedAt: Option<int>, chain: nat)

  /** Token ids and account ids grow: `next` and `nextUser` are fresh. `users` maps an account to its
      `is_active` flag. */
  datatype State = State(next: nat, nextUser: nat, users: map<nat, bool>, tokens: map<nat, Row>)

  datatype Error = InvalidToken | TokenRevoked | TokenExpired | UserNotFound

  datatype Result = Issued(token: nat) | Refused(error: Error)

  datatype Event =
    | Register(now: int)
    | DeleteUser(user: nat)
    | Login(user: nat, now: int)
    | Rotate(token: nat, now: int)
    | Logout(token: nat, now: int)
    | NewPassword(user: nat, now: int)
    | SetActive(user: nat, active: bool)
    | Cleanup(now: int)

  /** `create_refresh_token`. */
  function Create(s: State, user: nat, now: int, chain: nat): State {
    s.(next := s.next + 1, tokens := s.tokens[s.next := Row(user, now + LIFETIME, None, chain)])
  }

  function RevokedRow(r: Row, now: int): Row { if r.revokedAt == None then r.(revokedAt := Some(now)) else r }

  /** `revoke_all_refresh_tokens`. */
  function RevokeAll(s: State, user: nat, now: int): State {
    s.(tokens := map t | t in s.tokens ::
         if s.tokens[t].user == user then RevokedRow(s.tokens[t], now) else s.tokens[t])
  }

  /** `revoke_refresh_token`. */
  function RevokeOne(s: State, token: nat, now: int): State {
    if token in s.tokens then s.(tokens := s.tokens[token := RevokedRow(s.tokens[token], now)]) else s
  }

  /** `rotate_refresh_token`. */
  function Rotated(s: State, token: nat, now: int): (State, Result) {
    if token !in s.tokens then (s, Refused(InvalidToken))
    else
      var row := s.tokens[token];
      if row.revokedAt.Some? then (RevokeAll(s, row.user, now), Refused(TokenRevoked))
      else if row.expiresAt <= now then (s, Refused(TokenExpired))
      else if row.user !in s.users || !s.users[row.user] then (s, Refused(UserNotFound))
      else (Create(RevokeOne(s, token, now), row.user, now, row.chain), Issued(s.next))
  }

  function Apply(s: State, e: Event): State {
    match e
    case Register(now) =>
      Create(s.(nextUser := s.nextUser + 1, users := s.users[s.nextUser := true]), s.nextUser, now, s.next)
    case DeleteUser(user) =>
      s.(users := s.users - {user}, tokens := map t | t in s.tokens && s.tokens[t].user != user :: s.tokens[t])
    case Login(user, now) => if user in s.users then Create(s, user, now, s.next) else s
    case Rotate(token, now) => Rotated(s, token, now).0
    case Logout(token, now) => RevokeOne(s, token, now)
    case NewPassword(user, now) =>
      if user in s.users then Create(RevokeAll(s, user, now), user, now, s.next) else s
    case SetActive(user, active) => if user in s.users then s.(users := s.users[user := active]) else s
    case Cleanup(now) => s.(tokens := map t | t in s.tokens && s.tokens[t].expiresAt >= now :: s.tokens[t])
  }

  function Run(s: State, events: seq<Event>): State
    decreases events
  {
    if events == [] then s else Run(Apply(s, events[0]), events[1..])
  }

  predicate Live(s: State, t: nat) { t in s.tokens && s.tokens[t].revokedAt == None }

  /** A chain belongs to one user, and every token that has a successor in its chain is revoked. */
  predicate ChainsOk(s: State) {
    && (forall t | t in s.tokens :: s.tokens[t].chain <= t < s.next)
    && (forall t, u | t in s.tokens && u in s.tokens && s.tokens[t].chain == s.tokens[u].chain ::
          s.tokens[t].user == s.tokens[u].user)
    && (forall t, u | t in s.tokens && u in s.tokens && s.tokens[t].chain == s.tokens[u].chain && t < u ::
          s.tokens[t].revokedAt.Some?)
  }

  lemma RevokeAllKeepsChains(s: State, user: nat, now: int)
    requires ChainsOk(s)
    ensures ChainsOk(RevokeAll(s, user, now))
  {
  }

  lemma RevokeOneKeepsChains(s: State, token: nat, now: int)
    requires ChainsOk(s)
    ensures ChainsOk(RevokeOne(s, token, now))
  {
  }

  lemma CreateKeepsChains(s: State, user: nat, now: int, chain: nat)
    requires ChainsOk(s) && chain <= s.next
    requires forall t | t in s.tokens && s.tokens[t].chain == chain ::
               s.tokens[t].user == user && s.tokens[t].revokedAt.Some?
    ensures ChainsOk(Create(s, user, now, chain))
  {
  }

  /** Once its live token is revoked, a chain is wholly revoked. */
  lemma RevokedChain(s: State, token: nat, now: int)
    requires ChainsOk(s) && token in s.tokens && s.tokens[token].revokedAt == None
    ensures var after, row := RevokeOne(s, token, now), s.tokens[token];
            row.chain <= after.next
            && forall t | t in after.tokens && after.tokens[t].chain == row.chain ::
                 after.tokens[t].user == row.user && after.tokens[t].revokedAt.Some?
  {
  }

  lemma RotateKeepsChains(s: State, token: nat, now: int)
    requires ChainsOk(s)
    ensures ChainsOk(Rotated(s, token, now).0)
  {
    if token in s.tokens {
      var row := s.tokens[token];
      RevokeAllKeepsChains(s, row.user, now);
      if Rotated(s, token, now).1.Issued? {
        RevokeOneKeepsChains(s, token, now);
        RevokedChain(s, token, now);
        hide ChainsOk, Create, RevokeOne, RevokeAll;
        CreateKeepsChains(RevokeOne(s, token, now), row.user, now, row.chain);
      }
      hide ChainsOk, RevokeAll, Create, RevokeOne;
    }
  }

  lemma StepKeepsChains(s: State, e: Event)
    requires ChainsOk(s)
    ensures ChainsOk(Apply(s, e))
  {
    hide ChainsOk, Create, RevokeOne, RevokeAll, Rotated;
    match e
    case Register(now) =>
      UsersKeepChains(s, s.users[s.nextUser := true], s.nextUser + 1);
      var more := s.(nextUser := s.nextUser + 1, users := s.users[s.nextUser := true]);
      FreshChain(more);
      CreateKeepsChains(more, s.nextUser, now, s.next);
    case DeleteUser(user) => DeleteKeepsChains(s, user);
    case Login(user, now) =>
      FreshChain(s);
      CreateKeepsChains(s, user, now, s.next);
    case Rotate(token, now) => RotateKeepsChains(s, token, now);
    case Logout(token, now) => RevokeOneKeepsChains(s, token, now);
    case NewPassword(user, now) =>
      RevokeAllKeepsChains(s, user, now);
      RevokeAllRows(s, user, now);
      FreshChain(RevokeAll(s, user, now));
      CreateKeepsChains(RevokeAll(s, user, now), user, now, s.next);
    case SetActive(user, active) => FlagKeepsChains(s, user, active);
    case Cleanup(now) => CleanupKeepsChains(s, now);
  }

  lemma UsersKeepChains(s: State, users: map<nat, bool>, nextUser: nat)
    requires ChainsOk(s)
    ensures ChainsOk(s.(nextUser := nextUser, users := users))
  {
  }

  lemma DeleteKeepsChains(s: State, user: nat)
    requires ChainsOk(s)
    ensures ChainsOk(Apply(s, DeleteUser(user)))
  {
  }

  lemma FlagKeepsChains(s: State, user: nat, active: bool)
    requires ChainsOk(s)
    ensures ChainsOk(Apply(s, SetActive(user, active)))
  {
  }

  lemma CleanupKeepsChains(s: State, now: int)
    requires ChainsOk(s)
    ensures ChainsOk(Apply(s, Cleanup(now)))
  {
  }

  /** A chain under a fresh id holds no token yet. */
  lemma FreshChain(s: State)
    requires ChainsOk(s)
    ensures forall t | t in s.tokens :: s.tokens[t].chain != s.next
  {
  }

  lemma RevokeAllRows(s: State, user: nat, now: int)
    ensures RevokeAll(s, user, now).next == s.next && RevokeAll(s, user, now).users == s.users
  {
  }

  lemma {:induction false} RunKeepsChains(s: State, events: seq<Event>)
    requires ChainsOk(s)
    ensures ChainsOk(Run(s, events))
    decreases events
  {
    if events != [] {
      StepKeepsChains(s, events[0]);
      RunKeepsChains(Apply(s, events[0]), events[1..]);
    }
  }

  /** In every run a chain has at most one unrevoked token, and it is the newest of the chain. */
  lemma OneLivePerChain(s: State, events: seq<Event>, t: nat, u: nat)
    requires ChainsOk(s)
    requires var last := Run(s, events);
             Live(last, t) && u in last.tokens && last.tokens[u].chain == last.tokens[t].chain
    ensures u <= t && (Live(Run(s, events), u) ==> u == t)
  {
    RunKeepsChains(s, events);
  }

  lemma StepKeepsRevoked(s: State, e: Event, t: nat)
    requires t < s.next && !Live(s, t)
    ensures t < Apply(s, e).next && !Live(Apply(s, e), t)
    ensures t in Apply(s, e).tokens ==> t in s.tokens && Apply(s, e).tokens[t] == s.tokens[t]
  {
  }

  /** Revocation is permanent: a token once revoked, or cleaned up, is never live again, and keeps its
      revocation time. */
  lemma {:induction false} RevocationIsPermanent(s: State, events: seq<Event>, t: nat)
    requires t < s.next && !Live(s, t)
    ensures !Live(Run(s, events), t)
    ensures t in Run(s, events).tokens ==> t in s.tokens && Run(s, events).tokens[t] == s.tokens[t]
    decreases events
  {
    if events != [] {
      StepKeepsRevoked(s, events[0], t);
      RevocationIsPermanent(Apply(s, events[0]), events[1..], t);
    }
  }

  /** Replaying a revoked token leaves its user with no live token at all. */
  lemma ReplayRevokesEverything(s: State, t: nat, now: int, u: nat)
    requires t in s.tokens && s.tokens[t].revokedAt.Some?
    ensures Rotated(s, t, now).1 == Refused(TokenRevoked)
    ensures u in s.tokens && s.tokens[u].user == s.tokens[t].user ==> !Live(Rotated(s, t, now).0, u)
    ensures u in s.tokens && s.tokens[u].user != s.tokens[t].user ==> Rotated(s, t, now).0.tokens[u] == s.tokens[u]
  {
  }

  /** Theft detection: after any run, presenting any token that was rotated away ends the whole chain,
      including the token that replaced it. */
  lemma StaleTokenEndsItsChain(s: State, events: seq<Event>, stale: nat, newer: nat, now: int)
    requires ChainsOk(s)
    requires var last := Run(s, events);
             stale in last.tokens && newer in last.tokens && stale < newer
             && last.tokens[stale].chain == last.tokens[newer].chain
    ensures var last := Run(s, events);
            Rotated(last, stale, now).1 == Refused(TokenRevoked)
            && forall t | t in last.tokens && last.tokens[t].chain == last.tokens[newer].chain ::
                 !Live(Rotated(last, stale, now).0, t)
  {
    RunKeepsChains(s, events);
    var last := Run(s, events);
    forall t | t in last.tokens && last.tokens[t].chain == last.tokens[newer].chain
      ensures !Live(Rotated(last, stale, now).0, t)
    {
      ReplayRevokesEverything(last, stale, now, t);
    }
  }

  /** A password change or reset leaves its user with exactly one live token: the one just issued. */
  lemma NewPasswordLeavesOne(s: State, user: nat, now: int, t: nat)
    requires ChainsOk(s) && user in s.users
    ensures var after := Apply(s, NewPassword(user, now));
            t in after.tokens && after.tokens[t].user == user ==> (Live(after, t) <==> t == s.next)
  {
  }

  /** A successful rotation swaps the live token of a chain for a new one and touches nothing else. */
  lemma RotationSwaps(s: State, t: nat, now: int, u: nat)
    requires ChainsOk(s) && Rotated(s, t, now).1.Issued?
    ensures var (after, r) := Rotated(s, t, now);
            && Live(s, t) && !Live(after, t) && Live(after, r.token) && r.token !in s.tokens
            && after.tokens[r.token].user == s.tokens[t].user && after.tokens[r.token].chain == s.tokens[t].chain
            && after.tokens[r.token].expiresAt == now + LIFETIME
            && (u in s.tokens && u != t ==> u in after.tokens && after.tokens[u] == s.tokens[u])
  {
  }

  /** Exactly when a token is rotated: it is known, not revoked, not expired, and its user is active. A refusal for any
      reason but revocation changes nothing. */
  lemma RotatedIff(s: State, t: nat, now: int)
    ensures var (after, r) := Rotated(s, t, now);
            && (r.Issued? <==> t in s.tokens && s.tokens[t].revokedAt == None && now < s.tokens[t].expiresAt
                               && s.tokens[t].user in s.users && s.users[s.tokens[t].user])
            && (r == Refused(TokenRevoked) <==> t in s.tokens && s.tokens[t].revokedAt.Some?)
            && (r.Refused? && r.error != TokenRevoked ==> after == s)
            && (t in s.tokens && s.tokens[t].revokedAt == None && s.tokens[t].expiresAt <= now ==>
                  r == Refused(TokenExpired))
  {
  }

  /** A login adds one live token, good for seven days, and touches no other; an unknown user gets none. */
  lemma LoginIssues(s: State, user: nat, now: int)
    requires ChainsOk(s)
    ensures var after := Apply(s, Login(user, now));
            && (user in s.users ==>
                  s.next !in s.tokens && Live(after, s.next) && after.tokens[s.next].user == user
                  && after.tokens[s.next].expiresAt == now + 604800
                  && after.tokens == s.tokens[s.next := after.tokens[s.next]])
            && (user !in s.users ==> after == s)
  {
  }

  /** A logout revokes the token presented, at that moment, and touches no other. */
  lemma LogoutRevokes(s: State, t: nat, now: int)
    ensures var after := Apply(s, Logout(t, now));
            && !Live(after, t) && after.tokens.Keys == s.tokens.Keys
            && (Live(s, t) ==> after.tokens[t] == s.tokens[t].(revokedAt := Some(now)))
            && forall u | u in s.tokens && (u != t || !Live(s, t)) :: after.tokens[u] == s.tokens[u]
  {
  }

  /** The daily cleanup takes no token that could still be rotated, and leaves none that expired before it. */
  lemma CleanupSparesTheUsable(s: State, t: nat, now: int, later: int)
    requires t in s.tokens && now <= later
    ensures var after := Apply(s, Cleanup(now));
            && (t in after.tokens <==> now <= s.tokens[t].expiresAt)
            && (Rotated(s, t, later).1.Issued? ==> t in after.tokens && Rotated(after, t, later).1.Issued?)
            && after.users == s.users && forall u | u in after.tokens :: u in s.tokens && after.tokens[u] == s.tokens[u]
  {
  }

  /** A deactivated account rotates nothing, and may again once it is active. */
  lemma DeactivationSuspends(s: State, user: nat, t: nat, now: int)
    requires user in s.users && s.users[user] && t in s.tokens && s.tokens[t].user == user
    ensures var off := Apply(s, SetActive(user, false));
            !Rotated(off, t, now).1.Issued? && Apply(off, SetActive(user, true)) == s
  {
    assert s.users[user := false][user := true] == s.users;
  }

  /** The account is gone, its id is used up, and it has no tokens. */
  predicate Erased(s: State, user: nat) {
    user < s.nextUser && user !in s.users && forall t | t in s.tokens :: s.tokens[t].user != user
  }

  lemma StepKeepsErased(s: State, e: Event, user: nat)
    requires Erased(s, user)
    ensures Erased(Apply(s, e), user)
  {
  }

  /** Deleting an account ends its sessions for good: no later step brings back a token of that user. */
  lemma {:induction false} DeletionEndsSessions(s: State, events: seq<Event>, user: nat)
    requires user < s.nextUser
    ensures Erased(Run(Apply(s, DeleteUser(user)), events), user)
    decreases |events|
  {
    if events != [] {
      var n := |events| - 1;
      DeletionEndsSessions(s, events[..n], user);
      RunAppend(Apply(s, DeleteUser(user)), events[..n], events[n]);
      assert events == events[..n] + [events[n]];
      StepKeepsErased(Run(Apply(s, DeleteUser(user)), events[..n]), events[n], user);
    }
  }

  lemma {:induction false} RunAppend(s: State, events: seq<Event>, e: Event)
    ensures Run(s, events + [e]) == Apply(Run(s, events), e)
    decreases events
  {
    hide Apply;
    if events == [] {
      assert [] + [e] == [e] && [e][1..] == [];
      assert Run(s, [e]) == Run(Apply(s, e), []);
    } else {
      assert (events + [e])[0] == events[0] && (events + [e])[1..] == events[1..] + [e];
      RunAppend(Apply(s, events[0]), events[1..], e);
    }
  }

  /** The refresh-token table. */
  class TokenTable {
    var next: nat
    var nextUser: nat
    var users: map<nat, bool>
    var tokens: map<nat, Row>

    function Snapshot(): State
      reads this
    {
      State(next, nextUser, users, tokens)
    }

    method CreateRefreshToken(user: nat, now: int, chain: nat) returns (token: nat)
      modifies this`next, this`tokens
      ensures Snapshot() == Create(old(Snapshot()), user, now, chain) && token == old(next)
    {
      token := next;
      next := next + 1;
      tokens := tokens[token := Row(user, now + LIFETIME, None, chain)];
    }

    /** A new account and its first session. */
    method RegisterUser(now: int) returns (user: nat, token: nat)
      modifies this
      ensures Snapshot() == Apply(old(Snapshot()), Register(now)) && user == old(nextUser) && token == old(next)
    {
      user := nextUser;
      nextUser := nextUser + 1;
      users := users[user := true];
      token := CreateRefreshToken(user, now, next);
    }

    method RevokeAllRefreshTokens(user: nat, now: int)
      modifies this`tokens
      ensures Snapshot() == RevokeAll(old(Snapshot()), user, now)
    {
      tokens := map t | t in tokens ::
        if tokens[t].user == user && tokens[t].revokedAt == None then tokens[t].(revokedAt := Some(now)) else tokens[t];
    }

    method RevokeRefreshToken(token: nat, now: int)
      modifies this`tokens
      ensures Snapshot() == RevokeOne(old(Snapshot()), token, now)
    {
      if token in tokens && tokens[token].revokedAt == None {
        tokens := tokens[token := tokens[token].(revokedAt := Some(now))];
      }
    }

    method RotateRefreshToken(token: nat, now: int) returns (r: Result)
      modifies this
      ensures (Snapshot(), r) == Rotated(old(Snapshot()), token, now)
      ensures old(ChainsOk(Snapshot())) ==> ChainsOk(Snapshot())
    {
      ghost var before := Snapshot();
      if token !in tokens {
        return Refused(InvalidToken);
      }
      var row := tokens[token];
      if row.revokedAt != None {
        // Possible reuse: no session of this user survives.
        RevokeAllRefreshTokens(row.user, now);
        if ChainsOk(before) { RotateKeepsChains(before, token, now); }
        return Refused(TokenRevoked);
      }
      if row.expiresAt <= now {
        return Refused(TokenExpired);
      }
      if row.user !in users || !users[row.user] {
        return Refused(UserNotFound);
      }
      tokens := tokens[token := row.(revokedAt := Some(now))];
      var issued := CreateRefreshToken(row.user, now, row.chain);
      if ChainsOk(before) { RotateKeepsChains(before, token, now); }
      r := Issued(issued);
    }

    /** The token part of a password change or reset. */
    method SetPassword(user: nat, now: int) returns (token: nat)
      requires user in users
      modifies this
      ensures Snapshot() == Apply(old(Snapshot()), NewPassword(user, now)) && token == old(next)
    {
      RevokeAllRefreshTokens(user, now);
      token := CreateRefreshToken(user, now, next);
    }
  }
}
