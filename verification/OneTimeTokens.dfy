/** One-time tokens redeemed concurrently: `_consume_one_time_token`.

    A redeemer reads the clock, runs a SELECT, and then a conditional UPDATE. Each of the three is atomic;
    between them any other step may happen. */
module OneTimeTokens {
  import opened Options

  /** EMAIL_VERIFICATION_LIFETIME, in seconds. */
  const LIFETIME := 24 * 3600

  datatype Row = Row(user: nat, expiresAt: int, usedAt: Option<int>)

  datatype Error = InvalidToken | TokenUsed | TokenExpired | UserNotFound

  /** How far a redeemer has come. `Burned` has consumed the token for an inactive user. */
  datatype Phase =
    | Idle | HasClock(now: int) | HasRow(now: int, userActive: bool)
    | Consumed(now: int) | Burned(now: int) | Failed(error: Error)

  datatype Redeemer = Redeemer(token: nat, phase: Phase)

  /** Token ids grow; `users` maps an account to its `is_active` flag. */
  datatype State = State(next: nat, users: map<nat, bool>, rows: map<nat, Row>, redeemers: seq<Redeemer>)

  datatype Event =
    | ReadClock(redeemer: nat, now: int)
    | Select(redeemer: nat)
    | Update(redeemer: nat)
    | Register(user: nat, now: int)
    | Resend(user: nat, now: int)
    | Issue(user: nat, now: int, lifetime: int)
    | SetActive(user: nat, active: bool)
    | DeleteUser(user: nat)
    | Cleanup(now: int)

  // ------------------------------------------------------------------ the two statements

  /** What the SELECT shows, and how its result is judged against the clock reading. */
  function SelectCheck(users: map<nat, bool>, rows: map<nat, Row>, token: nat, now: int): Phase {
    if token !in rows then Failed(InvalidToken)
    else if rows[token].usedAt.Some? then Failed(TokenUsed)
    else if rows[token].expiresAt <= now then Failed(TokenExpired)
    else HasRow(now, rows[token].user in users && users[rows[token].user])
  }

  /** The predicate of the conditional UPDATE. */
  predicate Matches(rows: map<nat, Row>, token: nat, now: int) {
    token in rows && rows[token].usedAt == None && rows[token].expiresAt > now
  }

  function MarkUsed(rows: map<nat, Row>, token: nat, now: int): map<nat, Row>
    requires token in rows
  {
    rows[token := rows[token].(usedAt := Some(now))]
  }

  // ------------------------------------------------------------------ the steps

  function SetPhase(s: State, i: nat, p: Phase): State
    requires i < |s.redeemers|
  {
    s.(redeemers := s.redeemers[i := s.redeemers[i].(phase := p)])
  }

  function UpdateStep(s: State, i: nat): State
    requires i < |s.redeemers| && s.redeemers[i].phase.HasRow?
  {
    var r := s.redeemers[i];
    var now := r.phase.now;
    if Matches(s.rows, r.token, now) then
      SetPhase(s.(rows := MarkUsed(s.rows, r.token, now)), i, if r.phase.userActive then Consumed(now) else Burned(now))
    else SetPhase(s, i, Failed(TokenUsed))
  }

  /** Marking every unused token of a user as used. */
  function Invalidate(rows: map<nat, Row>, user: nat, now: int): map<nat, Row> {
    map t | t in rows ::
      if rows[t].user == user && rows[t].usedAt == None then rows[t].(usedAt := Some(now)) else rows[t]
  }

  function Create(s: State, user: nat, expiresAt: int): State {
    s.(next := s.next + 1, rows := s.rows[s.next := Row(user, expiresAt, None)])
  }

  /** A deleted account takes its tokens along. */
  function RemoveUser(s: State, user: nat): State {
    s.(users := s.users - {user}, rows := map t | t in s.rows && s.rows[t].user != user :: s.rows[t])
  }

  function Apply(s: State, e: Event): State {
    match e
    case ReadClock(i, now) =>
      if i < |s.redeemers| && s.redeemers[i].phase.Idle? then SetPhase(s, i, HasClock(now)) else s
    case Select(i) =>
      if i < |s.redeemers| && s.redeemers[i].phase.HasClock?
      then SetPhase(s, i, SelectCheck(s.users, s.rows, s.redeemers[i].token, s.redeemers[i].phase.now)) else s
    case Update(i) =>
      if i < |s.redeemers| && s.redeemers[i].phase.HasRow? then UpdateStep(s, i) else s
    case Register(user, now) =>
      if user in s.users then s else Create(s.(users := s.users[user := true]), user, now + LIFETIME)
    case Resend(user, now) =>
      if user in s.users && s.users[user]
      then Create(s.(rows := Invalidate(s.rows, user, now)), user, now + LIFETIME) else s
    case Issue(user, now, lifetime) => if user in s.users then Create(s, user, now + lifetime) else s
    case SetActive(user, active) => if user in s.users then s.(users := s.users[user := active]) else s
    case DeleteUser(user) => RemoveUser(s, user)
    case Cleanup(now) => s.(rows := map t | t in s.rows && s.rows[t].expiresAt >= now :: s.rows[t])
  }

  function Run(s: State, events: seq<Event>): State
    decreases events
  {
    if events == [] then s else Run(Apply(s, events[0]), events[1..])
  }

  // ------------------------------------------------------------------ at most one consumer

  /** The redeemer's UPDATE changed the row. */
  predicate Won(r: Redeemer) { r.phase.Consumed? || r.phase.Burned? }

  /** The row of a consumed token carries the consumer's clock reading, which precedes the expiry; and no
      token has two consumers. */
  predicate Sound(s: State) {
    && (forall t | t in s.rows :: t < s.next && s.rows[t].user in s.users)
    && (forall i | 0 <= i < |s.redeemers| && Won(s.redeemers[i]) ::
          s.redeemers[i].token < s.next
          && (s.redeemers[i].token in s.rows ==>
                s.rows[s.redeemers[i].token].usedAt == Some(s.redeemers[i].phase.now)
                && s.redeemers[i].phase.now < s.rows[s.redeemers[i].token].expiresAt))
    && (forall i, j | 0 <= i < j < |s.redeemers| && Won(s.redeemers[i]) && Won(s.redeemers[j]) ::
          s.redeemers[i].token != s.redeemers[j].token)
  }

  lemma UpdateKeepsSound(s: State, i: nat)
    requires Sound(s) && i < |s.redeemers| && s.redeemers[i].phase.HasRow?
    ensures Sound(UpdateStep(s, i))
  {
  }

  /** Moving a redeemer to a phase in which it has not won. */
  lemma PhaseKeepsSound(s: State, i: nat, p: Phase)
    requires Sound(s) && i < |s.redeemers| && !Won(s.redeemers[i]) && !p.Consumed? && !p.Burned?
    ensures Sound(SetPhase(s, i, p))
  {
  }

  /** A token row that nobody has touched yet. */
  lemma CreateKeepsSound(s: State, user: nat, expiresAt: int)
    requires Sound(s) && user in s.users
    ensures Sound(Create(s, user, expiresAt))
  {
    hide Won;
    var after := Create(s, user, expiresAt);
    forall t | t in after.rows ensures t < after.next && after.rows[t].user in after.users {
      if t != s.next { assert t in s.rows; }
    }
  }

  lemma UsersKeepSound(s: State, user: nat, active: bool)
    requires Sound(s)
    ensures Sound(s.(users := s.users[user := active]))
  {
    hide Won;
  }

  lemma InvalidateKeepsSound(s: State, user: nat, now: int)
    requires Sound(s)
    ensures Sound(s.(rows := Invalidate(s.rows, user, now)))
  {
    hide Won;
  }

  lemma CleanupKeepsSound(s: State, now: int)
    requires Sound(s)
    ensures Sound(Apply(s, Cleanup(now)))
  {
    hide Won;
  }

  lemma RemoveUserKeepsSound(s: State, user: nat)
    requires Sound(s)
    ensures Sound(RemoveUser(s, user))
  {
    hide Won;
  }

  lemma StepKeepsSound(s: State, e: Event)
    requires Sound(s)
    ensures Sound(Apply(s, e))
  {
    hide Sound, Won, Create, SetPhase, UpdateStep, Invalidate, RemoveUser;
    match e
    case ReadClock(i, now) =>
      if i < |s.redeemers| && s.redeemers[i].phase.Idle? {
        NotWon(s.redeemers[i]);
        PhaseKeepsSound(s, i, HasClock(now));
      }
    case Select(i) =>
      if i < |s.redeemers| && s.redeemers[i].phase.HasClock? {
        NotWon(s.redeemers[i]);
        PhaseKeepsSound(s, i, SelectCheck(s.users, s.rows, s.redeemers[i].token, s.redeemers[i].phase.now));
      }
    case Update(i) => if i < |s.redeemers| && s.redeemers[i].phase.HasRow? { UpdateKeepsSound(s, i); }
    case Register(user, now) =>
      UsersKeepSound(s, user, true);
      CreateKeepsSound(s.(users := s.users[user := true]), user, now + LIFETIME);
    case Resend(user, now) =>
      InvalidateKeepsSound(s, user, now);
      if user in s.users { CreateKeepsSound(s.(rows := Invalidate(s.rows, user, now)), user, now + LIFETIME); }
    case Issue(user, now, lifetime) => if user in s.users { CreateKeepsSound(s, user, now + lifetime); }
    case SetActive(user, active) => UsersKeepSound(s, user, active);
    case DeleteUser(user) => RemoveUserKeepsSound(s, user);
    case Cleanup(now) => CleanupKeepsSound(s, now);
  }

  lemma NotWon(r: Redeemer)
    requires !r.phase.Consumed? && !r.phase.Burned?
    ensures !Won(r)
  {
  }

  lemma {:induction false} RunKeepsSound(s: State, events: seq<Event>)
    requires Sound(s)
    ensures Sound(Run(s, events))
    decreases events
  {
    if events != [] {
      StepKeepsSound(s, events[0]);
      RunKeepsSound(Apply(s, events[0]), events[1..]);
    }
  }

  lemma {:induction false} SameRedeemers(s: State, events: seq<Event>)
    ensures |Run(s, events).redeemers| == |s.redeemers|
    ensures forall i | 0 <= i < |s.redeemers| :: Run(s, events).redeemers[i].token == s.redeemers[i].token
    decreases events
  {
    if events != [] { SameRedeemers(Apply(s, events[0]), events[1..]); }
  }

  /** However the redeemers' steps interleave with each other and with everything else, no two of them
      consume the same token, and the consumer's clock reading precedes the expiry. */
  lemma AtMostOneConsumer(s: State, events: seq<Event>, i: nat, j: nat)
    requires Sound(s) && i < |s.redeemers| && j < |s.redeemers| && s.redeemers[i].token == s.redeemers[j].token
    requires |Run(s, events).redeemers| == |s.redeemers|
    requires Won(Run(s, events).redeemers[i]) && Won(Run(s, events).redeemers[j])
    ensures i == j
    ensures var last := Run(s, events); var r := last.redeemers[i];
            r.token in last.rows ==> r.phase.now < last.rows[r.token].expiresAt
  {
    RunKeepsSound(s, events);
    SameRedeemers(s, events);
  }

  /** No token with this id can be consumed any more. */
  predicate Spent(s: State, t: nat) { t < s.next && (t in s.rows ==> s.rows[t].usedAt.Some?) }

  lemma StepKeepsSpent(s: State, e: Event, t: nat)
    requires Spent(s, t)
    ensures Spent(Apply(s, e), t)
    ensures forall i | 0 <= i < |s.redeemers| && s.redeemers[i].token == t ::
              Won(Apply(s, e).redeemers[i]) ==> Won(s.redeemers[i])
  {
  }

  /** A used token is never consumed again, not even by a redeemer whose SELECT still saw it unused. */
  lemma {:induction false} SpentIsForever(s: State, events: seq<Event>, i: nat)
    requires i < |s.redeemers| && Spent(s, s.redeemers[i].token) && !Won(s.redeemers[i])
    requires |Run(s, events).redeemers| == |s.redeemers|
    ensures !Won(Run(s, events).redeemers[i])
    decreases events
  {
    if events != [] {
      StepKeepsSpent(s, events[0], s.redeemers[i].token);
      SameRedeemers(s, [events[0]]);
      assert Run(s, [events[0]]) == Apply(s, events[0]);
      SpentIsForever(Apply(s, events[0]), events[1..], i);
    }
  }

  /** Re-sending the verification mail stops every older link of that user, including redemptions under way. */
  lemma ResendStopsOlderLinks(s: State, user: nat, now: int, events: seq<Event>, i: nat)
    requires Sound(s) && user in s.users && s.users[user]
    requires i < |s.redeemers| && s.redeemers[i].token in s.rows && s.rows[s.redeemers[i].token].user == user
    requires !Won(s.redeemers[i])
    requires |Run(Apply(s, Resend(user, now)), events).redeemers| == |s.redeemers|
    ensures !Won(Run(Apply(s, Resend(user, now)), events).redeemers[i])
  {
    SpentIsForever(Apply(s, Resend(user, now)), events, i);
  }

  /** The fresh link works: the first redeemer to go through all its statements within 24 hours gets the token. */
  lemma FreshLinkWorks(s: State, user: nat, now: int, i: nat, later: int)
    requires Sound(s) && user in s.users && s.users[user] && later < now + 86400
    requires i < |s.redeemers| && s.redeemers[i] == Redeemer(s.next, Idle)
    ensures var sent := Apply(s, Resend(user, now));
            var done := Apply(Apply(Apply(sent, ReadClock(i, later)), Select(i)), Update(i));
            i < |done.redeemers| && done.redeemers[i].phase == Consumed(later)
            && s.next in done.rows && done.rows[s.next] == Row(user, now + 86400, Some(later))
  {
    hide Invalidate, Sound;
  }

  /** No link goes to an unknown or deactivated account, and then the old ones stay good. */
  lemma ResendNeedsActive(s: State, user: nat, now: int)
    ensures Apply(s, Resend(user, now)) == s <==> !(user in s.users && s.users[user])
    ensures user in s.users && s.users[user] ==> Apply(s, Resend(user, now)).next == s.next + 1
  {
  }

  /** The daily cleanup takes only rows whose tokens have lapsed for every redeemer with a later clock reading. */
  lemma CleanupSparesTheUsable(s: State, t: nat, now: int, later: int)
    requires t in s.rows && now <= later
    ensures var after := Apply(s, Cleanup(now));
            && (t in after.rows <==> now <= s.rows[t].expiresAt)
            && (Matches(s.rows, t, later) ==> Matches(after.rows, t, later))
            && after.users == s.users && after.redeemers == s.redeemers
            && forall u | u in after.rows :: u in s.rows && after.rows[u] == s.rows[u]
  {
  }

  // ------------------------------------------------------------------ one unused token per user

  predicate OneUnused(s: State) {
    forall t, u | t in s.rows && u in s.rows && t != u && s.rows[t].user == s.rows[u].user ::
      s.rows[t].usedAt.Some? || s.rows[u].usedAt.Some?
  }

  lemma StepKeepsOneUnused(s: State, e: Event)
    requires Sound(s) && OneUnused(s) && !e.Issue?
    ensures OneUnused(Apply(s, e))
  {
  }

  /** As long as tokens are issued by registration and re-sending only, which is how email verification
      works, no user has two unused tokens. */
  lemma {:induction false} RunKeepsOneUnused(s: State, events: seq<Event>)
    requires Sound(s) && OneUnused(s)
    requires forall i | 0 <= i < |events| :: !events[i].Issue?
    ensures OneUnused(Run(s, events))
    decreases events
  {
    if events != [] {
      StepKeepsOneUnused(s, events[0]);
      StepKeepsSound(s, events[0]);
      RunKeepsOneUnused(Apply(s, events[0]), events[1..]);
    }
  }

  // ------------------------------------------------------------------ the table

  datatype Verdict = Ok(user: nat) | Refused(error: Error)

  class TokenTable {
    var next: nat
    var users: map<nat, bool>
    var rows: map<nat, Row>

    method CreateOneTimeToken(user: nat, now: int, lifetime: int) returns (token: nat)
      modifies this`next, this`rows
      ensures token == old(next) && next == old(next) + 1
      ensures rows == old(rows)[token := Row(user, now + lifetime, None)]
    {
      token := next;
      rows := rows[token := Row(user, now + lifetime, None)];
      next := next + 1;
    }

    /** The conditional UPDATE; returns the number of rows it changed. */
    method ConditionalUpdate(token: nat, now: int) returns (updated: nat)
      modifies this`rows
      ensures updated == if old(Matches(rows, token, now)) then 1 else 0
      ensures rows == if old(Matches(rows, token, now)) then MarkUsed(old(rows), token, now) else old(rows)
    {
      if token in rows && rows[token].usedAt == None && rows[token].expiresAt > now {
        rows := rows[token := rows[token].(usedAt := Some(now))];
        updated := 1;
      } else {
        updated := 0;
      }
    }

    /** A redemption that nothing interrupts succeeds exactly on a known, unused, unexpired token of an
        active user; whenever the token was redeemable it is spent afterwards. */
    method ConsumeOneTimeToken(token: nat, now: int) returns (v: Verdict)
      modifies this`rows
      ensures v.Ok? <==> old(Matches(rows, token, now)) && old(rows)[token].user in users
                         && users[old(rows)[token].user]
      ensures v.Ok? ==> v.user == old(rows)[token].user
      ensures rows == if old(Matches(rows, token, now)) then MarkUsed(old(rows), token, now) else old(rows)
      ensures token !in old(rows) ==> v == Refused(InvalidToken)
      ensures token in old(rows) && old(rows)[token].usedAt.Some? ==> v == Refused(TokenUsed)
      ensures token in old(rows) && old(rows)[token].usedAt == None && old(rows)[token].expiresAt <= now ==>
                v == Refused(TokenExpired)
      ensures old(Matches(rows, token, now)) && !(old(rows)[token].user in users && users[old(rows)[token].user]) ==>
                v == Refused(UserNotFound)
    {
      var seen := SelectCheck(users, rows, token, now);
      if seen.Failed? {
        return Refused(seen.error);
      }
      var user := rows[token].user;
      var updated := ConditionalUpdate(token, now);
      if updated == 0 {
        return Refused(TokenUsed);
      }
      if !seen.userActive {
        return Refused(UserNotFound);
      }
      v := Ok(user);
    }

    /** Re-sending the verification mail: the older unused tokens go first. */
    method ResendVerification(user: nat, now: int) returns (token: nat)
      modifies this`next, this`rows
      ensures token == old(next) && next == old(next) + 1
      ensures rows == Invalidate(old(rows), user, now)[token := Row(user, now + LIFETIME, None)]
    {
      rows := Invalidate(rows, user, now);
      token := CreateOneTimeToken(user, now, LIFETIME);
    }
  }
}
