/** The one-time code of a social sign-in: `_store_oauth_exchange` and `_consume_oauth_exchange`.

    The cache is shared and has no transactions: `add`, `get` and `delete` of different callers interleave
    freely, and time passes in between. An entry is live until its expiry. */
module OAuthExchange {
  import opened Options

  /** _OAUTH_EXCHANGE_TTL, in seconds. */
  const TTL := 60

  const PREFIX := "oauth_exchange:"
  const MARK := ":consumed"

  function Key(code: string): string { PREFIX + code }

  function Sentinel(code: string): string { Key(code) + MARK }

  /** `secrets.token_urlsafe` draws from letters, digits, `-` and `_`; only the colon matters here. */
  predicate UrlSafe(code: string) { ':' !in code }

  /** What the cache holds: a token pair, or the 1 of a sentinel. */
  datatype Value = Tokens(pair: nat) | One

  datatype Entry = Entry(value: Value, expires: int)

  /** How far a caller of `_consume_oauth_exchange` has come. `Lost`: `add` returned False. */
  datatype Phase = Start | Lost | Won | Got(data: Option<Value>) | Returned(data: Option<Value>)

  datatype Caller = Caller(code: string, phase: Phase)

  datatype State = State(now: int, cache: map<string, Entry>, issued: set<string>, callers: seq<Caller>)

  datatype Event =
    | Tick(seconds: nat) | Store(code: string, pair: nat) | Add(caller: nat) | Get(caller: nat) | Delete(caller: nat)

  predicate Live(cache: map<string, Entry>, key: string, now: int) { key in cache && now < cache[key].expires }

  /** `cache.get`. */
  function Lookup(cache: map<string, Entry>, key: string, now: int): Option<Value> {
    if Live(cache, key, now) then Some(cache[key].value) else None
  }

  /** A code just drawn: never drawn before, and nobody has redeemed it. */
  predicate Fresh(s: State, code: string) {
    UrlSafe(code) && code !in s.issued
    && forall i | 0 <= i < |s.callers| && s.callers[i].code == code :: s.callers[i].phase.Start?
  }

  function SetPhase(s: State, i: nat, p: Phase): State
    requires i < |s.callers|
  {
    s.(callers := s.callers[i := s.callers[i].(phase := p)])
  }

  function AddStep(s: State, i: nat): State
    requires i < |s.callers|
  {
    var sentinel := Sentinel(s.callers[i].code);
    if Live(s.cache, sentinel, s.now) then SetPhase(s, i, Lost)
    else SetPhase(s.(cache := s.cache[sentinel := Entry(One, s.now + TTL)]), i, Won)
  }

  function Apply(s: State, e: Event): State {
    match e
    case Tick(seconds) => s.(now := s.now + seconds)
    case Store(code, pair) =>
      if Fresh(s, code)
      then s.(cache := s.cache[Key(code) := Entry(Tokens(pair), s.now + TTL)], issued := s.issued + {code}) else s
    case Add(i) => if i < |s.callers| && s.callers[i].phase.Start? then AddStep(s, i) else s
    case Get(i) =>
      if i < |s.callers| && s.callers[i].phase.Won?
      then SetPhase(s, i, Got(Lookup(s.cache, Key(s.callers[i].code), s.now))) else s
    case Delete(i) =>
      if i < |s.callers| && s.callers[i].phase.Got?
      then SetPhase(s.(cache := s.cache - {Key(s.callers[i].code)}), i, Returned(s.callers[i].phase.data)) else s
  }

  function Run(s: State, events: seq<Event>): State
    decreases events
  {
    if events == [] then s else Run(Apply(s, events[0]), events[1..])
  }

  // ------------------------------------------------------------------ which keys collide

  lemma SameTail(a: string, c: string, d: string)
    ensures a + c == a + d <==> c == d
  {
    if a + c == a + d {
      assert c == (a + c)[|a|..];
      assert d == (a + d)[|a|..];
    }
  }

  lemma SameHead(c: string, d: string, z: string)
    ensures c + z == d + z <==> c == d
  {
    if c + z == d + z {
      assert |c| == |d|;
      assert c == (c + z)[..|c|];
      assert d == (d + z)[..|d|];
    }
  }

  /** The entries of a drawn code `c` are touched by the same code alone, except that the sentinel of `c`
      is also the token entry of the string `c:consumed`. */
  lemma KeysApart(c: string, d: string)
    requires UrlSafe(c)
    ensures Key(d) == Key(c) <==> d == c
    ensures Sentinel(d) == Sentinel(c) <==> d == c
    ensures Sentinel(d) != Key(c)
    ensures Key(d) == Sentinel(c) <==> d == c + MARK
  {
    SameTail(PREFIX, c, d);
    SameHead(Key(c), Key(d), MARK);
    assert Sentinel(d) == PREFIX + (d + MARK);
    SameTail(PREFIX, d + MARK, c);
    assert (d + MARK)[|d|] == ':';
    assert Sentinel(c) == PREFIX + (c + MARK);
    SameTail(PREFIX, d, c + MARK);
  }

  // ------------------------------------------------------------------ at most once

  /** The caller's `add` succeeded. */
  predicate Passed(c: Caller) { c.phase.Won? || c.phase.Got? || c.phase.Returned? }

  /** The caller holds what was stored under its code. */
  predicate Holds(c: Caller) { (c.phase.Got? || c.phase.Returned?) && c.phase.data.Some? }

  /** Nobody presents the string whose token entry is the sentinel of `code`. */
  predicate NoTwin(callers: seq<Caller>, code: string) {
    forall i | 0 <= i < |callers| :: callers[i].code != code + MARK
  }

  /** While the token entry of `code` can be read, its sentinel is set as soon as one caller has passed;
      once it has expired, nobody gains anything. */
  predicate Guarded(s: State, code: string, pair: nat, expires: int) {
    && (Key(code) in s.cache ==> s.cache[Key(code)] == Entry(Tokens(pair), expires))
    && (forall i | 0 <= i < |s.callers| && s.callers[i].code == code && Holds(s.callers[i]) ::
          s.callers[i].phase.data == Some(Tokens(pair)))
    && (forall i | 0 <= i < |s.callers| && s.callers[i].code == code && Passed(s.callers[i]) && s.now < expires ::
          Sentinel(code) in s.cache && s.cache[Sentinel(code)].expires >= expires)
    && (forall i, j | 0 <= i < j < |s.callers| && s.callers[i].code == code && s.callers[j].code == code
                      && Passed(s.callers[i]) && Passed(s.callers[j]) ::
          s.now >= expires && !(Holds(s.callers[i]) && Holds(s.callers[j])))
  }

  predicate Sane(s: State, code: string, pair: nat, expires: int) {
    UrlSafe(code) && code in s.issued && s.now + TTL >= expires && NoTwin(s.callers, code)
    && Guarded(s, code, pair, expires)
  }

  lemma StoreStartsSane(s: State, code: string, pair: nat)
    requires Fresh(s, code) && NoTwin(s.callers, code)
    ensures Sane(Apply(s, Store(code, pair)), code, pair, s.now + TTL)
  {
    hide Key, Sentinel;
  }

  lemma StoreKeepsSane(s: State, code: string, pair: nat, expires: int, other: string, otherPair: nat)
    requires Sane(s, code, pair, expires)
    ensures Sane(Apply(s, Store(other, otherPair)), code, pair, expires)
  {
    hide Key, Sentinel;
    if Fresh(s, other) {
      KeysApart(code, other);
      KeysApart(other, code);
    }
  }

  lemma AddKeepsSane(s: State, code: string, pair: nat, expires: int, i: nat)
    requires Sane(s, code, pair, expires) && i < |s.callers| && s.callers[i].phase.Start?
    ensures Sane(AddStep(s, i), code, pair, expires)
  {
    hide Key, Sentinel;
    KeysApart(code, s.callers[i].code);
  }

  lemma GetKeepsSane(s: State, code: string, pair: nat, expires: int, i: nat)
    requires Sane(s, code, pair, expires)
    ensures Sane(Apply(s, Get(i)), code, pair, expires)
  {
    hide Key, Sentinel;
  }

  lemma DeleteKeepsSane(s: State, code: string, pair: nat, expires: int, i: nat)
    requires Sane(s, code, pair, expires)
    ensures Sane(Apply(s, Delete(i)), code, pair, expires)
  {
    hide Key, Sentinel;
    if i < |s.callers| { KeysApart(code, s.callers[i].code); }
  }

  lemma StepKeepsSane(s: State, e: Event, code: string, pair: nat, expires: int)
    requires Sane(s, code, pair, expires)
    ensures Sane(Apply(s, e), code, pair, expires)
  {
    match e
    case Tick(_) =>
    case Store(other, otherPair) => StoreKeepsSane(s, code, pair, expires, other, otherPair);
    case Add(i) => if i < |s.callers| && s.callers[i].phase.Start? { AddKeepsSane(s, code, pair, expires, i); }
    case Get(i) => GetKeepsSane(s, code, pair, expires, i);
    case Delete(i) => DeleteKeepsSane(s, code, pair, expires, i);
  }

  lemma {:induction false} RunKeepsSane(s: State, events: seq<Event>, code: string, pair: nat, expires: int)
    requires Sane(s, code, pair, expires)
    ensures Sane(Run(s, events), code, pair, expires)
    decreases events
  {
    if events != [] {
      StepKeepsSane(s, events[0], code, pair, expires);
      RunKeepsSane(Apply(s, events[0]), events[1..], code, pair, expires);
    }
  }

  lemma {:induction false} SameCallers(s: State, events: seq<Event>)
    ensures |Run(s, events).callers| == |s.callers|
    ensures forall i | 0 <= i < |s.callers| :: Run(s, events).callers[i].code == s.callers[i].code
    decreases events
  {
    if events != [] { SameCallers(Apply(s, events[0]), events[1..]); }
  }

  /** Callers `i` and `j` both end up with what was stored under `code`. */
  predicate BothHold(s: State, code: string, i: nat, j: nat) {
    i < |s.callers| && j < |s.callers| && s.callers[i].code == code && s.callers[j].code == code
    && Holds(s.callers[i]) && Holds(s.callers[j])
  }

  /** However the cache calls of the callers interleave and however long they take, at most one caller
      obtains something for a freshly stored code, and what it obtains is the stored pair: a sentinel added
      after the store outlives the code. Provided nobody presents `code:consumed`. */
  lemma AtMostOnce(s: State, code: string, pair: nat, events: seq<Event>, i: nat, j: nat)
    requires Fresh(s, code) && NoTwin(s.callers, code)
    requires BothHold(Run(Apply(s, Store(code, pair)), events), code, i, j)
    ensures i == j
    ensures Run(Apply(s, Store(code, pair)), events).callers[i].phase.data == Some(Tokens(pair))
  {
    StoreStartsSane(s, code, pair);
    RunKeepsSane(Apply(s, Store(code, pair)), events, code, pair, s.now + TTL);
  }

  // ------------------------------------------------------------------ at least once

  /** A single caller that redeems a fresh code within a minute obtains the pair. */
  lemma SoloCallerGetsThePair(s: State, code: string, pair: nat, i: nat, wait: nat)
    requires Fresh(s, code) && i < |s.callers| && s.callers[i].code == code && wait < 60
    requires !Live(s.cache, Sentinel(code), s.now + wait)
    ensures var stored := Apply(Apply(s, Store(code, pair)), Tick(wait));
            var done := Apply(Apply(Apply(stored, Add(i)), Get(i)), Delete(i));
            i < |done.callers| && done.callers[i].phase == Returned(Some(Tokens(pair)))
            && Key(code) !in done.cache && Sentinel(code) in done.cache
  {
    KeysApart(code, code);
    FreshStore(s, code, pair);
    hide Key, Sentinel, Fresh;
  }

  /** ... and after the minute nothing is left to obtain. */
  lemma LateCallerGetsNothing(s: State, code: string, pair: nat, i: nat, wait: nat)
    requires Fresh(s, code) && i < |s.callers| && s.callers[i].code == code && wait >= 60
    ensures var stored := Apply(Apply(s, Store(code, pair)), Tick(wait));
            var done := Apply(Apply(stored, Add(i)), Get(i));
            i < |done.callers| && !Holds(done.callers[i])
  {
    KeysApart(code, code);
    FreshStore(s, code, pair);
    hide Key, Sentinel, Fresh;
  }

  lemma FreshStore(s: State, code: string, pair: nat)
    requires Fresh(s, code)
    ensures Apply(s, Store(code, pair))
         == s.(cache := s.cache[Key(code) := Entry(Tokens(pair), s.now + TTL)], issued := s.issued + {code})
  {
    hide Key;
  }

  // ------------------------------------------------------------------ exactly when

  /** Two callers of `code` and a third one that presents `code:consumed`. */
  predicate Clash(callers: seq<Caller>, code: string, i: nat, j: nat, k: nat) {
    i < |callers| && j < |callers| && k < |callers| && i != j
    && callers[i].code == code && callers[j].code == code && callers[k].code == code + MARK
  }

  /** In the shared cache, no live marker of `code` or of `code:consumed` stands, and no caller has begun. */
  predicate Unstarted(s: State, code: string) {
    !Live(s.cache, Sentinel(code), s.now) && !Live(s.cache, Sentinel(code + MARK), s.now)
    && forall i | 0 <= i < |s.callers| :: s.callers[i].phase.Start?
  }

  /** The first caller adds the sentinel; the third one deletes it as its own token entry; so the second
      one can add it again. */
  function ClashingSchedule(i: nat, j: nat, k: nat): seq<Event> {
    [Add(i), Add(k), Get(k), Delete(k), Add(j), Get(i), Get(j)]
  }

  lemma RunOne(s: State, e: Event, rest: seq<Event>)
    ensures Run(s, [e] + rest) == Run(Apply(s, e), rest)
  {
    assert ([e] + rest)[1..] == rest;
  }

  lemma ClashBreaks(s: State, code: string, pair: nat, i: nat, j: nat, k: nat)
    requires Unstarted(s, code) && Fresh(s, code) && Clash(s.callers, code, i, j, k)
    ensures BothHold(Run(Apply(s, Store(code, pair)), ClashingSchedule(i, j, k)), code, i, j)
  {
    assert UrlSafe(code);
    FreshStore(s, code, pair);
    hide Key, Sentinel, Fresh, Run;
    KeysApart(code, code + MARK);
    var s0 := Apply(s, Store(code, pair));
    var s1 := Apply(s0, Add(i));
    var s2 := Apply(s1, Add(k));
    var s3 := Apply(s2, Get(k));
    var s4 := Apply(s3, Delete(k));
    assert k != i && k != j;
    assert Sentinel(code + MARK) != Key(code) && Sentinel(code + MARK) != Sentinel(code);
    assert Sentinel(code) !in s4.cache && s4.callers[i].phase.Won? && s4.callers[j].phase.Start?;
    assert Lookup(s4.cache, Key(code), s4.now) == Some(Tokens(pair));
    var s5 := Apply(s4, Add(j));
    var s6 := Apply(s5, Get(i));
    var s7 := Apply(s6, Get(j));
    assert BothHold(s7, code, i, j);
    RunSeven(s0, Add(i), Add(k), Get(k), Delete(k), Add(j), Get(i), Get(j));
  }

  lemma RunSeven(s: State, a: Event, b: Event, c: Event, d: Event, e: Event, f: Event, g: Event)
    ensures Run(s, [a, b, c, d, e, f, g])
         == Apply(Apply(Apply(Apply(Apply(Apply(Apply(s, a), b), c), d), e), f), g)
  {
    hide Apply;
    var s1 := Apply(s, a);
    var s2 := Apply(s1, b);
    var s3 := Apply(s2, c);
    RunThree(s, a, b, c, [d, e, f, g]);
    RunThree(s3, d, e, f, [g]);
    assert [a, b, c, d, e, f, g] == [a, b, c] + [d, e, f, g];
    assert [d, e, f, g] == [d, e, f] + [g];
  }

  lemma RunThree(s: State, a: Event, b: Event, c: Event, rest: seq<Event>)
    ensures Run(s, [a, b, c] + rest) == Run(Apply(Apply(Apply(s, a), b), c), rest)
  {
    hide Apply;
    assert [a, b, c] + rest == [a] + ([b] + ([c] + rest));
    RunOne(s, a, [b] + ([c] + rest));
    RunOne(Apply(s, a), b, [c] + rest);
    RunOne(Apply(Apply(s, a), b), c, rest);
  }

  /** Exactly when every schedule is at most once: no two callers of the code share the endpoint with a
      caller presenting `code:consumed`. */
  lemma AtMostOnceIff(s: State, code: string, pair: nat)
    requires Unstarted(s, code) && Fresh(s, code)
    ensures (forall events, i: nat, j: nat ::
               BothHold(Run(Apply(s, Store(code, pair)), events), code, i, j) ==> i == j)
            <==> (forall i: nat, j: nat, k: nat :: !Clash(s.callers, code, i, j, k))
  {
    hide Run, Apply, Fresh, Unstarted;
    if i: nat, j: nat, k: nat :| Clash(s.callers, code, i, j, k) {
      ClashBreaks(s, code, pair, i, j, k);
    } else {
      forall events, i: nat, j: nat | BothHold(Run(Apply(s, Store(code, pair)), events), code, i, j)
        ensures i == j
      {
        SameCallers(Apply(s, Store(code, pair)), events);
        SameCallers(s, [Store(code, pair)]);
        RunOne(s, Store(code, pair), []);
        assert [Store(code, pair)] + [] == [Store(code, pair)];
        RunNone(Apply(s, Store(code, pair)));
        if i != j {
          forall k | 0 <= k < |s.callers| ensures s.callers[k].code != code + MARK {
            assert !Clash(s.callers, code, i, j, k);
          }
          AtMostOnce(s, code, pair, events, i, j);
        }
      }
    }
  }

  lemma RunNone(s: State)
    ensures Run(s, []) == s
  {
  }

  // ------------------------------------------------------------------ one caller at a time

  class ExchangeCache {
    var entries: map<string, Entry>

    method Set(key: string, value: Value, now: int)
      modifies this
      ensures entries == old(entries)[key := Entry(value, now + TTL)]
    {
      entries := entries[key := Entry(value, now + TTL)];
    }

    /** `cache.add`: set only when no live entry is there. */
    method AddNew(key: string, value: Value, now: int) returns (added: bool)
      modifies this
      ensures added == !old(Live(entries, key, now))
      ensures entries == if added then old(entries)[key := Entry(value, now + TTL)] else old(entries)
    {
      added := !(key in entries && now < entries[key].expires);
      if added {
        entries := entries[key := Entry(value, now + TTL)];
      }
    }

    method StoreOAuthExchange(code: string, pair: nat, now: int)
      modifies this
      ensures entries == old(entries)[Key(code) := Entry(Tokens(pair), now + TTL)]
    {
      Set(Key(code), Tokens(pair), now);
    }

    /** A redemption nobody interrupts: the pair comes out as long as it has not expired and no sentinel
        stands; afterwards the entry is gone and the sentinel stands, so a second redemption within the
        lifetime of the sentinel gets nothing. */
    method ConsumeOAuthExchange(code: string, now: int) returns (data: Option<Value>)
      modifies this
      ensures data == if old(Live(entries, Sentinel(code), now)) then None else old(Lookup(entries, Key(code), now))
      ensures Live(entries, Sentinel(code), now)
      ensures old(Live(entries, Sentinel(code), now)) ==> entries == old(entries)
      ensures !old(Live(entries, Sentinel(code), now)) ==>
                Key(code) !in entries && entries[Sentinel(code)].expires == now + TTL
                && forall k | k != Key(code) && k != Sentinel(code) ::
                     (k in entries <==> k in old(entries)) && (k in entries ==> entries[k] == old(entries)[k])
    {
      assert Sentinel(code) != Key(code);
      var key, sentinel := Key(code), Sentinel(code);
      hide Key, Sentinel;
      var added := AddNew(sentinel, One, now);
      if !added {
        return None;
      }
      data := if key in entries && now < entries[key].expires then Some(entries[key].value) else None;
      entries := entries - {key};
    }
  }
}
