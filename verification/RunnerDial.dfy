/** The cache of runner connections and the dial behind it (internal/runnerdial/runnerdial.go). */
module RunnerDial {
  import opened Records

  type Conn = nat

  /** What becomes of an attempt to dial the runner's service. */
  datatype Attempt = Connected | NoTerminators | AuthFailure | OtherFailure | Cancelled

  const MAX_ATTEMPTS := 5
  const INITIAL_BACKOFF: Time := SECOND / 2
  const MAX_BACKOFF: Time := 10 * SECOND

  /** An attempt after which the dial is over, whatever follows. */
  predicate IsFinal(a: Attempt) {
    a.Connected? || a.NoTerminators? || a.Cancelled?
  }

  function Power(n: nat): nat {
    if n == 0 then 1 else 2 * Power(n - 1)
  }

  /** How many of the attempts failed for other reasons than authentication. */
  function Others(attempts: seq<Attempt>): nat {
    if attempts == [] then 0
    else Others(attempts[..|attempts| - 1]) + if attempts[|attempts| - 1].OtherFailure? then 1 else 0
  }

  lemma OthersStep(attempts: seq<Attempt>, k: nat)
    requires k < |attempts|
    ensures Others(attempts[..k + 1]) == Others(attempts[..k]) + if attempts[k].OtherFailure? then 1 else 0
  {
    assert attempts[..k + 1][..k] == attempts[..k];
  }

  lemma {:induction false} OthersBound(attempts: seq<Attempt>)
    ensures Others(attempts) <= |attempts|
    decreases |attempts|
  {
    if attempts != [] {
      OthersBound(attempts[..|attempts| - 1]);
    }
  }

  lemma {:induction false} PowerGrows(m: nat, n: nat)
    requires m <= n
    ensures 1 <= Power(m) <= Power(n)
    decreases n
  {
    if m < n {
      PowerGrows(m, n - 1);
    } else if m > 0 {
      PowerGrows(m - 1, n - 1);
    }
  }

  /**
   * Dials until an attempt succeeds, finds no terminators or is cancelled, at most five times; attempts
   * are the outcomes in store. After a failure to authenticate the next attempt comes at once. After any
   * other the dial waits, twice as long each time, so that the waits add up to one less than a power of
   * two, never more than seven and a half seconds.
   */
  method DialWithRetry(attempts: seq<Attempt>) returns (ok: bool, made: nat, waited: Time)
    requires |attempts| == MAX_ATTEMPTS
    ensures 1 <= made <= 5
    ensures ok <==> attempts[made - 1].Connected?
    ensures forall j :: 0 <= j < made - 1 ==> attempts[j] in {AuthFailure, OtherFailure}
    ensures made < 5 ==> attempts[made - 1] in {Connected, NoTerminators, Cancelled}
    ensures waited == (Power(Others(attempts[..made - 1])) - 1) * (SECOND / 2) <= 15 * (SECOND / 2)
  {
    var backoff := INITIAL_BACKOFF;
    made, waited := 0, 0;
    assert HasWaited(attempts, 0, backoff, 0);
    hide HasWaited;
    while made < MAX_ATTEMPTS
      invariant made <= MAX_ATTEMPTS
      invariant forall j :: 0 <= j < made ==> !IsFinal(attempts[j])
      invariant made < MAX_ATTEMPTS ==> HasWaited(attempts, made, backoff, waited)
      invariant made == MAX_ATTEMPTS ==> HasWaited(attempts, made - 1, backoff, waited)
    {
      var attempt := attempts[made];
      WaitedStep(attempts, made, backoff, waited);
      made := made + 1;
      if IsFinal(attempt) {
        WaitedTotal(attempts, made - 1, backoff, waited);
        return attempt.Connected?, made, waited;
      }
      if attempt.AuthFailure? {
        continue;
      }
      if made == MAX_ATTEMPTS {
        break;
      }
      waited := waited + backoff;
      backoff := if 2 * backoff > MAX_BACKOFF then MAX_BACKOFF else 2 * backoff;
    }
    WaitedTotal(attempts, MAX_ATTEMPTS - 1, backoff, waited);
    ok := false;
  }

  /** Before attempt made, the dial has waited for each failure of the other kind, and has the next wait ready. */
  ghost predicate HasWaited(attempts: seq<Attempt>, made: nat, backoff: Time, waited: Time) {
    && made <= |attempts|
    && backoff == Power(Others(attempts[..made])) * INITIAL_BACKOFF && waited == backoff - INITIAL_BACKOFF
  }

  /** Up to the fifth attempt the backoff stays below its cap. */
  lemma WaitedStep(attempts: seq<Attempt>, made: nat, backoff: Time, waited: Time)
    requires made < MAX_ATTEMPTS == |attempts| && HasWaited(attempts, made, backoff, waited)
    ensures attempts[made].OtherFailure? && made + 1 < MAX_ATTEMPTS ==>
      2 * backoff <= MAX_BACKOFF && HasWaited(attempts, made + 1, 2 * backoff, waited + backoff)
    ensures !attempts[made].OtherFailure? ==> HasWaited(attempts, made + 1, backoff, waited)
  {
    OthersStep(attempts, made);
    if made + 1 < MAX_ATTEMPTS {
      OthersBound(attempts[..made]);
      PowerGrows(Others(attempts[..made]), 3);
      assert Power(3) == 2 * Power(2) == 4 * Power(1) == 8;
    }
  }

  lemma WaitedTotal(attempts: seq<Attempt>, made: nat, backoff: Time, waited: Time)
    requires made < MAX_ATTEMPTS && HasWaited(attempts, made, backoff, waited)
    ensures made <= |attempts|
    ensures waited == (Power(Others(attempts[..made])) - 1) * INITIAL_BACKOFF <= 15 * INITIAL_BACKOFF
  {
    OthersBound(attempts[..made]);
    PowerGrows(Others(attempts[..made]), 4);
    assert Power(4) == 2 * Power(3) == 4 * Power(2) == 8 * Power(1) == 16;
  }

  /** What the lock guards, with the connections that are closed and those that are bad: closed or failing. */
  datatype Cache = Cache(conns: map<Id, Conn>, closed: set<Conn>, bad: set<Conn>) {
    function Closing(cs: set<Conn>): Cache {
      Cache(conns, closed + cs, bad + cs)
    }

    predicate HasGood(runner: Id) {
      runner in conns && conns[runner] !in bad
    }

    /** The connection cached for the runner, if any. */
    function Cached(runner: Id): set<Conn> {
      if runner in conns then {conns[runner]} else {}
    }
  }

  /** The cached connection, unless it is bad; a bad one is dropped and closed. */
  function Looked(cache: Cache, runner: Id): (Cache, Option<Conn>) {
    if cache.HasGood(runner) then (cache, Some(cache.conns[runner]))
    else (cache.Closing(cache.Cached(runner)).(conns := cache.conns - {runner}), None)
  }

  /** A good connection cached in the meantime wins and the new one is closed; a bad one is replaced and closed. */
  function Stored(cache: Cache, runner: Id, c: Conn): (Cache, Conn) {
    if cache.HasGood(runner) then (cache.Closing({c}), cache.conns[runner])
    else (cache.Closing(cache.Cached(runner)).(conns := cache.conns[runner := c]), c)
  }

  class Dialer {
    var conns: map<Id, Conn>
    var closed: set<Conn>
    var bad: set<Conn>

    ghost function Now(): Cache
      reads this
    {
      Cache(conns, closed, bad)
    }

    method CloseConn(c: Conn)
      modifies `closed, `bad
      ensures Now() == old(Now()).Closing({c})
    {
      closed, bad := closed + {c}, bad + {c};
    }

    /** Under the lock. */
    method Connection(runner: Id) returns (c: Option<Conn>)
      modifies this
      ensures (Now(), c) == Looked(old(Now()), runner)
    {
      if runner !in conns {
        assert conns - {runner} == conns && closed + {} == closed && bad + {} == bad;
        return None;
      }
      var found := conns[runner];
      if found in bad {
        conns := conns - {runner};
        CloseConn(found);
        return None;
      }
      return Some(found);
    }

    /** Under the lock. */
    method StoreConnection(runner: Id, c: Conn) returns (winner: Conn)
      modifies this
      ensures (Now(), winner) == Stored(old(Now()), runner, c)
    {
      if runner in conns && conns[runner] !in bad {
        CloseConn(c);
        return conns[runner];
      }
      assert closed + {} == closed && bad + {} == bad;
      if runner in conns {
        CloseConn(conns[runner]);
      }
      conns := conns[runner := c];
      return c;
    }

    /** One call, with nothing in between: a good cached connection, or the one the dial yields. */
    method Dial(runner: Id, dialled: Option<Conn>) returns (r: Result<Conn>)
      requires dialled.Some? ==> dialled.value !in bad && dialled.value !in conns.Values
      modifies this
      ensures r.Err? <==> runner == "" || (!old(Now()).HasGood(runner) && dialled.None?)
      ensures r.Ok? ==> Now().HasGood(runner) && conns[runner] == r.value
      ensures runner == "" || old(Now()).HasGood(runner) ==> Now() == old(Now())
      ensures r.Err? && runner != "" ==> Now() == Looked(old(Now()), runner).0
      ensures r.Ok? && !old(Now()).HasGood(runner) ==>
        Now() == Stored(Looked(old(Now()), runner).0, runner, dialled.value).0
    {
      if runner == "" {
        return Err;
      }
      var c := Connection(runner);
      if c.Some? {
        return Ok(c.value);
      }
      if dialled.None? {
        return Err;
      }
      var winner := StoreConnection(runner, dialled.value);
      r := Ok(winner);
    }
  }

  /** Where a call of Dial is: about to look, dialling, holding a connection it has not stored yet, or done. */
  datatype Phase =
    | Looking(runner: Id)
    | Dialling(runner: Id)
    | Holding(runner: Id, conn: Conn)
    | Done(result: Option<Conn>)

  /** closing holds the connections that Close has taken out of the cache and not closed yet. */
  datatype State = State(cache: Cache, dialled: map<Conn, Id>, closing: set<Conn>, calls: map<nat, Phase>)

  const INITIAL := State(Cache(map[], {}, {}), map[], {}, map[])

  datatype Event =
    | Call(call: nat, runner: Id)
    | Look(call: nat)
    | Dialled(call: nat, conn: Conn)
    | DialFailed(call: nat)
    | Store(call: nat)
    | Weather(bad: set<Conn>)   // connections fail and recover; closed ones stay bad
    | Close                     // the cache is emptied
    | CloseOne(conn: Conn)      // and its connections are closed one by one

  ghost predicate Step(s: State, e: Event, t: State) {
    match e
    case Call(call, runner) => call !in s.calls && t == s.(calls := s.calls[call := Looking(runner)])
    case Look(call) =>
      && call in s.calls && s.calls[call].Looking?
      && var (cache, found) := Looked(s.cache, s.calls[call].runner);
         var phase := if found.Some? then Done(found) else Dialling(s.calls[call].runner);
         t == s.(cache := cache, calls := s.calls[call := phase])
    case Dialled(call, c) =>
      && call in s.calls && s.calls[call].Dialling? && c !in s.dialled
      && t == s.(dialled := s.dialled[c := s.calls[call].runner],
          calls := s.calls[call := Holding(s.calls[call].runner, c)])
    case DialFailed(call) => call in s.calls && s.calls[call].Dialling? && t == s.(calls := s.calls[call := Done(None)])
    case Store(call) =>
      && call in s.calls && s.calls[call].Holding?
      && var (cache, winner) := Stored(s.cache, s.calls[call].runner, s.calls[call].conn);
         t == s.(cache := cache, calls := s.calls[call := Done(Some(winner))])
    case Weather(bad) => s.cache.closed <= bad && t == s.(cache := s.cache.(bad := bad))
    case Close => t == s.(cache := s.cache.(conns := map[]), closing := s.closing + s.cache.conns.Values)
    case CloseOne(c) => c in s.closing && t == s.(cache := s.cache.Closing({c}), closing := s.closing - {c})
  }

  ghost predicate IsRun(run: seq<State>, events: seq<Event>) {
    && |run| == |events| + 1 && run[0] == INITIAL
    && forall k :: 0 <= k < |events| ==> Step(run[k], events[k], run[k + 1])
  }

  predicate IsHeld(s: State, c: Conn) {
    exists call :: call in s.calls && s.calls[call].Holding? && s.calls[call].conn == c
  }

  predicate IsCached(s: State, c: Conn) {
    exists runner :: runner in s.cache.conns && s.cache.conns[runner] == c
  }

  /** Cached, held, closed, or on its way to being closed: exactly one of them. */
  predicate IsAccountedFor(s: State, c: Conn) {
    if c in s.cache.closed then !IsCached(s, c) && !IsHeld(s, c) && c !in s.closing
    else if c in s.closing then !IsCached(s, c) && !IsHeld(s, c)
    else IsCached(s, c) != IsHeld(s, c)
  }

  /** Connections are cached for the runner they were dialled for, and no two calls hold the same one. */
  ghost predicate IsOrderly(s: State) {
    && (forall runner :: runner in s.cache.conns ==>
      s.cache.conns[runner] in s.dialled && s.dialled[s.cache.conns[runner]] == runner)
    && (forall call :: call in s.calls && s.calls[call].Holding? ==>
          s.calls[call].conn in s.dialled && s.dialled[s.calls[call].conn] == s.calls[call].runner)
    && (forall a, b :: a in s.calls && b in s.calls && s.calls[a].Holding? && s.calls[b].Holding? ==>
          s.calls[a].conn == s.calls[b].conn ==> a == b)
    && s.cache.closed <= s.cache.bad && s.cache.closed <= s.dialled.Keys && s.closing <= s.dialled.Keys
  }

  ghost predicate Invariant(s: State) {
    IsOrderly(s) && forall c :: c in s.dialled ==> IsAccountedFor(s, c)
  }

  /** The connections of a call do not depend on where the other calls are, as long as they hold none. */
  lemma CallMoves(s: State, t: State, call: nat, to: Phase)
    requires Invariant(s) && t == s.(calls := s.calls[call := to]) && !to.Holding?
    requires call in s.calls ==> !s.calls[call].Holding?
    ensures Invariant(t)
  {
    forall c | c in t.dialled ensures IsAccountedFor(t, c) {
      assert IsAccountedFor(s, c);
      assert IsHeld(t, c) <==> IsHeld(s, c) by {
        if IsHeld(s, c) {
          var other :| other in s.calls && s.calls[other].Holding? && s.calls[other].conn == c;
          assert t.calls[other] == s.calls[other];
        }
      }
      assert IsCached(t, c) <==> IsCached(s, c);
    }
  }

  /** Looking drops and closes a bad connection. */
  lemma LookKeepsInvariant(s: State, runner: Id)
    requires Invariant(s)
    ensures Invariant(s.(cache := Looked(s.cache, runner).0))
  {
    var t := s.(cache := Looked(s.cache, runner).0);
    forall c | c in t.dialled ensures IsAccountedFor(t, c) {
      assert IsAccountedFor(s, c);
      assert IsHeld(t, c) <==> IsHeld(s, c);
      if IsCached(s, c) && !(runner in s.cache.conns && s.cache.conns[runner] == c) {
        var other :| other in s.cache.conns && s.cache.conns[other] == c;
        assert t.cache.conns[other] == c;
      }
      if runner in s.cache.conns && s.cache.conns[runner] == c {
        assert IsCached(s, c);
      }
    }
  }

  lemma DialledKeepsInvariant(s: State, t: State, call: nat, c: Conn)
    requires Invariant(s) && Step(s, Dialled(call, c), t)
    ensures Invariant(t)
  {
    assert !IsCached(s, c) && !IsHeld(s, c);
    forall d | d in t.dialled ensures IsAccountedFor(t, d) {
      assert d != c ==> IsAccountedFor(s, d);
      assert IsCached(t, d) <==> IsCached(s, d);
      if d == c {
        assert t.calls[call].conn == c;
      } else if IsHeld(s, d) {
        var other :| other in s.calls && s.calls[other].Holding? && s.calls[other].conn == d;
        assert t.calls[other] == s.calls[other];
      }
    }
  }

  /** Storing puts the held connection in the cache or closes it. */
  lemma StoreKeepsInvariant(s: State, t: State, call: nat)
    requires Invariant(s) && Step(s, Store(call), t)
    ensures Invariant(t)
  {
    var runner, c := s.calls[call].runner, s.calls[call].conn;
    assert IsHeld(s, c) && IsAccountedFor(s, c);
    forall d | d in t.dialled ensures IsAccountedFor(t, d) {
      assert IsAccountedFor(s, d);
      HeldElsewhere(s, t, call, d);
      CachedElsewhere(s, t, runner, d);
    }
  }

  lemma HeldElsewhere(s: State, t: State, call: nat, d: Conn)
    requires IsOrderly(s) && call in s.calls && s.calls[call].Holding?
    requires call in t.calls && !t.calls[call].Holding? && t.calls == s.calls[call := t.calls[call]]
    ensures IsHeld(t, d) <==> IsHeld(s, d) && d != s.calls[call].conn
  {
    if IsHeld(s, d) {
      var other :| other in s.calls && s.calls[other].Holding? && s.calls[other].conn == d;
      if d != s.calls[call].conn {
        assert t.calls[other] == s.calls[other];
      }
    }
  }

  lemma CachedElsewhere(s: State, t: State, runner: Id, d: Conn)
    requires IsOrderly(s) && runner in t.cache.conns && t.cache.conns == s.cache.conns[runner := t.cache.conns[runner]]
    ensures IsCached(t, d) <==> d == t.cache.conns[runner] || (IsCached(s, d) && d !in s.cache.Cached(runner))
  {
    if IsCached(s, d) && d !in s.cache.Cached(runner) {
      var other :| other in s.cache.conns && s.cache.conns[other] == d;
      assert t.cache.conns[other] == d;
    }
    assert t.cache.conns[runner] == t.cache.conns[runner];
  }

  lemma CloseKeepsInvariant(s: State, e: Event, t: State)
    requires Invariant(s) && (e.Close? || e.CloseOne? || e.Weather?) && Step(s, e, t)
    ensures Invariant(t)
  {
    forall d | d in t.dialled ensures IsAccountedFor(t, d) {
      assert IsAccountedFor(s, d);
      assert IsHeld(t, d) <==> IsHeld(s, d);
      assert IsCached(s, d) <==> d in s.cache.conns.Values;
      assert !e.Close? ==> (IsCached(t, d) <==> IsCached(s, d));
    }
  }

  lemma StepKeepsInvariant(s: State, e: Event, t: State)
    requires Invariant(s) && Step(s, e, t)
    ensures Invariant(t)
  {
    match e {
      case Call(call, runner) => CallMoves(s, t, call, Looking(runner));
      case Look(call) =>
        LookKeepsInvariant(s, s.calls[call].runner);
        CallMoves(s.(cache := Looked(s.cache, s.calls[call].runner).0), t, call, t.calls[call]);
      case Dialled(call, c) => DialledKeepsInvariant(s, t, call, c);
      case DialFailed(call) => CallMoves(s, t, call, Done(None));
      case Store(call) => StoreKeepsInvariant(s, t, call);
      case _ => CloseKeepsInvariant(s, e, t);
    }
  }

  /** In every interleaving every connection ever dialled is accounted for: none is lost, none is in two places. */
  lemma {:induction false} NoConnectionLost(run: seq<State>, events: seq<Event>, k: nat)
    requires IsRun(run, events) && k < |run|
    ensures Invariant(run[k])
    decreases k
  {
    if k > 0 {
      NoConnectionLost(run, events, k - 1);
      StepKeepsInvariant(run[k - 1], events[k - 1], run[k - 1 + 1]);
    }
  }

  /** Once no call is under way and everything taken out has been closed, what is not cached is closed. */
  lemma QuietMeansCachedOrClosed(run: seq<State>, events: seq<Event>, k: nat, c: Conn)
    requires IsRun(run, events) && k < |run| && c in run[k].dialled
    requires run[k].closing == {} && forall call :: call in run[k].calls ==> run[k].calls[call].Done?
    ensures IsCached(run[k], c) != (c in run[k].cache.closed)
  {
    NoConnectionLost(run, events, k);
    assert IsAccountedFor(run[k], c);
  }

  /** A call that stores is given the connection that is then cached for its runner, and that one is not closed. */
  lemma StoreYieldsCached(run: seq<State>, events: seq<Event>, k: nat)
    requires IsRun(run, events) && k < |events| && events[k].Store?
    ensures events[k].call in run[k].calls && events[k].call in run[k + 1].calls
    ensures run[k].calls[events[k].call].Holding?
    ensures var runner, after := run[k].calls[events[k].call].runner, run[k + 1];
      && runner in after.cache.conns && after.calls[events[k].call] == Done(Some(after.cache.conns[runner]))
      && after.cache.conns[runner] !in after.cache.closed
      && after.cache.conns[runner] in after.dialled && after.dialled[after.cache.conns[runner]] == runner
  {
    assert Step(run[k], events[k], run[k + 1]);
    NoConnectionLost(run, events, k + 1);
    var after, runner := run[k + 1], run[k].calls[events[k].call].runner;
    assert IsCached(after, after.cache.conns[runner]);
    assert IsAccountedFor(after, after.cache.conns[runner]);
  }
}
