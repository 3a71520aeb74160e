/** The cap on live agent processes and the eviction of idle sessions that makes room under
    it (core/live_sessions.go). A session state is a value with an identity; closing an idle
    session is one atomic step. */
module LiveSessions {
  import opened Text

  datatype Session = Session(
    id: nat, alive: bool, stopped: bool,
    turnsInFlight: nat, eventsNeedResync: bool, pending: bool, queued: nat, locked: bool,
    token: nat, lastActivity: int)
  {
    predicate Live() {
      alive && !stopped
    }

    predicate Busy() {
      turnsInFlight > 0 || eventsNeedResync || pending || queued > 0 || locked
    }
  }

  type Sessions = map<string, Session>

  function LiveKeys(m: Sessions): set<string> {
    set k | k in m && m[k].Live()
  }

  ghost function LiveAmong(m: Sessions, keys: set<string>): set<string>
    requires keys <= m.Keys
  {
    set k | k in keys && m[k].Live()
  }

  lemma LiveAmongOneMore(m: Sessions, keys: set<string>, key: string)
    requires keys <= m.Keys && key in m && key !in keys
    ensures |LiveAmong(m, keys + {key})| == |LiveAmong(m, keys)| + if m[key].Live() then 1 else 0
  {
    assert LiveAmong(m, keys + {key}) == LiveAmong(m, keys) + if m[key].Live() then {key} else {};
  }

  function LiveCount(m: Sessions): nat {
    |LiveKeys(m)|
  }

  function TotalLive(ms: seq<Sessions>): nat {
    if ms == [] then 0 else LiveCount(ms[0]) + TotalLive(ms[1..])
  }

  predicate Evictable(m: Sessions, key: string) {
    key in m && m[key].Live() && !m[key].Busy()
  }

  /** The state `id` is the one stored under its key. */
  predicate Holds(m: Sessions, key: string, id: nat) {
    key in m && m[key].id == id
  }

  function Begun(s: Session, now: int): Session {
    s.(turnsInFlight := s.turnsInFlight + 1, lastActivity := now)
  }

  function Ended(s: Session, now: int): Session {
    s.(turnsInFlight := if s.turnsInFlight > 0 then s.turnsInFlight - 1 else 0, lastActivity := now)
  }

  predicate BusyBetweenTurns(s: Session) {
    s.eventsNeedResync || s.pending || s.queued > 0 || s.locked
  }

  /** A snapshot of an idle session, taken before it is closed. */
  datatype Candidate = Candidate(engine: Engine, key: string, id: nat, token: nat, lastActivity: int)

  /** The close succeeds: same state object, same token, still live and idle. */
  predicate Closable(m: Sessions, c: Candidate) {
    Evictable(m, c.key) && m[c.key].id == c.id && m[c.key].token == c.token
  }

  function Snapshot(e: Engine, key: string, s: Session): Candidate {
    Candidate(e, key, s.id, s.token, s.lastActivity)
  }

  /** Nothing but idle live sessions was closed, and nothing else changed. */
  predicate OnlyIdleClosed(before: Sessions, after: Sessions) {
    && (forall k :: k in after ==> k in before && after[k] == before[k])
    && (forall k :: k in before && k !in after ==> Evictable(before, k))
  }

  /** The sessions of each attached engine. */
  ghost function Views(es: seq<Engine>): (r: seq<Sessions>)
    reads es
    ensures |r| == |es| && forall i :: 0 <= i < |es| ==> r[i] == es[i].sessions
  {
    if es == [] then [] else [es[0].sessions] + Views(es[1..])
  }

  /** No session but `skip` could be evicted. */
  predicate NoneIdle(m: Sessions, skip: string) {
    forall k :: k in m && Evictable(m, k) ==> k == skip
  }

  /** `m` lost exactly the idle session `key`. */
  predicate LostIdle(before: Sessions, after: Sessions, key: string) {
    Evictable(before, key) && after == before - {key}
  }

  class LiveSessionLimiter {
    var max: int
    var engines: seq<Engine>

    ghost predicate Valid()
      reads this
    {
      forall i, j :: 0 <= i < j < |engines| ==> engines[i] != engines[j]
    }

    constructor (max: int)
      ensures Valid() && engines == [] && this.max == if max < 0 then 0 else max
    {
      this.max, engines := if max < 0 then 0 else max, [];
    }

    method Attach(e: Engine)
      requires Valid()
      modifies this`engines
      ensures Valid() && e in engines
      ensures engines == if e in old(engines) then old(engines) else old(engines) + [e]
    {
      var i := 0;
      while i < |engines|
        invariant i <= |engines| && e !in engines[..i]
      {
        if engines[i] == e { return; }
        i := i + 1;
      }
      assert engines[..i] == engines;
      engines := engines + [e];
    }

    method LiveCount() returns (n: nat)
      ensures n == TotalLive(Views(engines))
    {
      n := 0;
      var i := 0;
      while i < |engines|
        invariant i <= |engines| && n + TotalLive(Views(engines[i..])) == TotalLive(Views(engines))
      {
        assert engines[i..][1..] == engines[i + 1..];
        var k := engines[i].LiveSessionCount();
        n := n + k;
        i := i + 1;
      }
    }

    /** Closes the least recently active idle session of all engines except (exclude, excludeKey). */
    method EvictLRU(exclude: Engine, excludeKey: string) returns (closed: bool, ghost victim: Option<Candidate>)
      requires Valid()
      modifies engines`sessions
      ensures Shrunk(old(Views(engines)), Views(engines), if closed then 1 else 0)
      ensures closed == victim.Some?
      ensures closed ==>
        var c := victim.value;
        && c.engine in engines && c.key != Skip(c.engine, exclude, excludeKey)
        && LostIdle(old(c.engine.sessions), c.engine.sessions, c.key)
        && c.lastActivity == old(c.engine.sessions)[c.key].lastActivity
        && forall e, k :: e in engines && k in old(e.sessions) && Evictable(old(e.sessions), k) && k != Skip(e, exclude, excludeKey)
             ==> c.lastActivity <= old(e.sessions)[k].lastActivity
      ensures !closed ==> forall e :: e in engines ==>
        NoneIdle(e.sessions, Skip(e, exclude, excludeKey)) && e.sessions == old(e.sessions)
      ensures closed ==> forall e :: e in engines && e != victim.value.engine ==> e.sessions == old(e.sessions)
    {
      ghost var before := Views(engines);
      ShrunkRefl(before);
      closed, victim := EvictOldestOf(exclude, excludeKey);
      hide TotalLive, OnlyIdleClosed, Shrunk, Evictable, NoneIdle;
      if closed {
        OneLess(engines, before, victim.value.engine, victim.value.key);
      } else {
        assert Views(engines) == before;
      }
    }

    method EvictOldestOf(exclude: Engine, excludeKey: string) returns (closed: bool, ghost victim: Option<Candidate>)
      modifies engines`sessions
      ensures closed == victim.Some?
      ensures closed ==>
        var c := victim.value;
        && c.engine in engines && c.key != Skip(c.engine, exclude, excludeKey)
        && LostIdle(old(c.engine.sessions), c.engine.sessions, c.key)
        && c.lastActivity == old(c.engine.sessions)[c.key].lastActivity
        && forall e, k :: e in engines && k in old(e.sessions) && Evictable(old(e.sessions), k) && k != Skip(e, exclude, excludeKey)
             ==> c.lastActivity <= old(e.sessions)[k].lastActivity
      ensures !closed ==> forall e :: e in engines ==> NoneIdle(e.sessions, Skip(e, exclude, excludeKey))
      ensures forall e :: e in engines && (!closed || e != victim.value.engine) ==> e.sessions == old(e.sessions)
    {
      var candidates: seq<Candidate> := [];
      var i := 0;
      while i < |engines|
        modifies {}
        invariant i <= |engines|
        invariant forall c :: c in candidates <==>
          c.engine in engines[..i] && Offered(c, Skip(c.engine, exclude, excludeKey))
      {
        var e := engines[i];
        var skip := "";
        if e == exclude {
          skip := excludeKey;
        }
        var more := e.IdleEvictionCandidates(skip);
        assert forall c :: c in more <==> c.engine == e && Offered(c, skip);
        assert engines[..i + 1] == engines[..i] + [e];
        candidates := candidates + more;
        i := i + 1;
      }
      assert engines[..i] == engines;
      forall e, k | e in engines && k in e.sessions && Evictable(e.sessions, k) && k != Skip(e, exclude, excludeKey)
        ensures Snapshot(e, k, e.sessions[k]) in candidates
      {
        assert Offered(Snapshot(e, k, e.sessions[k]), Skip(e, exclude, excludeKey));
      }
      assert forall e :: e in EnginesOf(candidates) ==> e in engines;
      closed, victim := EvictOldest(candidates);
      if closed {
        forall e, k | e in engines && k in old(e.sessions) && Evictable(old(e.sessions), k) && k != Skip(e, exclude, excludeKey)
          ensures victim.value.lastActivity <= old(e.sessions)[k].lastActivity
        {
          var d := Snapshot(e, k, old(e.sessions)[k]);
          assert d in candidates && Closable(old(e.sessions), d);
        }
      }
    }
  }

  /** `c` is the up-to-date snapshot of an idle session other than `skip`. */
  ghost predicate Offered(c: Candidate, skip: string)
    reads c.engine
  {
    Evictable(c.engine.sessions, c.key) && c.key != skip && c == Snapshot(c.engine, c.key, c.engine.sessions[c.key])
  }

  /** The key an engine leaves out: the excluded one in the excluded engine, else "". */
  function Skip(e: Engine, exclude: Engine, excludeKey: string): string {
    if e == exclude then excludeKey else ""
  }

  class Engine {
    var sessions: Sessions
    var maxLiveSessions: int
    var liveLimiter: LiveSessionLimiter?

    constructor ()
      ensures sessions == map[] && maxLiveSessions == 0 && liveLimiter == null
    {
      sessions, maxLiveSessions, liveLimiter := map[], 0, null;
    }

    /** Attaches the instance-wide limiter to this engine. */
    method SetLiveSessionLimiter(l: LiveSessionLimiter?)
      requires l != null ==> l.Valid()
      modifies this`liveLimiter, if l == null then {} else {l}
      ensures liveLimiter == l && Attached()
      ensures l != null ==> l.max == old(l.max) && l.engines == if this in old(l.engines) then old(l.engines) else old(l.engines) + [this]
    {
      liveLimiter := l;
      if l != null { l.Attach(this); }
    }

    method SetMaxLiveAgentSessions(n: int)
      modifies this`maxLiveSessions
      ensures maxLiveSessions == if n < 0 then 0 else n
    {
      maxLiveSessions := if n < 0 then 0 else n;
    }

    /** A turn begins in the state `id`, which may have been replaced under its key meanwhile.
        From then on the session is busy and no candidate for it can be closed. */
    method BeginTurn(key: string, id: nat, now: int)
      modifies this`sessions
      ensures Holds(old(sessions), key, id) ==>
        && sessions == old(sessions)[key := Begun(old(sessions)[key], now)]
        && sessions[key].turnsInFlight == old(sessions)[key].turnsInFlight + 1 && sessions[key].lastActivity == now
        && sessions[key].Busy() && !Evictable(sessions, key)
        && forall c: Candidate :: c.key == key ==> !Closable(sessions, c)
      ensures !Holds(old(sessions), key, id) ==> sessions == old(sessions)
    {
      if key in sessions && sessions[key].id == id {
        var s := sessions[key];
        sessions := sessions[key := s.(turnsInFlight := s.turnsInFlight + 1, lastActivity := now)];
      }
    }

    /** The turn ends; the session is idle again exactly if it was the last one and nothing else
        keeps it busy. */
    method EndTurn(key: string, id: nat, now: int)
      modifies this`sessions
      ensures Holds(old(sessions), key, id) ==>
        && sessions == old(sessions)[key := Ended(old(sessions)[key], now)]
        && sessions[key].turnsInFlight == (if old(sessions)[key].turnsInFlight > 0 then old(sessions)[key].turnsInFlight - 1 else 0)
        && sessions[key].lastActivity == now
        && (sessions[key].Busy() <==> old(sessions)[key].turnsInFlight > 1 || BusyBetweenTurns(old(sessions)[key]))
      ensures !Holds(old(sessions), key, id) ==> sessions == old(sessions)
    {
      if key in sessions && sessions[key].id == id {
        var s := sessions[key];
        if s.turnsInFlight > 0 {
          s := s.(turnsInFlight := s.turnsInFlight - 1);
        }
        sessions := sessions[key := s.(lastActivity := now)];
      }
    }

    method LiveSessionCount() returns (n: nat)
      ensures n == LiveCount(sessions)
    {
      n := 0;
      var keys := sessions.Keys;
      ghost var seen: set<string> := {};
      while keys != {}
        invariant keys + seen == sessions.Keys && keys !! seen
        invariant n == |LiveAmong(sessions, seen)|
        decreases |keys|
      {
        var key :| key in keys;
        keys := keys - {key};
        LiveAmongOneMore(sessions, seen, key);
        seen := seen + {key};
        if sessions[key].Live() {
          n := n + 1;
        }
      }
      assert seen == sessions.Keys && LiveAmong(sessions, seen) == LiveKeys(sessions);
    }

    method IsLiveSession(key: string) returns (live: bool)
      ensures live <==> key in LiveKeys(sessions)
    {
      live := key in sessions && sessions[key].Live();
    }

    /** Snapshots every live, idle session except `skipKey`, in no particular order. */
    method IdleEvictionCandidates(skipKey: string) returns (out: seq<Candidate>)
      ensures forall c :: c in out <==> c.engine == this && Offered(c, skipKey)
    {
      out := [];
      var keys := sessions.Keys;
      while keys != {}
        invariant keys <= sessions.Keys
        invariant forall c :: c in out <==> c.key !in keys && c.engine == this && Offered(c, skipKey)
        decreases |keys|
      {
        var key :| key in keys;
        keys := keys - {key};
        if key != skipKey && sessions[key].Live() && !sessions[key].Busy() {
          out := out + [Snapshot(this, key, sessions[key])];
        }
      }
    }

    method EvictSession(c: Candidate) returns (closed: bool)
      modifies this`sessions
      ensures closed == Closable(old(sessions), c)
      ensures sessions == if closed then old(sessions) - {c.key} else old(sessions)
    {
      closed := false;
      if c.key in sessions {
        var s := sessions[c.key];
        if s.id == c.id && s.token == c.token && s.Live() && !s.Busy() {
          sessions := sessions - {c.key};
          closed := true;
        }
      }
    }

    /** Closes the least recently active idle session of this engine except `excludeKey`. */
    method EvictLocalLRU(excludeKey: string) returns (closed: bool, ghost key: string)
      modifies this`sessions
      ensures closed ==>
        && key != excludeKey && LostIdle(old(sessions), sessions, key)
        && forall k :: k in old(sessions) && Evictable(old(sessions), k) && k != excludeKey
             ==> old(sessions)[key].lastActivity <= old(sessions)[k].lastActivity
      ensures !closed ==> sessions == old(sessions) && NoneIdle(sessions, excludeKey)
    {
      var candidates := IdleEvictionCandidates(excludeKey);
      forall k | k in sessions && Evictable(sessions, k) && k != excludeKey
        ensures Snapshot(this, k, sessions[k]) in candidates
      {
        assert Offered(Snapshot(this, k, sessions[k]), excludeKey);
      }
      assert EnginesOf(candidates) <= {this};
      ghost var victim;
      closed, victim := EvictOldest(candidates);
      key := "";
      if closed {
        key := victim.value.key;
        forall k | k in old(sessions) && Evictable(old(sessions), k) && k != excludeKey
          ensures victim.value.lastActivity <= old(sessions)[k].lastActivity
        {
          var d := Snapshot(this, k, old(sessions)[k]);
          assert d in candidates && Closable(old(sessions), d);
        }
      }
    }

    ghost function Scope(): seq<Engine>
      reads this`liveLimiter, liveLimiter
    {
      if liveLimiter == null then [this] else liveLimiter.engines
    }

    ghost predicate Attached()
      reads this`liveLimiter, liveLimiter
    {
      liveLimiter != null ==> liveLimiter.Valid() && this in liveLimiter.engines
    }

    ghost predicate LocalFull()
      reads this
    {
      maxLiveSessions > 0 && LiveCount(sessions) >= maxLiveSessions
    }

    ghost predicate GlobalFull()
      reads this, liveLimiter, if liveLimiter == null then [] else liveLimiter.engines
    {
      liveLimiter != null && liveLimiter.max > 0 && TotalLive(Views(liveLimiter.engines)) >= liveLimiter.max
    }

    /** Makes room under this engine's own cap by closing at most one session. */
    method LocalRound(sessionKey: string) returns (r: Verdict)
      requires Attached()
      modifies Scope()`sessions
      ensures Shrunk(old(Views(Scope())), Views(Scope()), if r == Evicted then 1 else 0)
      ensures sessionKey in old(sessions) ==> sessionKey in sessions
      ensures r != Evicted ==> forall e :: e in Scope() ==> e.sessions == old(e.sessions)
      ensures r == Granted <==> !old(LocalFull())
      ensures r == Granted ==> !LocalFull()
      ensures r == Refused ==> LocalFull() && NoneIdle(sessions, sessionKey)
    {
      assert this in Scope();
      ShrunkRefl(Views(Scope()));
      hide TotalLive, LiveCount, OnlyIdleClosed, Shrunk, Evictable, NoneIdle, Offered, Views;
      var count := LiveSessionCount();
      if !(maxLiveSessions > 0 && count >= maxLiveSessions) { return Granted; }
      var closed := EvictHere(sessionKey);
      return if closed then Evicted else Refused;
    }

    /** The same eviction, seen from the instance. */
    method EvictHere(sessionKey: string) returns (closed: bool)
      requires Attached()
      modifies this`sessions
      ensures Shrunk(old(Views(Scope())), Views(Scope()), if closed then 1 else 0)
      ensures sessionKey in old(sessions) ==> sessionKey in sessions
      ensures !closed ==> sessions == old(sessions) && NoneIdle(sessions, sessionKey)
    {
      ghost var before := Views(Scope());
      assert this in Scope();
      ShrunkRefl(before);
      hide TotalLive, LiveCount, OnlyIdleClosed, Shrunk, Evictable, NoneIdle, Offered, Views;
      ghost var key;
      closed, key := EvictLocalLRU(sessionKey);
      if closed {
        OneLess(Scope(), before, this, key);
      } else {
        assert Views(Scope()) == before;
      }
    }

    /** Makes room under the instance-wide cap by closing at most one session. */
    method GlobalRound(sessionKey: string) returns (r: Verdict)
      requires Attached()
      modifies Scope()`sessions
      ensures Shrunk(old(Views(Scope())), Views(Scope()), if r == Evicted then 1 else 0)
      ensures sessionKey in old(sessions) ==> sessionKey in sessions
      ensures r != Evicted ==> forall e :: e in Scope() ==> e.sessions == old(e.sessions)
      ensures r == Granted <==> !old(GlobalFull())
      ensures r == Granted ==> !GlobalFull() && forall e :: e in Scope() ==> e.sessions == old(e.sessions)
      ensures r == Refused ==> GlobalFull() && forall e :: e in Scope() ==> NoneIdle(e.sessions, Skip(e, this, sessionKey))
    {
      ShrunkRefl(Views(Scope()));
      hide TotalLive, OnlyIdleClosed, Shrunk, Evictable, NoneIdle, Views, LiveCount, Offered;
      if liveLimiter == null || liveLimiter.max <= 0 { return Granted; }
      var total := liveLimiter.LiveCount();
      if total < liveLimiter.max { return Granted; }
      ghost var victim;
      var closed;
      closed, victim := liveLimiter.EvictLRU(this, sessionKey);
      return if closed then Evicted else Refused;
    }

    /** One attempt: room under this engine's own cap first, then under the instance-wide one. */
    method Round(sessionKey: string) returns (r: Verdict)
      requires Attached()
      modifies Scope()`sessions
      ensures Shrunk(old(Views(Scope())), Views(Scope()), if r == Evicted then 1 else 0)
      ensures sessionKey in old(sessions) ==> sessionKey in sessions
      ensures r == Granted <==> !old(LocalFull()) && !old(GlobalFull())
      ensures r == Granted ==> !LocalFull() && !GlobalFull() && forall e :: e in Scope() ==> e.sessions == old(e.sessions)
      ensures r == Refused ==>
        || (LocalFull() && NoneIdle(sessions, sessionKey))
        || (GlobalFull() && forall e :: e in Scope() ==> NoneIdle(e.sessions, Skip(e, this, sessionKey)))
    {
      hide TotalLive, LiveCount, OnlyIdleClosed, Shrunk, Views, NoneIdle, Evictable, Skip, Offered;
      r := LocalRound(sessionKey);
      if r == Granted { r := GlobalRound(sessionKey); }
    }

    /** Whether one more process for `sessionKey` stays within both caps, after evicting idle
        sessions as needed. `evicted` counts the sessions that were closed. */
    method LiveSlotAvailable(sessionKey: string) returns (ok: bool, ghost evicted: nat)
      requires Attached()
      modifies Scope()`sessions
      ensures Shrunk(old(Views(Scope())), Views(Scope()), evicted) && evicted <= 64
      ensures sessionKey in old(sessions) ==> sessionKey in sessions
      ensures ok ==> !LocalFull() && !GlobalFull()
      ensures old(!LocalFull() && !GlobalFull()) ==> ok && forall e :: e in Scope() ==> e.sessions == old(e.sessions)
      ensures !ok ==>
        || evicted == 64
        || (LocalFull() && NoneIdle(sessions, sessionKey))
        || (GlobalFull() && forall e :: e in Scope() ==> NoneIdle(e.sessions, Skip(e, this, sessionKey)))
    {
      ShrunkRefl(Views(Scope()));
      hide TotalLive, LiveCount, OnlyIdleClosed, Shrunk, Views, NoneIdle, Evictable, Skip, Offered;
      evicted := 0;
      var attempt := 0;
      while attempt < 64
        invariant attempt <= 64 && evicted == attempt
        invariant Shrunk(old(Views(Scope())), Views(Scope()), evicted)
        invariant sessionKey in old(sessions) ==> sessionKey in sessions
        invariant attempt == 0 ==> forall e :: e in Scope() ==> e.sessions == old(e.sessions)
        invariant old(!LocalFull() && !GlobalFull()) ==> attempt == 0
      {
        ghost var before := Views(Scope());
        var r := Round(sessionKey);
        attempt := attempt + 1;
        ShrunkTrans(old(Views(Scope())), before, Views(Scope()), evicted, if r == Evicted then 1 else 0);
        if r == Granted { return true, evicted; }
        if r == Refused { return false, evicted; }
        evicted := evicted + 1;
      }
      return false, evicted;
    }
  }

  datatype Verdict = Granted | Refused | Evicted

  /** Only idle sessions were closed, `n` of them. */
  ghost predicate Shrunk(before: seq<Sessions>, after: seq<Sessions>, n: nat) {
    && |before| == |after| && TotalLive(after) + n == TotalLive(before)
    && forall i :: 0 <= i < |before| ==> OnlyIdleClosed(before[i], after[i])
  }

  lemma ShrunkRefl(a: seq<Sessions>)
    ensures Shrunk(a, a, 0)
  {
  }

  lemma ShrunkTrans(a: seq<Sessions>, b: seq<Sessions>, c: seq<Sessions>, m: nat, n: nat)
    requires Shrunk(a, b, m) && Shrunk(b, c, n)
    ensures Shrunk(a, c, m + n)
  {
    forall i | 0 <= i < |a|
      ensures OnlyIdleClosed(a[i], c[i])
    {
      assert OnlyIdleClosed(a[i], b[i]) && OnlyIdleClosed(b[i], c[i]);
    }
  }

  /** Closing one live session lowers the total by one. */
  lemma OneLess(es: seq<Engine>, before: seq<Sessions>, e: Engine, key: string)
    requires e in es && |before| == |es| && forall i, j :: 0 <= i < j < |es| ==> es[i] != es[j]
    requires forall i :: 0 <= i < |es| && es[i] != e ==> es[i].sessions == before[i]
    requires forall i :: 0 <= i < |es| && es[i] == e ==> LostIdle(before[i], e.sessions, key)
    ensures Shrunk(before, Views(es), 1)
  {
    hide TotalLive, LostIdle, Shrunk;
    var i :| 0 <= i < |es| && es[i] == e;
    assert forall j :: 0 <= j < |es| && j != i ==> es[j] != e;
    ShrunkOne(before, Views(es), i, key);
  }

  lemma ShrunkOne(before: seq<Sessions>, after: seq<Sessions>, i: nat, key: string)
    requires i < |before| == |after| && LostIdle(before[i], after[i], key)
    requires forall j :: 0 <= j < |before| && j != i ==> after[j] == before[j]
    ensures Shrunk(before, after, 1)
  {
    TotalLost(before, after, i, key);
    hide TotalLive, Evictable;
  }

  lemma LiveCountLost(before: Sessions, after: Sessions, key: string)
    requires LostIdle(before, after, key)
    ensures LiveCount(after) + 1 == LiveCount(before)
  {
    assert LiveKeys(after) == LiveKeys(before) - {key};
  }

  lemma {:induction false} TotalLost(before: seq<Sessions>, after: seq<Sessions>, i: nat, key: string)
    requires i < |before| == |after| && LostIdle(before[i], after[i], key)
    requires forall j :: 0 <= j < |before| && j != i ==> after[j] == before[j]
    ensures TotalLive(after) + 1 == TotalLive(before)
  {
    if i == 0 {
      LiveCountLost(before[0], after[0], key);
      assert before[1..] == after[1..];
    } else {
      TotalLost(before[1..], after[1..], i - 1, key);
    }
  }

  function EnginesOf(candidates: seq<Candidate>): set<Engine> {
    set c | c in candidates :: c.engine
  }

  /** Tries candidates from least to most recently active until one close succeeds. The
      candidates may be out of date: they are whatever an earlier snapshot produced. */
  method EvictOldest(candidates: seq<Candidate>) returns (closed: bool, ghost victim: Option<Candidate>)
    modifies EnginesOf(candidates)`sessions
    ensures closed == victim.Some?
    ensures !closed ==> forall c :: c in candidates ==> !Closable(old(c.engine.sessions), c)
    ensures closed ==>
      var c := victim.value;
      && c in candidates && Closable(old(c.engine.sessions), c)
      && c.engine.sessions == old(c.engine.sessions) - {c.key}
      && forall d :: d in candidates && d.lastActivity < c.lastActivity ==> !Closable(old(d.engine.sessions), d)
    ensures forall e :: e in EnginesOf(candidates) && (!closed || e != victim.value.engine) ==> e.sessions == old(e.sessions)
  {
    var rest := candidates;
    while |rest| > 0
      invariant forall c :: c in rest ==> c in candidates
      invariant forall c :: c in candidates ==> c in rest || !Closable(old(c.engine.sessions), c)
      invariant forall e :: e in EnginesOf(candidates) ==> e.sessions == old(e.sessions)
      decreases |rest|
    {
      var oldest := 0;
      var i := 0;
      while i < |rest|
        invariant i <= |rest| && oldest < |rest|
        invariant forall j :: 0 <= j < i ==> rest[oldest].lastActivity <= rest[j].lastActivity
      {
        if rest[i].lastActivity < rest[oldest].lastActivity {
          oldest := i;
        }
        i := i + 1;
      }
      var c := rest[oldest];
      assert c.engine in EnginesOf(candidates);
      closed := c.engine.EvictSession(c);
      if closed {
        return true, Some(c);
      }
      var shorter := rest[..oldest] + rest[oldest + 1..];
      forall d | d in rest && d != c
        ensures d in shorter
      {
        var k :| 0 <= k < |rest| && rest[k] == d;
        assert d == if k < oldest then shorter[k] else shorter[k - 1];
      }
      rest := shorter;
    }
    return false, None;
  }
}
