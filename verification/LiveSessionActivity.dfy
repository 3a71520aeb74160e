/** What decides which session is evicted: when a session was last used, and what keeps it from
    being closed (core/live_sessions.go). */
module LiveSessionActivity {
  import opened Text
  import opened LiveSessions
  import opened LiveSessionRuns

  /** A session can be closed to make room exactly if its process is alive and not stopped, no
      turn runs, no event stream waits for a resync, no permission prompt is open, no message is
      queued, and the conversation is not locked for a turn. */
  lemma IdleIff(m: Sessions, key: string)
    ensures Evictable(m, key) <==>
      && key in m && m[key].alive && !m[key].stopped && m[key].turnsInFlight == 0
      && !m[key].eventsNeedResync && !m[key].pending && m[key].queued == 0 && !m[key].locked
  {
  }

  /** Making room for other sessions leaves every session that is in use just as it is. */
  lemma SessionsInUseStay(caps: Caps, before: seq<Sessions>, after: seq<Sessions>, step: Step, e: nat, key: string)
    requires Next(caps, before, after, step) && (step.Poll? || (step.Start? && (step.e, step.key) != (e, key)))
    requires e < |before| && key in before[e]
    requires var s := before[e][key];
      s.turnsInFlight > 0 || s.eventsNeedResync || s.pending || s.queued > 0 || s.locked
    ensures e < |after| && key in after[e] && after[e][key] == before[e][key]
  {
    hide TotalLive, LiveCount, Below;
    var made := if step.Poll? then after else step.reserved;
    assert OnlyIdleClosed(before[e], made[e]);
  }

  // ----- the last use of a session

  /** When the session under `key` was last used by these steps: when it was spawned, or a turn
      in it began or ended. `start`: its last use before the first of them. */
  function LastUse(start: Option<int>, steps: seq<Step>, e: nat, key: string): Option<int> {
    if steps == [] then start
    else
      var before := LastUse(start, steps[..|steps| - 1], e, key);
      match steps[|steps| - 1]
      case Start(f, k, s, _, _) => if (f, k) == (e, key) then Some(s.lastActivity) else before
      case Replace(f, k, s) => if (f, k) == (e, key) then Some(s.lastActivity) else before
      case Begin(f, k, now) => if (f, k) == (e, key) then Some(now) else before
      case End(f, k, now) => if (f, k) == (e, key) then Some(now) else before
      case _ => before
  }

  function StoredUse(ms: seq<Sessions>, e: nat, key: string): Option<int>
    requires e < |ms|
  {
    if key in ms[e] then Some(ms[e][key].lastActivity) else None
  }

  lemma StepStoresUse(caps: Caps, before: seq<Sessions>, after: seq<Sessions>, step: Step, e: nat, key: string, used: Option<int>)
    requires Next(caps, before, after, step) && e < |before| == |after|
    requires key in LiveKeys(before[e]) ==> StoredUse(before, e, key) == used
    requires key in LiveKeys(after[e])
    ensures StoredUse(after, e, key) == LastUse(used, [step], e, key)
  {
    hide TotalLive, LiveCount, Below;
    assert [step][..0] == [];
    if step.Poll? || step.Start? {
      var made := if step.Poll? then after else step.reserved;
      assert OnlyIdleClosed(before[e], made[e]);
    } else {
      assert e != step.e ==> after[e] == before[e];
    }
  }

  lemma LastUseStep(start: Option<int>, steps: seq<Step>, e: nat, key: string)
    requires steps != []
    ensures LastUse(start, steps, e, key)
         == LastUse(LastUse(start, steps[..|steps| - 1], e, key), [steps[|steps| - 1]], e, key)
  {
    assert [steps[|steps| - 1]][..0] == [];
  }

  /** In every run the time stored with a live session is that of the last step that spawned it,
      or began or ended a turn in it. */
  lemma {:induction false} LastUseStored(caps: Caps, states: seq<seq<Sessions>>, steps: seq<Step>, i: nat, e: nat, key: string)
    requires IsRun(caps, states, steps) && i < |states| && e < |states[0]|
    ensures |states[i]| == |states[0]|
    ensures key in LiveKeys(states[i][e]) ==>
      StoredUse(states[i], e, key) == LastUse(StoredUse(states[0], e, key), steps[..i], e, key)
  {
    if i == 0 {
      assert steps[..0] == [];
    } else {
      LastUseStored(caps, states, steps, i - 1, e, key);
      assert Next(caps, states[i - 1], states[i], steps[i - 1]);
      assert steps[..i][..i - 1] == steps[..i - 1];
      LastUseStep(StoredUse(states[0], e, key), steps[..i], e, key);
      hide Next, LastUse, StoredUse, IsRun, LiveKeys;
      NextLength(caps, states[i - 1], states[i], steps[i - 1]);
      if key in LiveKeys(states[i][e]) {
        StepStoresUse(caps, states[i - 1], states[i], steps[i - 1], e, key, LastUse(StoredUse(states[0], e, key), steps[..i - 1], e, key));
      }
    }
  }

  lemma NextLength(caps: Caps, before: seq<Sessions>, after: seq<Sessions>, step: Step)
    requires Next(caps, before, after, step)
    ensures |after| == |before|
  {
    hide Shrunk, Below;
  }

  lemma UsesStored(caps: Caps, states: seq<seq<Sessions>>, steps: seq<Step>)
    requires IsRun(caps, states, steps)
    ensures var ms := states[|steps|];
      && |ms| == |states[0]|
      && forall e: nat, k :: e < |ms| && Evictable(ms[e], k) ==>
           k in ms[e] && LastUse(StoredUse(states[0], e, k), steps, e, k) == Some(ms[e][k].lastActivity)
  {
    var n, ms := |steps|, states[|steps|];
    RunLength(caps, states, steps, n);
    assert steps[..n] == steps;
    hide IsRun, LastUse;
    forall e: nat, k | e < |ms| && Evictable(ms[e], k)
      ensures LastUse(StoredUse(states[0], e, k), steps, e, k) == Some(ms[e][k].lastActivity)
    {
      LastUseStored(caps, states, steps, n, e, k);
    }
  }

  lemma {:induction false} RunLength(caps: Caps, states: seq<seq<Sessions>>, steps: seq<Step>, i: nat)
    requires IsRun(caps, states, steps) && i < |states|
    ensures |states[i]| == |states[0]|
  {
    if i > 0 {
      RunLength(caps, states, steps, i - 1);
      NextLength(caps, states[i - 1], states[i], steps[i - 1]);
      hide Next;
    }
  }

  /** So what is evicted is, of all idle sessions, the one whose last use lies furthest back in
      the history. `v` is its engine. */
  method EvictLeastRecentlyUsed(l: LiveSessionLimiter, exclude: Engine, excludeKey: string,
      ghost caps: Caps, ghost states: seq<seq<Sessions>>, ghost steps: seq<Step>)
      returns (closed: bool, ghost v: nat, ghost key: string)
    requires l.Valid() && IsRun(caps, states, steps) && states[|steps|] == Views(l.engines)
    modifies l.engines`sessions
    ensures closed ==> v < |l.engines| && LostIdle(old(l.engines[v].sessions), l.engines[v].sessions, key)
    ensures closed ==> forall e :: e in l.engines && e != l.engines[v] ==> e.sessions == old(e.sessions)
    ensures closed ==>
      && |states[0]| == |l.engines|
      && var used := LastUse(StoredUse(states[0], v, key), steps, v, key);
      && used.Some?
      && forall e: nat, k :: e < |l.engines| && Evictable(old(l.engines[e].sessions), k) && k != Skip(l.engines[e], exclude, excludeKey) ==>
           var other := LastUse(StoredUse(states[0], e, k), steps, e, k);
           other.Some? && used.value <= other.value
    ensures !closed ==> forall e :: e in l.engines ==> NoneIdle(e.sessions, Skip(e, exclude, excludeKey)) && e.sessions == old(e.sessions)
  {
    hide *;
    ghost var ms := Views(l.engines);
    UsesStored(caps, states, steps);
    ghost var victim;
    closed, victim := l.EvictLRU(exclude, excludeKey);
    v, key := 0, "";
    if closed {
      v :| v < |l.engines| && l.engines[v] == victim.value.engine;
      key := victim.value.key;
      LostWasIdle(ms[v], l.engines[v].sessions, key);
    }
  }

  lemma LostWasIdle(before: Sessions, after: Sessions, key: string)
    requires LostIdle(before, after, key)
    ensures Evictable(before, key) && key in before
  {
  }
}
