/** Runs of an instance whose engines share one live-session limiter: reservations, spawns,
    turns and sessions that end by themselves, in any order. */
module LiveSessionRuns {
  import opened Text
  import opened LiveSessions
  import opened Sets

  /** The caps are fixed: one per engine and one for the instance; 0 or less means none. */
  datatype Caps = Caps(perEngine: seq<int>, max: int)

  /** Both caps leave room for one more process of engine `e`. */
  predicate Below(caps: Caps, ms: seq<Sessions>, e: nat)
    requires e < |ms| == |caps.perEngine|
  {
    && (caps.perEngine[e] > 0 ==> LiveCount(ms[e]) < caps.perEngine[e])
    && (caps.max > 0 ==> TotalLive(ms) < caps.max)
  }

  ghost predicate WithinCaps(caps: Caps, ms: seq<Sessions>) {
    && |ms| == |caps.perEngine|
    && (forall i :: 0 <= i < |ms| ==> caps.perEngine[i] > 0 ==> LiveCount(ms[i]) <= caps.perEngine[i])
    && (caps.max > 0 ==> TotalLive(ms) <= caps.max)
  }

  datatype Step =
    | Poll(evicted: nat)
    | Start(e: nat, key: string, session: Session, evicted: nat, reserved: seq<Sessions>)
    | Replace(e: nat, key: string, session: Session)
    | Exit(e: nat, key: string, left: Option<Session>)
    | Begin(e: nat, key: string, now: int)
    | End(e: nat, key: string, now: int)
    | Touch(e: nat, key: string, session: Session)

  /** Prompts, queues, locks and tokens come and go; identity, process, turns and the time of the
      last turn stay. */
  predicate SameProcess(s: Session, t: Session) {
    && t.id == s.id && t.alive == s.alive && t.stopped == s.stopped
    && t.turnsInFlight == s.turnsInFlight && t.lastActivity == s.lastActivity
  }

  /** One step of an instance. Poll: an attempt to get a slot that is not granted, or not used.
      Start: a granted reservation, directly followed by the spawn it was made for. Replace: a
      live process is closed for one that fits its own key better. Exit: the process of a key
      ends, or none comes up; what is left under the key, if anything, is not live. Begin, End,
      Touch: turns and other activity of one session. */
  ghost predicate Next(caps: Caps, before: seq<Sessions>, after: seq<Sessions>, step: Step) {
    && |before| == |after| == |caps.perEngine|
    && match step
       case Poll(n) => Shrunk(before, after, n)
       case Start(e, key, s, n, mid) =>
         && e < |before| && s.Live()
         && Shrunk(before, mid, n) && Below(caps, mid, e)
         && after == mid[e := mid[e][key := s]]
       case Replace(e, key, s) =>
         e < |before| && key in LiveKeys(before[e]) && after == before[e := before[e][key := s]]
       case Exit(e, key, left) =>
         && e < |before| && (left.Some? ==> !left.value.Live())
         && after == before[e := if left.None? then before[e] - {key} else before[e][key := left.value]]
       case Begin(e, key, now) =>
         e < |before| && key in before[e] && after == before[e := before[e][key := Begun(before[e][key], now)]]
       case End(e, key, now) =>
         e < |before| && key in before[e] && after == before[e := before[e][key := Ended(before[e][key], now)]]
       case Touch(e, key, s) =>
         && e < |before| && key in before[e] && SameProcess(before[e][key], s)
         && after == before[e := before[e][key := s]]
  }

  ghost predicate IsRun(caps: Caps, states: seq<seq<Sessions>>, steps: seq<Step>) {
    && |states| == |steps| + 1
    && forall i :: 0 <= i < |steps| ==> Next(caps, states[i], states[i + 1], steps[i])
  }

  lemma {:induction false} TotalShrinks(before: seq<Sessions>, after: seq<Sessions>)
    requires |before| == |after|
    requires forall i :: 0 <= i < |before| ==> LiveKeys(after[i]) <= LiveKeys(before[i])
    ensures TotalLive(after) <= TotalLive(before)
  {
    if before != [] {
      SubsetSize(LiveKeys(after[0]), LiveKeys(before[0]));
      TotalShrinks(before[1..], after[1..]);
    }
  }

  lemma {:induction false} TotalUpdate(ms: seq<Sessions>, e: nat, m: Sessions)
    requires e < |ms|
    ensures TotalLive(ms[e := m]) == TotalLive(ms) - LiveCount(ms[e]) + LiveCount(m)
  {
    if e == 0 {
      assert ms[e := m][1..] == ms[1..];
    } else {
      assert ms[e := m][1..] == ms[1..][e - 1 := m];
      TotalUpdate(ms[1..], e - 1, m);
    }
  }

  lemma LiveCountAdd(m: Sessions, key: string, s: Session)
    ensures LiveCount(m[key := s]) <= LiveCount(m) + 1
  {
    SubsetSize(LiveKeys(m[key := s]), LiveKeys(m) + {key});
  }

  lemma OnlyIdleShrinks(before: Sessions, after: Sessions)
    requires OnlyIdleClosed(before, after)
    ensures LiveKeys(after) <= LiveKeys(before) && LiveCount(after) <= LiveCount(before)
  {
    SubsetSize(LiveKeys(after), LiveKeys(before));
  }

  lemma ShrunkWithin(caps: Caps, before: seq<Sessions>, after: seq<Sessions>, n: nat)
    requires WithinCaps(caps, before) && Shrunk(before, after, n)
    ensures WithinCaps(caps, after)
  {
    hide TotalLive;
    forall i | 0 <= i < |before|
      ensures LiveCount(after[i]) <= LiveCount(before[i])
    {
      OnlyIdleShrinks(before[i], after[i]);
    }
  }

  /** No process is spawned: the live ones are among those before, or take their place. */
  ghost predicate Quiet(before: seq<Sessions>, after: seq<Sessions>) {
    |before| == |after| && forall i :: 0 <= i < |before| ==> LiveKeys(after[i]) <= LiveKeys(before[i])
  }

  lemma QuietWithin(caps: Caps, before: seq<Sessions>, after: seq<Sessions>)
    requires WithinCaps(caps, before) && Quiet(before, after)
    ensures WithinCaps(caps, after)
  {
    TotalShrinks(before, after);
    hide TotalLive;
    forall i | 0 <= i < |before|
      ensures LiveCount(after[i]) <= LiveCount(before[i])
    {
      QuietCount(before, after, i);
    }
  }

  lemma QuietCount(before: seq<Sessions>, after: seq<Sessions>, i: nat)
    requires Quiet(before, after) && i < |before|
    ensures LiveCount(after[i]) <= LiveCount(before[i])
  {
    SubsetSize(LiveKeys(after[i]), LiveKeys(before[i]));
  }

  lemma OtherStepsQuiet(caps: Caps, before: seq<Sessions>, after: seq<Sessions>, step: Step)
    requires Next(caps, before, after, step) && !step.Poll? && !step.Start?
    ensures Quiet(before, after)
  {
    hide TotalLive;
    assert forall i :: 0 <= i < |before| && i != step.e ==> after[i] == before[i];
    assert LiveKeys(after[step.e]) <= LiveKeys(before[step.e]);
  }

  /** Every step keeps both caps. */
  lemma NextWithin(caps: Caps, before: seq<Sessions>, after: seq<Sessions>, step: Step)
    requires WithinCaps(caps, before) && Next(caps, before, after, step)
    ensures WithinCaps(caps, after)
  {
    if step.Poll? {
      hide TotalLive;
      ShrunkWithin(caps, before, after, step.evicted);
    } else if step.Start? {
      hide TotalLive;
      var e, key, s, mid := step.e, step.key, step.session, step.reserved;
      ShrunkWithin(caps, before, mid, step.evicted);
      TotalUpdate(mid, e, mid[e][key := s]);
      LiveCountAdd(mid[e], key, s);
    } else {
      hide *;
      OtherStepsQuiet(caps, before, after, step);
      QuietWithin(caps, before, after);
    }
  }

  /** In every run that starts within the caps, neither cap is ever exceeded. */
  lemma {:induction false} CapsNeverExceeded(caps: Caps, states: seq<seq<Sessions>>, steps: seq<Step>, i: nat)
    requires IsRun(caps, states, steps) && WithinCaps(caps, states[0]) && i < |states|
    ensures WithinCaps(caps, states[i])
  {
    if i > 0 {
      CapsNeverExceeded(caps, states, steps, i - 1);
      NextWithin(caps, states[i - 1], states[i], steps[i - 1]);
    }
  }

  // ----- sessions in a turn

  /** The step ends or replaces the process of this very key. */
  predicate Own(step: Step, e: nat, key: string) {
    (step.Start? || step.Replace? || step.Exit?) && step.e == e && step.key == key
  }

  /** How many turns of the session end in the steps from `i` to `j`. */
  function Ends(steps: seq<Step>, i: nat, j: nat, e: nat, key: string): nat
    requires i <= j <= |steps|
  {
    if i == j then 0
    else Ends(steps, i, j - 1, e, key) + if steps[j - 1].End? && steps[j - 1].e == e && steps[j - 1].key == key then 1 else 0
  }

  /** The same process, with at most `ended` turns less. */
  predicate StillRuns(s: Session, t: Session, ended: nat) {
    && t.id == s.id && t.alive == s.alive && t.stopped == s.stopped
    && t.turnsInFlight + ended >= s.turnsInFlight
  }

  /** Making room closes only idle sessions, so no step but its own takes a session away that
      has a turn in flight. */
  lemma StepKeepsTurn(caps: Caps, before: seq<Sessions>, after: seq<Sessions>, step: Step, e: nat, key: string)
    requires Next(caps, before, after, step) && !Own(step, e, key)
    requires e < |before| && key in before[e] && before[e][key].turnsInFlight > 0
    ensures e < |after| && key in after[e]
    ensures StillRuns(before[e][key], after[e][key], if step.End? && step.e == e && step.key == key then 1 else 0)
  {
    hide TotalLive, LiveCount, Below;
    if step.Poll? || step.Start? {
      var made := if step.Poll? then after else step.reserved;
      assert OnlyIdleClosed(before[e], made[e]);
    } else {
      assert e != step.e ==> after[e] == before[e];
    }
  }

  /** In every run, whatever other sessions and the limiter do: as long as fewer of its turns
      have ended than were in flight, a session is there, is the same, with the same process,
      and is busy, so that it is not evicted. */
  lemma {:induction false} BusySessionsKept(
      caps: Caps, states: seq<seq<Sessions>>, steps: seq<Step>, i: nat, j: nat, e: nat, key: string)
    requires IsRun(caps, states, steps) && i <= j < |states| && e < |states[i]| && key in states[i][e]
    requires forall k :: i <= k < j ==> !Own(steps[k], e, key)
    requires Ends(steps, i, j, e, key) < states[i][e][key].turnsInFlight
    ensures e < |states[j]| && key in states[j][e]
    ensures StillRuns(states[i][e][key], states[j][e][key], Ends(steps, i, j, e, key))
    ensures states[j][e][key].Busy() && !Evictable(states[j][e], key)
  {
    hide Next, Own;
    if i < j {
      BusySessionsKept(caps, states, steps, i, j - 1, e, key);
      StepKeepsTurn(caps, states[j - 1], states[j], steps[j - 1], e, key);
    }
  }

  /** In particular from the step that begins a turn until that turn ends. */
  lemma TurnKeepsSession(
      caps: Caps, states: seq<seq<Sessions>>, steps: seq<Step>, i: nat, j: nat, e: nat, key: string, now: int)
    requires IsRun(caps, states, steps) && i < j < |states| && steps[i] == Begin(e, key, now)
    requires e < |states[i]| && key in states[i][e]
    requires forall k :: i < k < j ==> !Own(steps[k], e, key)
    requires Ends(steps, i + 1, j, e, key) <= states[i][e][key].turnsInFlight
    ensures e < |states[j]| && key in states[j][e] && states[j][e][key].id == states[i][e][key].id
    ensures states[j][e][key].Live() == states[i][e][key].Live() && states[j][e][key].Busy()
  {
    hide Own, Ends;
    assert Next(caps, states[i], states[i + 1], steps[i]);
    BusySessionsKept(caps, states, steps, i + 1, j, e, key);
  }

  // ----- the limiter's methods take such steps

  ghost function PerEngineCaps(es: seq<Engine>): (r: seq<int>)
    reads es`maxLiveSessions
    ensures |r| == |es| && forall i :: 0 <= i < |es| ==> r[i] == es[i].maxLiveSessions
  {
    if es == [] then [] else [es[0].maxLiveSessions] + PerEngineCaps(es[1..])
  }

  ghost function CapsOf(e: Engine): Caps
    reads e`liveLimiter, e.liveLimiter, e.Scope()`maxLiveSessions
  {
    Caps(PerEngineCaps(e.Scope()), if e.liveLimiter == null then 0 else e.liveLimiter.max)
  }

  /** An engine is one of its own scope. */
  lemma IndexOf(e: Engine) returns (i: nat)
    requires e.Attached()
    ensures i < |e.Scope()| && e.Scope()[i] == e
    ensures forall j :: 0 <= j < |e.Scope()| && j != i ==> e.Scope()[j] != e
  {
    i :| 0 <= i < |e.Scope()| && e.Scope()[i] == e;
  }

  lemma NotFullBelow(e: Engine, i: nat)
    requires e.Attached() && i < |e.Scope()| && e.Scope()[i] == e
    requires !e.LocalFull() && !e.GlobalFull()
    ensures Below(CapsOf(e), Views(e.Scope()), i)
  {
  }

  // What a wait for a slot is woken by.
  datatype Wake = Tick | Deadline | Stopped

  datatype Answer = Reserved | GaveUp | StillWaiting

  /** The first attempt of reserveLiveSessionSlot. `spawn`: the key has no live process yet, or
      no cap applies, so the reservation is for a new one. */
  method Reserve(e: Engine, key: string, ghost i: nat) returns (ok: bool, spawn: bool, ghost evicted: nat)
    requires e.Attached() && i < |e.Scope()| && e.Scope()[i] == e
    modifies e.Scope()`sessions
    ensures Shrunk(old(Views(e.Scope())), Views(e.Scope()), evicted)
    ensures ok && spawn ==> Below(CapsOf(e), Views(e.Scope()), i)
    ensures ok && !spawn ==> key in LiveKeys(e.sessions)
    ensures old(!e.LocalFull() && !e.GlobalFull()) ==> ok && forall e' :: e' in e.Scope() ==> e'.sessions == old(e'.sessions)
    ensures old(key !in e.sessions) ==> spawn
  {
    hide TotalLive, Shrunk, LiveCount, Below, Views, CapsOf;
    var globalMax := if e.liveLimiter == null then 0 else e.liveLimiter.max;
    if e.maxLiveSessions <= 0 && globalMax <= 0 {
      ShrunkRefl(Views(e.Scope()));
      NotFullBelow(e, i);
      return true, true, 0;
    }
    ok, spawn, evicted := Attempt(e, key, i);
  }

  method Attempt(e: Engine, key: string, ghost i: nat) returns (ok: bool, spawn: bool, ghost evicted: nat)
    requires e.Attached() && i < |e.Scope()| && e.Scope()[i] == e
    modifies e.Scope()`sessions
    ensures Shrunk(old(Views(e.Scope())), Views(e.Scope()), evicted)
    ensures ok && spawn ==> Below(CapsOf(e), Views(e.Scope()), i)
    ensures ok && !spawn ==> key in LiveKeys(e.sessions)
    ensures old(!e.LocalFull() && !e.GlobalFull()) ==> ok && forall e' :: e' in e.Scope() ==> e'.sessions == old(e'.sessions)
    ensures old(key !in e.sessions) ==> spawn
  {
    hide TotalLive, Shrunk, LiveCount, Below, Views, CapsOf;
    var live := e.IsLiveSession(key);
    if live {
      ShrunkRefl(Views(e.Scope()));
      return true, false, 0;
    }
    ok, evicted := e.LiveSlotAvailable(key);
    if ok { NotFullBelow(e, i); }
    return ok, true, evicted;
  }

  /** Other goroutines do anything to the sessions. */
  method Elsewhere(e: Engine) returns (ghost after: seq<Sessions>)
    modifies e.Scope()`sessions
    ensures after == Views(e.Scope()) && Shrunk(after, after, 0)
  {
    modify e.Scope()`sessions;
    after := Views(e.Scope());
    ShrunkRefl(after);
  }

  /** reserveLiveSessionSlot with its waiting loop: `wakes` is what the wait is woken by, and
      between two attempts other goroutines may do anything to the sessions. `from` is the state
      the last attempt was made in. */
  method ReserveLiveSessionSlot(e: Engine, key: string, wakes: seq<Wake>, ghost i: nat)
      returns (answer: Answer, spawn: bool, ghost from: seq<Sessions>, ghost evicted: nat)
    requires e.Attached() && i < |e.Scope()| && e.Scope()[i] == e
    modifies e.Scope()`sessions
    ensures Shrunk(from, Views(e.Scope()), evicted)
    ensures answer == Reserved && spawn ==> Below(CapsOf(e), Views(e.Scope()), i)
    ensures answer == Reserved && !spawn ==> key in LiveKeys(e.sessions)
    ensures answer == GaveUp ==> exists k :: 0 <= k < |wakes| && wakes[k] != Tick && forall l :: 0 <= l < k ==> wakes[l] == Tick
    ensures answer == StillWaiting ==> forall k :: 0 <= k < |wakes| ==> wakes[k] == Tick
  {
    hide TotalLive, Shrunk, LiveCount, LiveKeys, Below, Views, CapsOf, Engine.LocalFull, Engine.GlobalFull;
    from := Views(e.Scope());
    var ok;
    ok, spawn, evicted := Reserve(e, key, i);
    if ok { return Reserved, spawn, from, evicted; }
    for n := 0 to |wakes|
      invariant forall k :: 0 <= k < n ==> wakes[k] == Tick
      invariant Shrunk(from, Views(e.Scope()), evicted)
    {
      from := Elsewhere(e);
      evicted := 0;
      if wakes[n] != Tick { return GaveUp, false, from, 0; }
      ok, spawn, evicted := Attempt(e, key, i);
      if ok { return Reserved, spawn, from, evicted; }
    }
    answer := StillWaiting;
  }

  /** What a spawn leaves under its key: a state with the new process and the time of its start,
      or without either if the agent did not start; messages queued before are taken over. */
  function NewState(id: nat, started: bool, before: Sessions, key: string, now: int): Session {
    Session(id, started, false, 0, true, false, if key in before then before[key].queued else 0, false, 0, if started then now else 0)
  }

  /** A state that no turn has used yet. */
  ghost predicate IsNewState(s: Session, id: nat, started: bool, queued: nat, now: int) {
    && s.id == id && s.alive == started && !s.stopped && s.turnsInFlight == 0 && s.queued == queued
    && (started ==> s.lastActivity == now)
  }

  lemma NewStateLive(id: nat, started: bool, before: Sessions, key: string, now: int)
    ensures var s := NewState(id, started, before, key, now);
      && s.Live() == started && IsNewState(s, id, started, if key in before then before[key].queued else 0, now)
  {
  }

  lemma PollRun(caps: Caps, from: seq<Sessions>, mid: seq<Sessions>, n: nat)
    requires Shrunk(from, mid, n) && |from| == |caps.perEngine|
    ensures IsRun(caps, [from, mid], [Poll(n)])
  {
    ShrunkLength(from, mid, n);
    hide Shrunk;
  }

  lemma RunThen(caps: Caps, states: seq<seq<Sessions>>, steps: seq<Step>, after: seq<Sessions>, step: Step)
    requires IsRun(caps, states, steps) && Next(caps, states[|steps|], after, step)
    ensures IsRun(caps, states + [after], steps + [step])
  {
    hide Next;
    var t, p := states + [after], steps + [step];
    forall k | 0 <= k < |p|
      ensures Next(caps, t[k], t[k + 1], p[k])
    {
      if k < |steps| { assert Next(caps, states[k], states[k + 1], steps[k]); }
    }
  }

  lemma StartRun(caps: Caps, from: seq<Sessions>, mid: seq<Sessions>, n: nat, e: nat, key: string, s: Session)
    requires Shrunk(from, mid, n) && |from| == |caps.perEngine| && e < |mid| == |from|
    requires Below(caps, mid, e) && s.Live()
    ensures IsRun(caps, [from, mid[e := mid[e][key := s]]], [Start(e, key, s, n, mid)])
  {
    hide Shrunk, Below;
  }

  lemma ViewsAre(e: Engine, i: nat, mid: seq<Sessions>, m: Sessions)
    requires i < |e.Scope()| == |mid| && e.Scope()[i] == e && e.sessions == m
    requires forall j :: 0 <= j < |mid| && j != i ==> e.Scope()[j].sessions == mid[j]
    ensures Views(e.Scope()) == mid[i := m]
  {
  }

  lemma ShrunkLength(from: seq<Sessions>, mid: seq<Sessions>, n: nat)
    requires Shrunk(from, mid, n)
    ensures |from| == |mid|
  {
    hide TotalLive, OnlyIdleClosed;
  }

  lemma CapsLength(e: Engine)
    ensures |CapsOf(e).perEngine| == |e.Scope()|
  {
  }

  /** What the spawn made of the state after the last attempt, as steps. */
  lemma SpawnRun(caps: Caps, from: seq<Sessions>, mid: seq<Sessions>, n: nat, e: nat, key: string, s: Session, spawn: bool)
      returns (states: seq<seq<Sessions>>, steps: seq<Step>)
    requires Shrunk(from, mid, n) && |from| == |caps.perEngine| && e < |mid|
    requires s.Live() ==> if spawn then Below(caps, mid, e) else key in LiveKeys(mid[e])
    ensures IsRun(caps, states, steps) && states[|steps|] == mid[e := mid[e][key := s]]
    ensures !s.Live() ==> forall p :: p in steps ==> !p.Start? && !p.Replace?
    ensures forall p :: p in steps && (p.Start? || p.Replace?) ==> p.session == s
  {
    hide Shrunk, Below, LiveKeys, IsRun;
    ShrunkLength(from, mid, n);
    var after := mid[e := mid[e][key := s]];
    if s.Live() && spawn {
      states, steps := [from, after], [Start(e, key, s, n, mid)];
      StartRun(caps, from, mid, n, e, key, s);
    } else {
      var step := if s.Live() then Replace(e, key, s) else Exit(e, key, Some(s));
      states, steps := [from, mid] + [after], [Poll(n)] + [step];
      PollRun(caps, from, mid, n);
      RunThen(caps, [from, mid], [Poll(n)], after, step);
    }
  }

  /** A reservation directly followed by what it was made for is a run of the steps above, from
      the last attempt on. `mismatch`: the live process does not serve the conversation wanted
      and has to be replaced; `starts`: the agent comes up. */
  method GetOrCreate(e: Engine, key: string, wakes: seq<Wake>, id: nat, mismatch: bool, starts: bool, now: int)
      returns (answer: Answer, ghost states: seq<seq<Sessions>>, ghost steps: seq<Step>)
    requires e.Attached()
    modifies e.Scope()`sessions
    ensures IsRun(CapsOf(e), states, steps) && states[|steps|] == Views(e.Scope())
    ensures answer == Reserved && starts ==> key in e.sessions && e.sessions[key].alive
    ensures answer != Reserved ==> forall p :: p in steps ==> !p.Start? && !p.Replace?
    ensures forall p :: p in steps && (p.Start? || p.Replace?) ==> p.session.lastActivity == now
  {
    hide TotalLive, Shrunk, LiveCount, LiveKeys, Below, Views, CapsOf, PerEngineCaps, IsRun, Engine.LocalFull, Engine.GlobalFull;
    ghost var i := IndexOf(e);
    ghost var from, n;
    var spawn;
    answer, spawn, from, n := ReserveLiveSessionSlot(e, key, wakes, i);
    states, steps := Settle(e, key, answer, spawn, from, n, i, id, mismatch, starts, now);
  }

  /** What a reservation was made for, once it is answered: a live process that is not to be
      replaced stays, and otherwise the key gets a new state, which takes over the messages
      queued in a placeholder but none of a process it replaces. */
  method Settle(
      e: Engine, key: string, answer: Answer, spawn: bool, ghost from: seq<Sessions>, ghost n: nat, ghost i: nat,
      id: nat, mismatch: bool, starts: bool, now: int)
      returns (ghost states: seq<seq<Sessions>>, ghost steps: seq<Step>)
    requires e.Attached() && i < |e.Scope()| && e.Scope()[i] == e && Shrunk(from, Views(e.Scope()), n)
    requires answer == Reserved ==> if spawn then Below(CapsOf(e), Views(e.Scope()), i) else key in LiveKeys(e.sessions)
    modifies e`sessions
    ensures IsRun(CapsOf(e), states, steps) && states[|steps|] == Views(e.Scope())
    ensures answer == Reserved && starts ==> key in e.sessions && e.sessions[key].alive
    ensures answer != Reserved ==> forall p :: p in steps ==> !p.Start? && !p.Replace?
    ensures forall p :: p in steps && (p.Start? || p.Replace?) ==> p.session.lastActivity == now
    ensures var m := old(e.sessions); var had := key in m && m[key].alive;
      if answer == StillWaiting || (had && (answer == GaveUp || !mismatch)) then e.sessions == m
      else
        && key in e.sessions && e.sessions == m[key := e.sessions[key]]
        && IsNewState(e.sessions[key], id, starts && answer == Reserved, if key in m && !had then m[key].queued else 0, now)
  {
    hide TotalLive, Shrunk, LiveCount, LiveKeys, Below, Views, CapsOf, PerEngineCaps, IsRun, NewState;
    ghost var mid := Views(e.Scope());
    ShrunkLength(from, mid, n);
    CapsLength(e);
    var existing := key in e.sessions && e.sessions[key].alive;
    if answer == StillWaiting || (existing && (answer == GaveUp || !mismatch)) {
      states, steps := [from, mid], [Poll(n)];
      PollRun(CapsOf(e), from, mid, n);
      return;
    }
    ghost var m := e.sessions;
    if existing && answer == Reserved { e.sessions := e.sessions - {key}; }
    var s := NewState(id, starts && answer == Reserved, e.sessions, key, now);
    NewStateLive(id, starts && answer == Reserved, e.sessions, key, now);
    Install(e, key, s, i, mid);
    assert e.sessions == m[key := s] && e.sessions[key] == s;
    states, steps := SpawnRun(CapsOf(e), from, mid, n, i, key, s, spawn);
  }

  /** The new state takes the place of the old one, if that is still there. */
  method Install(e: Engine, key: string, s: Session, ghost i: nat, ghost mid: seq<Sessions>)
    requires e.Attached() && i < |e.Scope()| == |mid| && e.Scope()[i] == e
    requires forall j :: 0 <= j < |mid| && j != i ==> e.Scope()[j].sessions == mid[j]
    requires e.sessions == mid[i] || e.sessions == mid[i] - {key}
    modifies e`sessions
    ensures e.sessions == mid[i][key := s] && Views(e.Scope()) == mid[i := mid[i][key := s]]
  {
    hide Views;
    e.sessions := e.sessions[key := s];
    assert e.sessions == mid[i][key := s];
    ViewsAre(e, i, mid, mid[i][key := s]);
  }

  /** Why a spawn must directly follow its own reservation: of two reservations for new keys
      both are granted the last slot, and after both spawns the instance is over its cap. */
  method InterleavedReservationsOvershoot(e: Engine, k1: string, k2: string, s: Session) returns (ok1: bool, ok2: bool)
    requires e.Attached() && e.liveLimiter != null && e.liveLimiter.max > 0 && s.Live()
    requires TotalLive(Views(e.Scope())) == e.liveLimiter.max - 1 && !e.LocalFull()
    requires k1 != k2 && k1 !in e.sessions && k2 !in e.sessions
    modifies e.Scope()`sessions
    ensures ok1 && ok2 && TotalLive(Views(e.Scope())) == e.liveLimiter.max + 1
    ensures !WithinCaps(CapsOf(e), Views(e.Scope()))
  {
    hide *;
    ghost var i := IndexOf(e);
    ghost var before := Views(e.Scope());
    ghost var n1, n2;
    var spawn1, spawn2;
    NotGlobalFull(e);
    ok1, spawn1, n1 := Reserve(e, k1, i);
    SameViews(e, before);
    NotGlobalFull(e);
    ok2, spawn2, n2 := Reserve(e, k2, i);
    SameViews(e, before);
    SpawnTwo(e, i, before, k1, k2, s);
    TwoMore(before, i, k1, k2, s);
    OverCap(CapsOf(e), Views(e.Scope()));
    CapsMax(e);
  }

  lemma NotGlobalFull(e: Engine)
    requires e.liveLimiter != null && TotalLive(Views(e.Scope())) < e.liveLimiter.max
    ensures !e.GlobalFull()
  {
    hide TotalLive, Views;
  }

  lemma SameViews(e: Engine, before: seq<Sessions>)
    requires |before| == |e.Scope()| && forall j :: 0 <= j < |before| ==> e.Scope()[j].sessions == before[j]
    ensures Views(e.Scope()) == before
  {
  }

  /** Both spawns, one after the other. */
  method SpawnTwo(e: Engine, ghost i: nat, ghost before: seq<Sessions>, k1: string, k2: string, s: Session)
    requires i < |e.Scope()| && e.Scope()[i] == e && Views(e.Scope()) == before
    requires forall j :: 0 <= j < |e.Scope()| && j != i ==> e.Scope()[j] != e
    modifies e`sessions
    ensures |before| == |e.Scope()| && Views(e.Scope()) == before[i := before[i][k1 := s][k2 := s]]
  {
    hide TotalLive, LiveCount, LiveKeys;
    e.sessions := e.sessions[k1 := s];
    e.sessions := e.sessions[k2 := s];
    ViewsAre(e, i, before, before[i][k1 := s][k2 := s]);
  }

  lemma CapsMax(e: Engine)
    ensures CapsOf(e).max == if e.liveLimiter == null then 0 else e.liveLimiter.max
  {
    hide PerEngineCaps;
  }

  lemma OverCap(caps: Caps, ms: seq<Sessions>)
    ensures caps.max > 0 && TotalLive(ms) > caps.max ==> !WithinCaps(caps, ms)
  {
    hide TotalLive, LiveCount;
  }

  lemma TwoMore(ms: seq<Sessions>, e: nat, k1: string, k2: string, s: Session)
    requires e < |ms| && k1 != k2 && k1 !in ms[e] && k2 !in ms[e] && s.Live()
    ensures TotalLive(ms[e := ms[e][k1 := s][k2 := s]]) == TotalLive(ms) + 2
  {
    var m := ms[e][k1 := s][k2 := s];
    assert LiveKeys(m) == LiveKeys(ms[e]) + {k1, k2};
    TotalUpdate(ms, e, m);
  }

  // ----- an instance before it serves anything

  function Clamped(n: int): int {
    if n < 0 then 0 else n
  }

  lemma {:induction false} NoneLive(ms: seq<Sessions>)
    requires forall i :: 0 <= i < |ms| ==> ms[i] == map[]
    ensures TotalLive(ms) == 0
  {
    if ms != [] {
      NoneLive(ms[1..]);
      assert LiveKeys(ms[0]) == {};
    }
  }

  /** Engines without sessions that share a new limiter: every one is attached, and the caps,
      where negative ones count as none, are kept. */
  method NewInstance(perEngine: seq<int>, max: int) returns (l: LiveSessionLimiter, es: seq<Engine>)
    ensures l.Valid() && l.engines == es && |es| == |perEngine|
    ensures forall e :: e in es ==> e.liveLimiter == l && e.Attached() && e.sessions == map[]
    ensures forall i :: 0 <= i < |es| ==> es[i].maxLiveSessions == Clamped(perEngine[i])
    ensures forall e :: e in es ==> CapsOf(e).max == Clamped(max) && WithinCaps(CapsOf(e), Views(es))
  {
    hide TotalLive, Views, CapsOf, WithinCaps;
    l := new LiveSessionLimiter(max);
    es := [];
    var i := 0;
    while i < |perEngine|
      invariant i <= |perEngine| && |es| == i
      invariant fresh(l) && l.Valid() && l.engines == es && l.max == Clamped(max)
      invariant forall e :: e in es ==> fresh(e) && e.liveLimiter == l && e.sessions == map[]
      invariant forall k :: 0 <= k < i ==> es[k].maxLiveSessions == Clamped(perEngine[k])
    {
      var e := new Engine();
      e.SetMaxLiveAgentSessions(perEngine[i]);
      e.SetLiveSessionLimiter(l);
      es := es + [e];
      i := i + 1;
    }
    forall e | e in es
      ensures CapsOf(e).max == Clamped(max) && WithinCaps(CapsOf(e), Views(es))
    {
      EmptyWithin(e, es);
    }
  }

  lemma EmptyWithin(e: Engine, es: seq<Engine>)
    requires e.Scope() == es && forall x :: x in es ==> x.sessions == map[]
    ensures CapsOf(e).max == (if e.liveLimiter == null then 0 else e.liveLimiter.max) && WithinCaps(CapsOf(e), Views(es))
  {
    NoneLive(Views(es));
    assert forall i :: 0 <= i < |es| ==> LiveKeys(Views(es)[i]) == {};
    hide TotalLive;
  }
}
