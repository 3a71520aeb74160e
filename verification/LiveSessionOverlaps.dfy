/** Runs in which reservations and spawns are separate steps, so that several reservations may
    be outstanding at once (core/live_sessions.go, core/engine.go). */
module LiveSessionOverlaps {
  import opened LiveSessions
  import opened LiveSessionRuns

  /** The sessions, and for each engine how many granted reservations still await their spawn. */
  datatype Overlap = Overlap(ms: seq<Sessions>, pending: seq<nat>)

  /** Claim: a reservation is granted. Spawn: one of them is used. Drop: one is given up.
      Other: nothing is spawned. */
  datatype Event =
    | Claim(e: nat, evicted: nat)
    | Spawn(e: nat, key: string, session: Session)
    | Drop(e: nat)
    | Other

  ghost predicate NextOverlap(caps: Caps, a: Overlap, b: Overlap, ev: Event) {
    && |a.ms| == |b.ms| == |a.pending| == |b.pending| == |caps.perEngine|
    && match ev
       case Claim(e, n) =>
         && e < |a.ms| && Shrunk(a.ms, b.ms, n) && Below(caps, b.ms, e)
         && b.pending == a.pending[e := a.pending[e] + 1]
       case Spawn(e, key, s) =>
         && e < |a.ms| && a.pending[e] > 0 && s.Live()
         && b.ms == a.ms[e := a.ms[e][key := s]] && b.pending == a.pending[e := a.pending[e] - 1]
       case Drop(e) =>
         e < |a.ms| && a.pending[e] > 0 && b.ms == a.ms && b.pending == a.pending[e := a.pending[e] - 1]
       case Other => Quiet(a.ms, b.ms) && b.pending == a.pending
  }

  function Sum(ns: seq<nat>): nat {
    if ns == [] then 0 else ns[0] + Sum(ns[1..])
  }

  /** At no time more than `n` reservations are outstanding. */
  ghost predicate IsOverlapRun(caps: Caps, n: nat, states: seq<Overlap>, evs: seq<Event>) {
    && |states| == |evs| + 1
    && (forall i :: 0 <= i < |evs| ==> NextOverlap(caps, states[i], states[i + 1], evs[i]))
    && forall i :: 0 <= i < |states| ==> Sum(states[i].pending) <= n
  }

  lemma {:induction false} SumUpdate(ns: seq<nat>, i: nat, x: nat)
    requires i < |ns|
    ensures Sum(ns[i := x]) == Sum(ns) - ns[i] + x && ns[i] <= Sum(ns)
  {
    if i == 0 {
      assert ns[0 := x][1..] == ns[1..];
    } else {
      assert ns[i := x][1..] == ns[1..][i - 1 := x];
      SumUpdate(ns[1..], i - 1, x);
    }
  }

  /** What is live and what is promised exceeds no cap by `n` or more. */
  ghost predicate Margin(caps: Caps, st: Overlap, n: nat) {
    && |st.ms| == |st.pending| == |caps.perEngine|
    && (forall i :: 0 <= i < |st.ms| ==> caps.perEngine[i] > 0 ==> LiveCount(st.ms[i]) + st.pending[i] < caps.perEngine[i] + n)
    && (caps.max > 0 ==> TotalLive(st.ms) + Sum(st.pending) < caps.max + n)
  }

  lemma ClaimMargin(caps: Caps, a: Overlap, b: Overlap, e: nat, evicted: nat, n: nat)
    requires Margin(caps, a, n) && NextOverlap(caps, a, b, Claim(e, evicted)) && Sum(b.pending) <= n
    ensures Margin(caps, b, n)
  {
    hide TotalLive, LiveCount;
    SumUpdate(b.pending, e, 0);
    forall i | 0 <= i < |a.ms|
      ensures LiveCount(b.ms[i]) <= LiveCount(a.ms[i])
    {
      assert OnlyIdleClosed(a.ms[i], b.ms[i]);
      OnlyIdleShrinks(a.ms[i], b.ms[i]);
    }
  }

  lemma SpawnMargin(caps: Caps, a: Overlap, b: Overlap, e: nat, key: string, s: Session, n: nat)
    requires Margin(caps, a, n) && NextOverlap(caps, a, b, Spawn(e, key, s))
    ensures Margin(caps, b, n)
  {
    hide TotalLive, LiveCount, Sum;
    SumUpdate(a.pending, e, a.pending[e] - 1);
    TotalUpdate(a.ms, e, a.ms[e][key := s]);
    LiveCountAdd(a.ms[e], key, s);
  }

  lemma DropMargin(caps: Caps, a: Overlap, b: Overlap, e: nat, n: nat)
    requires Margin(caps, a, n) && NextOverlap(caps, a, b, Drop(e))
    ensures Margin(caps, b, n)
  {
    hide TotalLive, LiveCount, Sum;
    SumUpdate(a.pending, e, a.pending[e] - 1);
  }

  lemma OtherMargin(caps: Caps, a: Overlap, b: Overlap, n: nat)
    requires Margin(caps, a, n) && NextOverlap(caps, a, b, Other)
    ensures Margin(caps, b, n)
  {
    hide TotalLive, LiveCount, Sum;
    TotalShrinks(a.ms, b.ms);
    forall i | 0 <= i < |a.ms|
      ensures LiveCount(b.ms[i]) <= LiveCount(a.ms[i])
    {
      QuietCount(a.ms, b.ms, i);
    }
  }

  lemma MarginKept(caps: Caps, a: Overlap, b: Overlap, ev: Event, n: nat)
    requires Margin(caps, a, n) && NextOverlap(caps, a, b, ev) && Sum(b.pending) <= n
    ensures Margin(caps, b, n)
  {
    hide *;
    match ev {
      case Claim(e, k) => ClaimMargin(caps, a, b, e, k, n);
      case Spawn(e, key, s) => SpawnMargin(caps, a, b, e, key, s, n);
      case Drop(e) => DropMargin(caps, a, b, e, n);
      case Other => OtherMargin(caps, a, b, n);
    }
  }

  lemma {:induction false} StartMargin(caps: Caps, st: Overlap, n: nat)
    requires WithinCaps(caps, st.ms) && |st.pending| == |st.ms| && Sum(st.pending) == 0 && n >= 1
    ensures Margin(caps, st, n)
  {
    hide TotalLive, LiveCount;
    forall i | 0 <= i < |st.pending|
      ensures st.pending[i] == 0
    {
      SumUpdate(st.pending, i, 0);
    }
  }

  /** With at most `n` reservations outstanding at any time, a run that starts within the caps
      exceeds none of them by `n` or more. With one at a time they are kept. */
  lemma {:induction false} OverlapBound(caps: Caps, n: nat, states: seq<Overlap>, evs: seq<Event>, i: nat)
    requires IsOverlapRun(caps, n, states, evs) && n >= 1 && i < |states|
    requires WithinCaps(caps, states[0].ms) && |states[0].pending| == |states[0].ms| && Sum(states[0].pending) == 0
    ensures Margin(caps, states[i], n)
    ensures caps.max > 0 ==> TotalLive(states[i].ms) <= caps.max + n - 1
  {
    hide Margin, NextOverlap, WithinCaps, Sum, TotalLive;
    if i == 0 {
      StartMargin(caps, states[0], n);
    } else {
      OverlapBound(caps, n, states, evs, i - 1);
      MarginKept(caps, states[i - 1], states[i], evs[i - 1], n);
    }
    MarginTotal(caps, states[i], n);
  }

  lemma MarginTotal(caps: Caps, st: Overlap, n: nat)
    requires Margin(caps, st, n)
    ensures caps.max > 0 ==> TotalLive(st.ms) < caps.max + n
  {
    hide TotalLive, Sum, LiveCount;
  }

  // ----- the bound is reached

  lemma RunOneMore(caps: Caps, n: nat, states: seq<Overlap>, evs: seq<Event>, b: Overlap, ev: Event)
    requires IsOverlapRun(caps, n, states, evs) && NextOverlap(caps, states[|evs|], b, ev) && Sum(b.pending) <= n
    ensures IsOverlapRun(caps, n, states + [b], evs + [ev])
  {
    hide NextOverlap, Sum;
    var t, p := states + [b], evs + [ev];
    forall i | 0 <= i < |p|
      ensures NextOverlap(caps, t[i], t[i + 1], p[i])
    {
      if i < |evs| { assert NextOverlap(caps, states[i], states[i + 1], evs[i]); }
    }
    forall i | 0 <= i < |t|
      ensures Sum(t[i].pending) <= n
    {
      if i < |states| { assert Sum(states[i].pending) <= n; }
    }
  }

  /** `k` reservations of one engine, all granted because none is used. */
  lemma {:induction false} Claims(caps: Caps, n: nat, start: Overlap, e: nat, k: nat)
      returns (states: seq<Overlap>, evs: seq<Event>)
    requires |start.ms| == |start.pending| == |caps.perEngine| && e < |start.ms| && Below(caps, start.ms, e)
    requires Sum(start.pending) == 0 && k <= n
    ensures IsOverlapRun(caps, n, states, evs) && states[0] == start
    ensures states[|evs|].ms == start.ms && |states[|evs|].pending| == |start.pending|
    ensures states[|evs|].pending[e] == k == Sum(states[|evs|].pending)
  {
    hide Below, TotalLive, Sum, NextOverlap;
    if k == 0 {
      states, evs := [start], [];
      SumUpdate(start.pending, e, 0);
    } else {
      var ss, es := Claims(caps, n, start, e, k - 1);
      var a := ss[|es|];
      var b := Overlap(a.ms, a.pending[e := k]);
      SumUpdate(a.pending, e, k);
      ClaimStep(caps, a, b, e);
      RunOneMore(caps, n, ss, es, b, Claim(e, 0));
      states, evs := ss + [b], es + [Claim(e, 0)];
    }
  }

  lemma ClaimStep(caps: Caps, a: Overlap, b: Overlap, e: nat)
    requires |a.ms| == |a.pending| == |caps.perEngine| && e < |a.ms| && Below(caps, a.ms, e)
    requires b == Overlap(a.ms, a.pending[e := a.pending[e] + 1])
    ensures NextOverlap(caps, a, b, Claim(e, 0))
  {
    ShrunkRefl(a.ms);
    hide Shrunk, Below;
  }

  ghost predicate FreshKeys(m: Sessions, keys: seq<string>) {
    (forall i :: 0 <= i < |keys| ==> keys[i] !in m) && forall i, j :: 0 <= i < j < |keys| ==> keys[i] != keys[j]
  }

  lemma OneMoreLive(ms: seq<Sessions>, e: nat, key: string, s: Session)
    requires e < |ms| && key !in ms[e] && s.Live()
    ensures TotalLive(ms[e := ms[e][key := s]]) == TotalLive(ms) + 1
  {
    var m := ms[e][key := s];
    assert LiveKeys(m) == LiveKeys(ms[e]) + {key};
    TotalUpdate(ms, e, m);
  }

  /** From any cap that has one slot left, `n` reservations for new keys and then `n` spawns
      take the total to the bound. */
  lemma OverlapBoundReached(caps: Caps, start: Overlap, e: nat, keys: seq<string>, s: Session)
      returns (states: seq<Overlap>, evs: seq<Event>)
    requires |start.ms| == |start.pending| == |caps.perEngine| && e < |start.ms| && Below(caps, start.ms, e)
    requires caps.max > 0 && TotalLive(start.ms) == caps.max - 1 && Sum(start.pending) == 0
    requires FreshKeys(start.ms[e], keys) && s.Live()
    ensures IsOverlapRun(caps, |keys|, states, evs) && states[0] == start
    ensures TotalLive(states[|evs|].ms) == caps.max + |keys| - 1
  {
    hide IsOverlapRun, TotalLive, Below, Sum;
    var n := |keys|;
    var ss, es := Claims(caps, n, start, e, n);
    states, evs := Spawns(caps, n, ss, es, e, keys, s, n);
  }

  lemma {:induction false} Spawns(caps: Caps, n: nat, ss: seq<Overlap>, es: seq<Event>, e: nat, keys: seq<string>, s: Session, k: nat)
      returns (states: seq<Overlap>, evs: seq<Event>)
    requires IsOverlapRun(caps, n, ss, es) && s.Live() && k <= |keys| == n
    requires var a := ss[|es|];
      && |a.ms| == |a.pending| == |caps.perEngine| && e < |a.ms| && a.pending[e] == n == Sum(a.pending)
      && FreshKeys(a.ms[e], keys)
    ensures IsOverlapRun(caps, n, states, evs) && states[0] == ss[0]
    ensures var a, b := ss[|es|], states[|evs|];
      && |b.ms| == |b.pending| == |a.ms| && b.pending[e] == n - k == Sum(b.pending)
      && TotalLive(b.ms) == TotalLive(a.ms) + k && FreshKeys(b.ms[e], keys[k..])
  {
    hide TotalLive, Sum, NextOverlap;
    if k == 0 {
      states, evs := ss, es;
      assert keys[0..] == keys;
    } else {
      var t, p := Spawns(caps, n, ss, es, e, keys, s, k - 1);
      var a := t[|p|];
      var key := keys[k - 1];
      assert key == keys[k - 1..][0] && key !in a.ms[e];
      var b := Overlap(a.ms[e := a.ms[e][key := s]], a.pending[e := n - k]);
      SumUpdate(a.pending, e, n - k);
      OneMoreLive(a.ms, e, key, s);
      SpawnStep(caps, a, b, e, key, s);
      RunOneMore(caps, n, t, p, b, Spawn(e, key, s));
      FewerKeys(a.ms[e], keys[k - 1..], s);
      assert keys[k - 1..][1..] == keys[k..];
      states, evs := t + [b], p + [Spawn(e, key, s)];
    }
  }

  lemma SpawnStep(caps: Caps, a: Overlap, b: Overlap, e: nat, key: string, s: Session)
    requires |a.ms| == |a.pending| == |caps.perEngine| && e < |a.ms| && a.pending[e] > 0 && s.Live()
    requires b == Overlap(a.ms[e := a.ms[e][key := s]], a.pending[e := a.pending[e] - 1])
    ensures NextOverlap(caps, a, b, Spawn(e, key, s))
  {
  }

  lemma FewerKeys(m: Sessions, keys: seq<string>, s: Session)
    requires FreshKeys(m, keys) && keys != []
    ensures FreshKeys(m[keys[0] := s], keys[1..])
  {
  }
}
