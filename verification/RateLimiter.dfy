/** The per-key sliding-window limiter for incoming messages (core/ratelimit.go).

    The specification keeps every acceptance ever made; the limiter keeps a filtered list
    per key and throws whole keys away when they go stale. */
module RateLimiter {

  datatype Bucket = Bucket(timestamps: seq<int>, lastAccess: int)
  type Buckets = map<string, Bucket>

  /** The timestamps strictly after `cutoff`, in order. */
  function After(ts: seq<int>, cutoff: int): seq<int> {
    if ts == [] then []
    else After(ts[..|ts| - 1], cutoff) + if ts[|ts| - 1] > cutoff then [ts[|ts| - 1]] else []
  }

  function Stored(bs: Buckets, key: string): seq<int> {
    if key in bs then bs[key].timestamps else []
  }

  /** The decision of Allow and the buckets it leaves, for an enabled limiter. */
  predicate Admits(bs: Buckets, key: string, now: int, max: int, window: int) {
    |After(Stored(bs, key), now - window)| < max
  }

  function AfterCall(bs: Buckets, key: string, now: int, max: int, window: int): Buckets {
    var kept := After(Stored(bs, key), now - window);
    bs[key := Bucket(if |kept| < max then kept + [now] else kept, now)]
  }

  function AfterSweep(bs: Buckets, now: int, window: int): Buckets {
    map k | k in bs && now - bs[k].lastAccess <= window * 2 :: bs[k]
  }

  class RateLimiter {
    const maxMessages: int
    const windowMs: int
    var buckets: Buckets

    constructor (maxMessages: int, windowMs: int)
      ensures this.maxMessages == maxMessages && this.windowMs == windowMs && buckets == map[]
    {
      this.maxMessages, this.windowMs, this.buckets := maxMessages, windowMs, map[];
    }

    method Allow(key: string, now: int) returns (allowed: bool)
      modifies this
      ensures maxMessages <= 0 ==> allowed && buckets == old(buckets)
      ensures maxMessages > 0 ==>
        && allowed == Admits(old(buckets), key, now, maxMessages, windowMs)
        && buckets == AfterCall(old(buckets), key, now, maxMessages, windowMs)
    {
      if maxMessages <= 0 { return true; }
      var b := if key in buckets then buckets[key] else Bucket([], 0);
      b := b.(lastAccess := now);
      var cutoff := now - windowMs;
      var filtered: seq<int> := [];
      var i := 0;
      while i < |b.timestamps|
        invariant i <= |b.timestamps| && filtered == After(b.timestamps[..i], cutoff)
      {
        assert b.timestamps[..i + 1][..i] == b.timestamps[..i];
        if b.timestamps[i] > cutoff {
          filtered := filtered + [b.timestamps[i]];
        }
        i := i + 1;
      }
      assert b.timestamps[..i] == b.timestamps;
      b := b.(timestamps := filtered);
      if |b.timestamps| >= maxMessages {
        buckets := buckets[key := b];
        return false;
      }
      b := b.(timestamps := b.timestamps + [now]);
      buckets := buckets[key := b];
      return true;
    }

    /** One tick of the cleanup loop. */
    method Sweep(now: int)
      modifies this
      ensures buckets == AfterSweep(old(buckets), now, windowMs)
      ensures forall k :: k in old(buckets) ==> (k in buckets <==> now - old(buckets)[k].lastAccess <= 2 * windowMs)
    {
      var staleThreshold := windowMs * 2;
      var keys := buckets.Keys;
      while keys != {}
        invariant keys <= buckets.Keys <= old(buckets).Keys
        invariant forall k :: k in buckets ==> buckets[k] == old(buckets)[k]
        invariant forall k :: k in old(buckets) && k !in keys ==>
          (k in buckets <==> now - old(buckets)[k].lastAccess <= staleThreshold)
        decreases |keys|
      {
        var k :| k in keys;
        keys := keys - {k};
        if now - buckets[k].lastAccess > staleThreshold {
          buckets := buckets - {k};
        }
      }
    }
  }

  // ----- runs

  datatype Event = Message(key: string, now: int) | Tick(now: int)

  ghost predicate Monotone(es: seq<Event>) {
    forall i, j :: 0 <= i <= j < |es| ==> es[i].now <= es[j].now
  }

  lemma MonotoneInit(es: seq<Event>)
    requires es != [] && Monotone(es)
    ensures Monotone(es[..|es| - 1]) && (|es| > 1 ==> es[|es| - 2].now <= es[|es| - 1].now)
  {
  }

  /** The limiter's buckets after a run of calls and sweeps. */
  function RunBuckets(es: seq<Event>, max: int, window: int): Buckets {
    if es == [] then map[]
    else
      var bs := RunBuckets(es[..|es| - 1], max, window);
      match es[|es| - 1]
      case Message(key, now) => AfterCall(bs, key, now, max, window)
      case Tick(now) => AfterSweep(bs, now, window)
  }

  /** The full-history rule: a message is accepted iff fewer than `max` messages of its key
      were accepted in the window before it. Sweeps do not exist here. */
  function Accepted(es: seq<Event>, key: string, max: int, window: int): seq<int> {
    if es == [] then []
    else
      var past := Accepted(es[..|es| - 1], key, max, window);
      match es[|es| - 1]
      case Message(k, now) => if k == key && |After(past, now - window)| < max then past + [now] else past
      case Tick(_) => past
  }

  // ----- filtering

  lemma {:induction false} AfterAppend(a: seq<int>, b: seq<int>, cutoff: int)
    ensures After(a + b, cutoff) == After(a, cutoff) + After(b, cutoff)
  {
    if b == [] {
      assert a + b == a;
    } else {
      assert (a + b)[..|a + b| - 1] == a + b[..|b| - 1];
      AfterAppend(a, b[..|b| - 1], cutoff);
    }
  }

  /** Filtering at an earlier cutoff first changes nothing. */
  lemma {:induction false} AfterTwice(ts: seq<int>, early: int, late: int)
    requires early <= late
    ensures After(After(ts, early), late) == After(ts, late)
  {
    if ts != [] {
      var init, last := ts[..|ts| - 1], ts[|ts| - 1];
      AfterTwice(init, early, late);
      if last > early {
        AfterAppend(After(init, early), [last], late);
      } else {
        assert After(ts, early) == After(init, early);
      }
    }
  }

  lemma {:induction false} AfterNothing(ts: seq<int>, cutoff: int)
    requires forall i :: 0 <= i < |ts| ==> ts[i] <= cutoff
    ensures After(ts, cutoff) == []
  {
    if ts != [] { AfterNothing(ts[..|ts| - 1], cutoff); }
  }

  lemma {:induction false} AfterMember(ts: seq<int>, cutoff: int, bound: int)
    requires forall i :: 0 <= i < |ts| ==> ts[i] <= bound
    ensures forall i :: 0 <= i < |After(ts, cutoff)| ==> After(ts, cutoff)[i] <= bound
  {
    if ts != [] { AfterMember(ts[..|ts| - 1], cutoff, bound); }
  }

  // ----- the limiter decides by the full-history rule

  /** A key's list never reaches past its last access, nor its last access past the clock. */
  lemma {:induction false} StoredBefore(es: seq<Event>, key: string, max: int, window: int)
    requires Monotone(es) && key in RunBuckets(es, max, window)
    ensures var b := RunBuckets(es, max, window)[key];
            es != [] && b.lastAccess <= es[|es| - 1].now
            && forall i :: 0 <= i < |b.timestamps| ==> b.timestamps[i] <= b.lastAccess
  {
    var init, e := es[..|es| - 1], es[|es| - 1];
    if key in RunBuckets(init, max, window) {
      StoredBefore(init, key, max, window);
    }
    if e.Message? && e.key == key {
      AfterMember(Stored(RunBuckets(init, max, window), key), e.now - window, e.now);
    }
  }

  /** One call keeps the stored list as good as the full history for every later window. */
  lemma CallAgrees(stored: seq<int>, past: seq<int>, now: int, t: int, window: int)
    requires now <= t
    requires After(stored, t - window) == After(past, t - window)
    ensures After(After(stored, now - window), t - window) == After(past, t - window)
    ensures After(After(stored, now - window) + [now], t - window) == After(past + [now], t - window)
  {
    AfterTwice(stored, now - window, t - window);
    AfterAppend(After(stored, now - window), [now], t - window);
    AfterAppend(past, [now], t - window);
  }

  /** What the limiter stores is, for every window still to come, as good as the whole history. */
  lemma {:induction false} StoredAgrees(es: seq<Event>, key: string, t: int, max: int, window: int)
    requires Monotone(es) && (es != [] ==> es[|es| - 1].now <= t)
    ensures After(Stored(RunBuckets(es, max, window), key), t - window) == After(Accepted(es, key, max, window), t - window)
  {
    hide After, Monotone;
    if es != [] {
      MonotoneInit(es);
      var init, now := es[..|es| - 1], es[|es| - 1].now;
      var bs := RunBuckets(init, max, window);
      StoredAgrees(init, key, now, max, window);
      StoredAgrees(init, key, t, max, window);
      if es[|es| - 1].Message? {
        CallAgrees(Stored(bs, key), Accepted(init, key, max, window), now, t, window);
      } else if key in bs {
        StoredBefore(init, key, max, window);
        if now - bs[key].lastAccess > window * 2 {
          AfterNothing(bs[key].timestamps, t - window);
          AfterNothing([], t - window);
        }
      }
    }
  }

  /** The indices of the timestamps in (lo, hi]. */
  ghost function Inside(ts: seq<int>, lo: int, hi: int): set<int> {
    set i | 0 <= i < |ts| && lo < ts[i] <= hi
  }

  lemma {:induction false} AfterCounts(ts: seq<int>, lo: int, hi: int)
    requires forall i :: 0 <= i < |ts| ==> ts[i] <= hi
    ensures |After(ts, lo)| == |Inside(ts, lo, hi)|
  {
    if ts == [] {
      assert Inside(ts, lo, hi) == {};
    } else {
      var n := |ts| - 1;
      AfterCounts(ts[..n], lo, hi);
      assert Inside(ts, lo, hi) == Inside(ts[..n], lo, hi) + if lo < ts[n] then {n} else {};
    }
  }

  lemma {:induction false} AcceptedPast(es: seq<Event>, key: string, max: int, window: int, now: int)
    requires Monotone(es) && (es != [] ==> es[|es| - 1].now <= now)
    ensures forall i :: 0 <= i < |Accepted(es, key, max, window)| ==> Accepted(es, key, max, window)[i] <= now
  {
    if es != [] {
      MonotoneInit(es);
      AcceptedPast(es[..|es| - 1], key, max, window, now);
    }
  }

  /** In every run with a monotone clock, Allow accepts a message exactly if fewer than `max`
      messages of its key were accepted in the window that ends with it, no matter when stale
      buckets were swept; one accepted a whole window ago no longer counts. */
  lemma DecidesByHistory(es: seq<Event>, key: string, now: int, max: int, window: int)
    requires Monotone(es) && (|es| > 0 ==> es[|es| - 1].now <= now)
    ensures var past := Accepted(es, key, max, window);
      && (Admits(RunBuckets(es, max, window), key, now, max, window)
          <==> |set i | 0 <= i < |past| && now - window < past[i] <= now| < max)
      && Accepted(es + [Message(key, now)], key, max, window)
         == if Admits(RunBuckets(es, max, window), key, now, max, window) then past + [now] else past
  {
    hide *;
    var past := Accepted(es, key, max, window);
    StoredAgrees(es, key, now, max, window);
    AcceptedPast(es, key, max, window, now);
    AfterCounts(past, now - window, now);
    InsideIs(past, now - window, now);
    AdmitsIs(RunBuckets(es, max, window), key, now, max, window);
    AcceptedNext(es, key, now, max, window);
  }

  lemma InsideIs(ts: seq<int>, lo: int, hi: int)
    ensures Inside(ts, lo, hi) == set i | 0 <= i < |ts| && lo < ts[i] <= hi
  {
  }

  lemma AdmitsIs(bs: Buckets, key: string, now: int, max: int, window: int)
    ensures Admits(bs, key, now, max, window) <==> |After(Stored(bs, key), now - window)| < max
  {
  }

  lemma AcceptedNext(es: seq<Event>, key: string, now: int, max: int, window: int)
    ensures var past := Accepted(es, key, max, window);
      Accepted(es + [Message(key, now)], key, max, window) == if |After(past, now - window)| < max then past + [now] else past
  {
    hide After;
    assert (es + [Message(key, now)])[..|es|] == es;
  }

  // ----- no window ever holds more than max

  /** Timestamps in (lo, hi]. */
  function Within(ts: seq<int>, lo: int, hi: int): seq<int> {
    if ts == [] then []
    else Within(ts[..|ts| - 1], lo, hi) + if lo < ts[|ts| - 1] <= hi then [ts[|ts| - 1]] else []
  }

  /** Acceptances are ordered, and any max + 1 in a row span at least a window. */
  ghost predicate Spaced(ts: seq<int>, max: nat, window: int) {
    && (forall i, j :: 0 <= i <= j < |ts| ==> ts[i] <= ts[j])
    && (forall i :: max <= i < |ts| ==> ts[i] - ts[i - max] >= window)
  }

  lemma {:induction false} AfterSorted(ts: seq<int>, cutoff: int, k: nat)
    requires k <= |ts| && forall i :: |ts| - k <= i < |ts| ==> ts[i] > cutoff
    ensures |After(ts, cutoff)| >= k
  {
    if k > 0 { AfterSorted(ts[..|ts| - 1], cutoff, k - 1); }
  }

  lemma SpacedSnoc(past: seq<int>, now: int, max: nat, window: int)
    requires Spaced(past, max, window) && max > 0
    requires past != [] ==> past[|past| - 1] <= now
    requires |After(past, now - window)| < max
    ensures Spaced(past + [now], max, window)
  {
    if |past| >= max && past[|past| - max] > now - window {
      AfterSorted(past, now - window, max);
    }
  }

  lemma {:induction false} AcceptedSpaced(es: seq<Event>, key: string, max: nat, window: int)
    requires Monotone(es) && max > 0
    ensures var ts := Accepted(es, key, max, window);
            Spaced(ts, max, window) && (ts != [] ==> es != [] && ts[|ts| - 1] <= es[|es| - 1].now)
  {
    if es != [] {
      hide After, Spaced, Monotone;
      MonotoneInit(es);
      AcceptedSpaced(es[..|es| - 1], key, max, window);
      var past, now := Accepted(es[..|es| - 1], key, max, window), es[|es| - 1].now;
      if |After(past, now - window)| < max {
        SpacedSnoc(past, now, max, window);
      }
    } else {
      assert Spaced([], max, window);
    }
  }

  /** A window over ordered timestamps is a contiguous stretch of them, ending before `end`. */
  lemma {:induction false} WithinStretch(ts: seq<int>, lo: int, hi: int) returns (end: nat)
    requires forall i, j :: 0 <= i <= j < |ts| ==> ts[i] <= ts[j]
    ensures |Within(ts, lo, hi)| <= end <= |ts|
    ensures Within(ts, lo, hi) != [] ==> lo < ts[end - |Within(ts, lo, hi)|] && ts[end - 1] <= hi
  {
    end := |ts|;
    if ts != [] {
      var init := ts[..|ts| - 1];
      var b := WithinStretch(init, lo, hi);
      var n := |Within(init, lo, hi)|;
      if !(lo < ts[|ts| - 1] <= hi) {
        end := b;
      } else if n > 0 {
        assert ts[|ts| - (n + 1)] >= ts[b - n] == init[b - n];
      }
    }
  }

  /** No window of the configured length, wherever it lies, ever holds more than `max`
      accepted messages of one key. */
  lemma NoWindowExceeds(es: seq<Event>, key: string, max: nat, window: int, t: int)
    requires Monotone(es) && max > 0
    ensures var ts := Accepted(es, key, max, window); |set i | 0 <= i < |ts| && t - window < ts[i] <= t| <= max
  {
    hide *;
    var ts := Accepted(es, key, max, window);
    AcceptedSpaced(es, key, max, window);
    SpacedWindow(ts, max, window, t);
    WithinCounts(ts, t - window, t);
    InsideIs(ts, t - window, t);
  }

  lemma {:induction false} WithinCounts(ts: seq<int>, lo: int, hi: int)
    ensures |Within(ts, lo, hi)| == |Inside(ts, lo, hi)|
  {
    if ts == [] {
      assert Inside(ts, lo, hi) == {};
    } else {
      var n := |ts| - 1;
      WithinCounts(ts[..n], lo, hi);
      assert Inside(ts, lo, hi) == Inside(ts[..n], lo, hi) + if lo < ts[n] <= hi then {n} else {};
    }
  }

  lemma SpacedWindow(ts: seq<int>, max: nat, window: int, t: int)
    requires Spaced(ts, max, window)
    ensures |Within(ts, t - window, t)| <= max
  {
    var end := WithinStretch(ts, t - window, t);
    forall a, b | 0 <= a < b < |ts| && b - a >= max
      ensures ts[b] - ts[a] >= window
    {
      assert ts[b] - ts[b - max] >= window;
    }
  }
}
