/** The per-platform token bucket for outgoing messages (core/outgoing_ratelimit.go).
    Floating-point numbers are modelled as reals. */
module OutgoingRateLimiter {

  datatype Cfg = Cfg(maxPerSecond: real, burst: int) {
    predicate Disabled() {
      maxPerSecond <= 0.0
    }

    function EffectiveBurst(): int {
      if burst > 0 then burst
      else if maxPerSecond.Floor as real == maxPerSecond then maxPerSecond.Floor
      else maxPerSecond.Floor + 1
    }
  }

  /** The configuration of a limiter: defaults and per-platform overrides. */
  datatype Settings = Settings(defaults: Cfg, overrides: map<string, Cfg>) {
    function CfgFor(platform: string): Cfg {
      if platform in overrides then overrides[platform] else defaults
    }
  }

  datatype Bucket = Bucket(tokens: real, maxTokens: real, refillRate: real, lastRefill: real) {
    ghost predicate Ok(cfg: Cfg) {
      && 0.0 <= tokens <= maxTokens == cfg.EffectiveBurst() as real
      && maxTokens >= 1.0 && refillRate == cfg.maxPerSecond > 0.0
    }

    function Refilled(now: real): Bucket {
      if now - lastRefill <= 0.0 then this
      else
        var t := tokens + Inflow(refillRate, now - lastRefill);
        this.(tokens := if t > maxTokens then maxTokens else t, lastRefill := now)
    }
  }

  /** Tokens that flow in within `secs` seconds. */
  function Inflow(rate: real, secs: real): real {
    secs * rate
  }

  lemma InflowIs(rate: real, secs: real)
    ensures Inflow(rate, secs) == secs * rate
  {
  }

  lemma InflowAdds(rate: real, a: real, b: real)
    ensures Inflow(rate, a + b) == Inflow(rate, a) + Inflow(rate, b)
  {
  }

  lemma InflowGrows(rate: real, a: real, b: real)
    requires rate > 0.0
    ensures a < b ==> Inflow(rate, a) < Inflow(rate, b)
    ensures a <= b ==> Inflow(rate, a) <= Inflow(rate, b)
    ensures Inflow(rate, 0.0) == 0.0
  {
  }

  type Buckets = map<string, Bucket>

  function NewBucket(cfg: Cfg, now: real): Bucket {
    Bucket(cfg.EffectiveBurst() as real, cfg.EffectiveBurst() as real, cfg.maxPerSecond, now)
  }

  /** The bucket an attempt at `now` finds, created full if need be and refilled. */
  function Found(bs: Buckets, cfg: Cfg, platform: string, now: real): Bucket {
    (if platform in bs then bs[platform] else NewBucket(cfg, now)).Refilled(now)
  }

  predicate Passes(bs: Buckets, cfg: Cfg, platform: string, now: real) {
    Found(bs, cfg, platform, now).tokens >= 1.0
  }

  function AfterAttempt(bs: Buckets, cfg: Cfg, platform: string, now: real): Buckets {
    var b := Found(bs, cfg, platform, now);
    bs[platform := if b.tokens >= 1.0 then b.(tokens := b.tokens - 1.0) else b]
  }

  /** The wait computed when no token is left. */
  function WaitSecs(b: Bucket): real {
    if b.refillRate > 0.0 then (1.0 - b.tokens) / b.refillRate else 0.0
  }

  // ----- the limiter

  class TokenBucket {
    var tokens: real
    const maxTokens: real
    const refillRate: real
    var lastRefill: real

    function View(): Bucket
      reads this
    {
      Bucket(tokens, maxTokens, refillRate, lastRefill)
    }

    constructor (cfg: Cfg, now: real)
      ensures View() == NewBucket(cfg, now)
    {
      var b := cfg.EffectiveBurst() as real;
      tokens, maxTokens, refillRate, lastRefill := b, b, cfg.maxPerSecond, now;
    }

    method Refill(now: real)
      modifies this
      ensures View() == old(View()).Refilled(now)
    {
      hide Inflow;
      var elapsed := now - lastRefill;
      if elapsed <= 0.0 { return; }
      tokens := tokens + Inflow(refillRate, elapsed);
      if tokens > maxTokens {
        tokens := maxTokens;
      }
      lastRefill := now;
    }

    /** Takes a token if there is one; otherwise says how long one more takes to flow in. */
    method Take(ghost cfg: Cfg) returns (sent: bool, wait: real)
      requires View().Ok(cfg)
      modifies this
      ensures sent == (old(tokens) >= 1.0)
      ensures View() == if sent then old(View()).(tokens := old(tokens) - 1.0) else old(View())
      ensures View().Ok(cfg)
      ensures !sent ==> wait == WaitSecs(View())
    {
      sent, wait := false, 0.0;
      if tokens >= 1.0 {
        tokens := tokens - 1.0;
        sent := true;
      } else {
        var deficit := 1.0 - tokens;
        wait := deficit / refillRate;
      }
    }
  }

  class OutgoingRateLimiter {
    const settings: Settings
    var buckets: map<string, TokenBucket>

    /** No two platforms share a bucket, and every bucket belongs to an enabled platform. */
    ghost predicate Valid()
      reads this, buckets.Values
    {
      && (forall p, q :: p in buckets && q in buckets && buckets[p] == buckets[q] ==> p == q)
      && (forall p :: p in buckets ==> buckets[p].View().Ok(settings.CfgFor(p)))
    }

    ghost function View(): Buckets
      reads this, buckets.Values
    {
      map p | p in buckets :: buckets[p].View()
    }

    constructor (settings: Settings)
      ensures Valid() && View() == map[] && this.settings == settings
    {
      this.settings, this.buckets := settings, map[];
    }

    method BucketFor(platform: string, now: real) returns (b: TokenBucket)
      requires Valid() && !settings.CfgFor(platform).Disabled()
      modifies this
      ensures Valid() && platform in buckets && b == buckets[platform] && b.View().Ok(settings.CfgFor(platform))
      ensures forall p :: p in buckets && buckets[p] == b ==> p == platform
      ensures forall p :: p in old(buckets) ==> p in buckets && buckets[p] == old(buckets)[p]
      ensures View() == if platform in old(buckets) then old(View())
                        else old(View())[platform := NewBucket(settings.CfgFor(platform), now)]
      ensures forall p :: p in buckets ==> (p in old(buckets) && buckets[p] == old(buckets)[p]) || fresh(buckets[p])
    {
      hide Cfg.EffectiveBurst, Cfg.Disabled, Settings.CfgFor, Bucket.Ok, NewBucket;
      if platform in buckets { return buckets[platform]; }
      b := new TokenBucket(settings.CfgFor(platform), now);
      NewBucketOk(settings.CfgFor(platform), now);
      buckets := buckets[platform := b];
    }

    /** One round of Wait's loop under the lock: send, or learn how long to sleep. */
    method Attempt(platform: string, now: real) returns (sent: bool, wait: real)
      requires Valid() && !settings.CfgFor(platform).Disabled()
      modifies this, buckets.Values
      ensures Valid()
      ensures forall p :: p in buckets ==> (p in old(buckets) && buckets[p] == old(buckets)[p]) || fresh(buckets[p])
      ensures View() == AfterAttempt(old(View()), settings.CfgFor(platform), platform, now)
      ensures sent == Passes(old(View()), settings.CfgFor(platform), platform, now)
      ensures !sent ==> platform in View() && View()[platform].Ok(settings.CfgFor(platform))
                        && wait == WaitSecs(View()[platform])
    {
      hide Cfg.EffectiveBurst, Bucket.Refilled, NewBucket, Inflow, Bucket.Ok, OutgoingRateLimiter.Valid;
      var b := BucketFor(platform, now);
      ghost var vs := View();
      sent, wait := Spend(platform, b, now);
      Overwrite(old(View()), platform, vs[platform], View()[platform]);
    }

    method Spend(platform: string, b: TokenBucket, now: real) returns (sent: bool, wait: real)
      requires Valid() && platform in buckets && b == buckets[platform]
      modifies b
      ensures Valid()
      ensures var found := old(View())[platform].Refilled(now);
              && sent == (found.tokens >= 1.0)
              && View() == old(View())[platform := if sent then found.(tokens := found.tokens - 1.0) else found]
      ensures !sent ==> View()[platform].Ok(settings.CfgFor(platform)) && wait == WaitSecs(View()[platform])
    {
      hide Cfg.EffectiveBurst, Bucket.Refilled, NewBucket, Inflow, Bucket.Ok;
      RefillOk(b.View(), settings.CfgFor(platform), now);
      b.Refill(now);
      sent, wait := b.Take(settings.CfgFor(platform));
      OnlyOne(platform);
    }

    twostate lemma OnlyOne(platform: string)
      requires platform in buckets && buckets == old(buckets) && old(Valid())
      requires buckets[platform].View().Ok(settings.CfgFor(platform))
      requires forall p :: p in buckets && p != platform ==> buckets[p].View() == old(buckets[p].View())
      ensures Valid() && View() == old(View())[platform := buckets[platform].View()]
    {
    }

    /** Attempts of other callers, in order. */
    method Meanwhile(es: seq<Event>)
      requires Valid()
      modifies this, buckets.Values
      ensures Valid() && View() == RunFrom(old(View()), es, settings)
      ensures forall p :: p in buckets ==> (p in old(buckets) && buckets[p] == old(buckets)[p]) || fresh(buckets[p])
    {
      hide AfterAttempt, OutgoingRateLimiter.View, OutgoingRateLimiter.Valid, Bucket.Ok;
      ghost var first := View();
      var i := 0;
      while i < |es|
        invariant i <= |es| && Valid() && View() == RunFrom(first, es[..i], settings)
        invariant forall p :: p in buckets ==> (p in old(buckets) && buckets[p] == old(buckets)[p]) || fresh(buckets[p])
      {
        assert es[..i + 1][..i] == es[..i];
        if !settings.CfgFor(es[i].platform).Disabled() {
          var sent, wait := Attempt(es[i].platform, es[i].now);
        }
        i := i + 1;
      }
      assert es[..i] == es;
    }

    /** Wait. `wakeups` are the times at which its timers fire, and `others` what other callers
        attempt before each of them; when the times are used up the context is cancelled. What
        happens is the run of all these attempts, of its own all fail but perhaps the last, and
        it sends if that one passes. Alone, it leaves what a single attempt at the latest of its
        times leaves, and it sleeps at most once if its first timer fires no earlier than the
        computed wait. */
    method Wait(platform: string, start: real, wakeups: seq<real>, others: seq<seq<Event>>) returns (sent: bool, slept: nat)
      requires Valid() && |others| == |wakeups|
      modifies this, buckets.Values
      ensures Valid() && slept <= |wakeups|
      ensures settings.CfgFor(platform).Disabled() ==> sent && slept == 0 && View() == old(View())
      ensures !settings.CfgFor(platform).Disabled() ==>
        && View() == RunFrom(old(View()), History(platform, start, wakeups, others, slept), settings)
        && sent == LastPasses(old(View()), History(platform, start, wakeups, others, slept), settings)
        && (forall k :: 0 <= k < slept ==> !LastPasses(old(View()), History(platform, start, wakeups, others, k), settings))
        && (!sent ==> slept == |wakeups|)
      ensures !settings.CfgFor(platform).Disabled() && Alone(others) ==>
        var cfg := settings.CfgFor(platform);
        var now := Latest(start, wakeups[..slept]);
        && sent == Passes(old(View()), cfg, platform, now)
        && View() == AfterAttempt(old(View()), cfg, platform, now)
      ensures !settings.CfgFor(platform).Disabled() && Alone(others) ==>
        var cfg := settings.CfgFor(platform);
        var b := Found(old(View()), cfg, platform, start);
        && (b.tokens >= 1.0 <==> sent && slept == 0)
        && (b.tokens < 1.0 && |wakeups| > 0 && wakeups[0] >= b.lastRefill + WaitSecs(b) ==> sent && slept == 1)
    {
      hide AfterAttempt, Found, RunFrom, LastPasses, History, Latest, WaitSecs, Bucket.Ok,
           OutgoingRateLimiter.View, OutgoingRateLimiter.Valid;
      var cfg := settings.CfgFor(platform);
      slept := 0;
      if cfg.Disabled() { return true, 0; }
      ghost var first := View();
      PlatformOk(platform);
      BeforeFirst(first, settings, platform, start, wakeups, others);
      var now := start;
      while true
        invariant Valid() && slept <= |wakeups| && now == if slept == 0 then start else wakeups[slept - 1]
        invariant forall p :: p in buckets ==> (p in old(buckets) && buckets[p] == old(buckets)[p]) || fresh(buckets[p])
        invariant View() == RunFrom(first, Before(platform, start, wakeups, others, slept), settings)
        invariant forall k :: 0 <= k < slept ==> !LastPasses(first, History(platform, start, wakeups, others, k), settings)
        decreases |wakeups| - slept
      {
        OwnAttempt(first, settings, platform, start, wakeups, others, slept);
        var wait;
        sent, wait := Attempt(platform, now);
        if sent || slept == |wakeups| {
          if Alone(others) { AloneWait(first, settings, platform, start, wakeups, others, slept); }
          return;
        }
        OthersAttempt(first, settings, platform, start, wakeups, others, slept);
        Meanwhile(others[slept]);
        now := wakeups[slept];
        slept := slept + 1;
      }
    }

    lemma PlatformOk(platform: string)
      requires Valid()
      ensures platform in View() ==> View()[platform].Ok(settings.CfgFor(platform))
    {
      hide Bucket.Ok;
    }
  }

  // ----- waiting

  /** One wait among other callers: its attempt at the start, and `n` times what the others did
      and its attempt when it was woken. */
  function History(platform: string, start: real, wakeups: seq<real>, others: seq<seq<Event>>, n: nat): seq<Event>
    requires n <= |wakeups| == |others|
    decreases n, 1
  {
    Before(platform, start, wakeups, others, n) + [Event(platform, if n == 0 then start else wakeups[n - 1])]
  }

  /** The same without its last attempt. */
  function Before(platform: string, start: real, wakeups: seq<real>, others: seq<seq<Event>>, n: nat): seq<Event>
    requires n <= |wakeups| == |others|
    decreases n, 0
  {
    if n == 0 then [] else History(platform, start, wakeups, others, n - 1) + others[n - 1]
  }

  /** The last attempt finds a token. */
  predicate LastPasses(bs: Buckets, es: seq<Event>, settings: Settings) {
    es != [] &&
      var e := es[|es| - 1];
      Passes(RunFrom(bs, es[..|es| - 1], settings), settings.CfgFor(e.platform), e.platform, e.now)
  }

  predicate Alone(others: seq<seq<Event>>) {
    forall k :: 0 <= k < |others| ==> others[k] == []
  }

  lemma RunSnoc(bs: Buckets, es: seq<Event>, e: Event, settings: Settings)
    ensures var r := RunFrom(bs, es, settings);
      && RunFrom(bs, es + [e], settings)
         == (if settings.CfgFor(e.platform).Disabled() then r else AfterAttempt(r, settings.CfgFor(e.platform), e.platform, e.now))
      && LastPasses(bs, es + [e], settings) == Passes(r, settings.CfgFor(e.platform), e.platform, e.now)
  {
    hide AfterAttempt;
    assert (es + [e])[..|es|] == es;
  }

  lemma {:induction false} RunTwice(bs: Buckets, a: seq<Event>, b: seq<Event>, settings: Settings)
    ensures RunFrom(bs, a + b, settings) == RunFrom(RunFrom(bs, a, settings), b, settings)
    decreases |b|
  {
    if b == [] {
      assert a + b == a;
    } else {
      assert (a + b)[..|a + b| - 1] == a + b[..|b| - 1] && (a + b)[|a + b| - 1] == b[|b| - 1];
      RunTwice(bs, a, b[..|b| - 1], settings);
    }
    hide AfterAttempt;
  }

  /** Nothing has happened before the first attempt. */
  lemma BeforeFirst(
      bs: Buckets, settings: Settings, platform: string, start: real, wakeups: seq<real>, others: seq<seq<Event>>)
    requires |others| == |wakeups|
    ensures RunFrom(bs, Before(platform, start, wakeups, others, 0), settings) == bs
  {
    assert Before(platform, start, wakeups, others, 0) == [];
  }

  /** Its own attempt, in the run. */
  lemma OwnAttempt(
      bs: Buckets, settings: Settings, platform: string, start: real, wakeups: seq<real>, others: seq<seq<Event>>, n: nat)
    requires n <= |wakeups| == |others| && !settings.CfgFor(platform).Disabled()
    ensures var r, now := RunFrom(bs, Before(platform, start, wakeups, others, n), settings), if n == 0 then start else wakeups[n - 1];
      && RunFrom(bs, History(platform, start, wakeups, others, n), settings)
         == AfterAttempt(r, settings.CfgFor(platform), platform, now)
      && LastPasses(bs, History(platform, start, wakeups, others, n), settings) == Passes(r, settings.CfgFor(platform), platform, now)
  {
    RunSnoc(bs, Before(platform, start, wakeups, others, n), Event(platform, if n == 0 then start else wakeups[n - 1]), settings);
    hide AfterAttempt, RunFrom, LastPasses, Found;
  }

  lemma OthersAttempt(
      bs: Buckets, settings: Settings, platform: string, start: real, wakeups: seq<real>, others: seq<seq<Event>>, n: nat)
    requires n < |wakeups| == |others|
    ensures RunFrom(bs, Before(platform, start, wakeups, others, n + 1), settings)
         == RunFrom(RunFrom(bs, History(platform, start, wakeups, others, n), settings), others[n], settings)
  {
    RunTwice(bs, History(platform, start, wakeups, others, n), others[n], settings);
    hide RunFrom;
  }

  /** Alone, attempts that fail do nothing but refill. */
  lemma {:induction false} AloneRun(
      bs: Buckets, settings: Settings, platform: string, start: real, wakeups: seq<real>, others: seq<seq<Event>>, n: nat)
    requires n <= |wakeups| == |others| && Alone(others) && !settings.CfgFor(platform).Disabled()
    requires platform in bs ==> bs[platform].Ok(settings.CfgFor(platform))
    requires forall k :: 0 <= k < n ==> !LastPasses(bs, History(platform, start, wakeups, others, k), settings)
    ensures var cfg, h := settings.CfgFor(platform), History(platform, start, wakeups, others, n);
      && RunFrom(bs, h, settings) == AfterAttempt(bs, cfg, platform, Latest(start, wakeups[..n]))
      && LastPasses(bs, h, settings) == Passes(bs, cfg, platform, Latest(start, wakeups[..n]))
  {
    var cfg := settings.CfgFor(platform);
    OwnAttempt(bs, settings, platform, start, wakeups, others, n);
    if n == 0 {
      LatestNone(start, wakeups);
      assert RunFrom(bs, [], settings) == bs;
    } else {
      AloneRun(bs, settings, platform, start, wakeups, others, n - 1);
      LatestNext(start, wakeups, n);
      assert others[n - 1] == [] && forall h: seq<Event> :: h + [] == h;
      var before := RunFrom(bs, History(platform, start, wakeups, others, n - 1), settings);
      hide AfterAttempt, RunFrom, History, LastPasses, Latest, Bucket.Ok;
      FallsAsleep(bs, cfg, platform, Latest(start, wakeups[..n - 1]));
      StillAsleep(bs, before, cfg, platform, Latest(start, wakeups[..n - 1]), wakeups[n - 1]);
    }
    hide AfterAttempt, RunFrom, LastPasses;
  }

  lemma AloneWait(
      bs: Buckets, settings: Settings, platform: string, start: real, wakeups: seq<real>, others: seq<seq<Event>>, n: nat)
    requires n <= |wakeups| == |others| && Alone(others) && !settings.CfgFor(platform).Disabled()
    requires platform in bs ==> bs[platform].Ok(settings.CfgFor(platform))
    requires forall k :: 0 <= k < n ==> !LastPasses(bs, History(platform, start, wakeups, others, k), settings)
    ensures var cfg, h := settings.CfgFor(platform), History(platform, start, wakeups, others, n);
      && RunFrom(bs, h, settings) == AfterAttempt(bs, cfg, platform, Latest(start, wakeups[..n]))
      && LastPasses(bs, h, settings) == Passes(bs, cfg, platform, Latest(start, wakeups[..n]))
    ensures var b := Found(bs, settings.CfgFor(platform), platform, start);
      && (n == 0 ==> (b.tokens >= 1.0 <==> LastPasses(bs, History(platform, start, wakeups, others, 0), settings)))
      && (n > 0 ==> b.tokens < 1.0)
      && (n > 0 && wakeups[0] >= b.lastRefill + WaitSecs(b) ==>
            LastPasses(bs, History(platform, start, wakeups, others, 1), settings))
  {
    hide *;
    AloneRun(bs, settings, platform, start, wakeups, others, n);
    AloneRun(bs, settings, platform, start, wakeups, others, 0);
    LatestNone(start, wakeups);
    PassesIs(bs, settings.CfgFor(platform), platform, start);
    if n > 0 {
      var cfg := settings.CfgFor(platform);
      AloneRun(bs, settings, platform, start, wakeups, others, 1);
      LatestNext(start, wakeups, 1);
      FallsAsleep(bs, cfg, platform, start);
      AsleepIs(bs, AfterAttempt(bs, cfg, platform, start), cfg, platform, start);
      PassesIs(bs, cfg, platform, if wakeups[0] > start then wakeups[0] else start);
      FirstWake(bs, cfg, platform, start, wakeups[0]);
      ShortIs(Found(bs, cfg, platform, start), wakeups[0]);
    }
  }

  lemma PassesIs(bs: Buckets, cfg: Cfg, platform: string, now: real)
    ensures Passes(bs, cfg, platform, now) <==> Found(bs, cfg, platform, now).tokens >= 1.0
  {
    hide Found;
  }

  lemma AsleepIs(first: Buckets, bs: Buckets, cfg: Cfg, platform: string, latest: real)
    requires Asleep(first, bs, cfg, platform, latest)
    ensures platform in first && first[platform].Ok(cfg) && Found(first, cfg, platform, latest).tokens < 1.0
  {
    hide Found, Bucket.Ok;
  }

  lemma ShortIs(b: Bucket, wakeup: real)
    ensures ShortOf(b, wakeup) <==> wakeup < b.lastRefill + WaitSecs(b)
  {
    hide WaitSecs;
  }

  function Latest(start: real, times: seq<real>): real {
    if times == [] then start
    else
      var before, last := Latest(start, times[..|times| - 1]), times[|times| - 1];
      if last > before then last else before
  }

  lemma LatestNone(start: real, times: seq<real>)
    ensures Latest(start, times[..0]) == start
  {
  }

  lemma LatestNext(start: real, times: seq<real>, n: nat)
    requires 0 < n <= |times|
    ensures var before := Latest(start, times[..n - 1]);
      Latest(start, times[..n]) == if times[n - 1] > before then times[n - 1] else before
  {
    assert times[..n][..n - 1] == times[..n - 1];
  }

  /** Nothing was sent: the buckets `bs` are those of the beginning with this one refilled. */
  ghost predicate Asleep(first: Buckets, bs: Buckets, cfg: Cfg, platform: string, latest: real) {
    && platform in first && first[platform].Ok(cfg) && Found(first, cfg, platform, latest).tokens < 1.0
    && bs == first[platform := Found(first, cfg, platform, latest)]
  }

  /** The first wake-up comes too early. */
  ghost predicate ShortOf(b: Bucket, wakeup: real) {
    wakeup < b.lastRefill + WaitSecs(b)
  }

  /** Refilling twice is refilling once, at the later time. */
  lemma RefilledTwice(b: Bucket, cfg: Cfg, s: real, t: real)
    requires b.Ok(cfg)
    ensures b.Refilled(s).Refilled(t) == b.Refilled(if t > s then t else s)
  {
    hide Cfg.EffectiveBurst, Inflow;
    InflowGrows(b.refillRate, 0.0, s - b.lastRefill);
    InflowGrows(b.refillRate, 0.0, t - s);
    InflowAdds(b.refillRate, s - b.lastRefill, t - s);
    assert s - b.lastRefill + (t - s) == t - b.lastRefill;
  }

  lemma StillAsleep(first: Buckets, bs: Buckets, cfg: Cfg, platform: string, before: real, now: real)
    requires Asleep(first, bs, cfg, platform, before)
    ensures var latest := if now > before then now else before;
      && Found(bs, cfg, platform, now) == Found(first, cfg, platform, latest)
      && AfterAttempt(bs, cfg, platform, now) == AfterAttempt(first, cfg, platform, latest)
  {
    RefilledTwice(first[platform], cfg, before, now);
    hide Bucket.Refilled, Bucket.Ok;
    var latest := if now > before then now else before;
    var a, b := Found(first, cfg, platform, before), Found(first, cfg, platform, latest);
    Overwrite(first, platform, a, if b.tokens >= 1.0 then b.(tokens := b.tokens - 1.0) else b);
  }

  lemma FirstWake(first: Buckets, cfg: Cfg, platform: string, start: real, now: real)
    requires platform in first && first[platform].Ok(cfg) && Found(first, cfg, platform, start).tokens < 1.0
    ensures var b := Found(first, cfg, platform, start);
      Found(first, cfg, platform, if now > start then now else start).tokens >= 1.0 <==> !ShortOf(b, now)
  {
    hide Bucket.Refilled, Cfg.EffectiveBurst;
    RefillOk(first[platform], cfg, start);
    RefilledTwice(first[platform], cfg, start, now);
    OneWaitExact(Found(first, cfg, platform, start), cfg, now);
  }

  lemma FallsAsleep(bs: Buckets, cfg: Cfg, platform: string, now: real)
    requires !cfg.Disabled() && (platform in bs ==> bs[platform].Ok(cfg)) && !Passes(bs, cfg, platform, now)
    ensures Asleep(bs, AfterAttempt(bs, cfg, platform, now), cfg, platform, now)
  {
    RefillFull(cfg, now);
    hide Bucket.Refilled, NewBucket, Cfg.EffectiveBurst;
  }

  /** A new bucket is full, so it is never waited for. */
  lemma RefillFull(cfg: Cfg, now: real)
    requires !cfg.Disabled()
    ensures NewBucket(cfg, now).Refilled(now).tokens >= 1.0
  {
    NewBucketOk(cfg, now);
  }

  lemma Overwrite(bs: Buckets, platform: string, a: Bucket, b: Bucket)
    ensures bs[platform := a][platform := b] == bs[platform := b]
    ensures platform in bs ==> bs[platform := bs[platform]] == bs
  {
  }

  // ----- one bucket

  /** The burst is the configured one or else the least whole number of tokens that a second at the
      rate needs. */
  lemma BurstAtLeastOne(cfg: Cfg)
    requires !cfg.Disabled()
    ensures cfg.EffectiveBurst() >= 1
    ensures cfg.burst > 0 ==> cfg.EffectiveBurst() == cfg.burst
    ensures cfg.burst <= 0 ==> (cfg.EffectiveBurst() - 1) as real < cfg.maxPerSecond <= cfg.EffectiveBurst() as real
  {
    var f := cfg.maxPerSecond.Floor;
    assert f >= 0;
    if f == 0 { assert f as real == 0.0; }
  }

  lemma NewBucketOk(cfg: Cfg, now: real)
    requires !cfg.Disabled()
    ensures NewBucket(cfg, now).Ok(cfg)
  {
    BurstAtLeastOne(cfg);
    hide Cfg.EffectiveBurst;
    assert cfg.EffectiveBurst() as real >= 1.0;
  }

  lemma RefillOk(b: Bucket, cfg: Cfg, now: real)
    requires b.Ok(cfg)
    ensures b.Refilled(now).Ok(cfg)
  {
    hide Inflow, Cfg.EffectiveBurst;
    InflowGrows(b.refillRate, 0.0, now - b.lastRefill);
  }

  lemma FoundOk(bs: Buckets, cfg: Cfg, platform: string, now: real)
    requires !cfg.Disabled() && (platform in bs ==> bs[platform].Ok(cfg))
    ensures Found(bs, cfg, platform, now).Ok(cfg)
    ensures AfterAttempt(bs, cfg, platform, now)[platform].Ok(cfg)
  {
    hide Bucket.Refilled, Cfg.EffectiveBurst;
    NewBucketOk(cfg, now);
    RefillOk(if platform in bs then bs[platform] else NewBucket(cfg, now), cfg, now);
  }

  /** Left alone, a bucket without a token has one again exactly when the computed wait is over. */
  lemma OneWaitExact(b: Bucket, cfg: Cfg, t: real)
    requires b.Ok(cfg) && b.tokens < 1.0
    ensures b.Refilled(t).tokens >= 1.0 <==> t >= b.lastRefill + WaitSecs(b)
  {
    var w := WaitSecs(b);
    assert Inflow(b.refillRate, w) == 1.0 - b.tokens;
    hide Inflow, WaitSecs;
    InflowGrows(b.refillRate, t - b.lastRefill, w);
    InflowGrows(b.refillRate, w, t - b.lastRefill);
    InflowGrows(b.refillRate, w, 0.0);
  }

  // ----- runs

  datatype Event = Event(platform: string, now: real)

  ghost predicate Monotone(es: seq<Event>) {
    forall i, j :: 0 <= i <= j < |es| ==> es[i].now <= es[j].now
  }

  function RunFrom(bs: Buckets, es: seq<Event>, settings: Settings): Buckets {
    if es == [] then bs
    else
      var r, e := RunFrom(bs, es[..|es| - 1], settings), es[|es| - 1];
      var cfg := settings.CfgFor(e.platform);
      if cfg.Disabled() then r else AfterAttempt(r, cfg, e.platform, e.now)
  }

  /** The buckets after a run that begins with none. */
  function RunBuckets(es: seq<Event>, settings: Settings): Buckets {
    RunFrom(map[], es, settings)
  }

  /** How many messages went out to `platform` at times in [from, to]. */
  function SentIn(es: seq<Event>, settings: Settings, platform: string, from: real, to: real): nat {
    if es == [] then 0
    else
      var init, e := es[..|es| - 1], es[|es| - 1];
      var cfg := settings.CfgFor(platform);
      SentIn(init, settings, platform, from, to)
      + if e.platform == platform && from <= e.now <= to
           && (cfg.Disabled() || Passes(RunBuckets(init, settings), cfg, platform, e.now)) then 1 else 0
  }

  /** Tokens stay between 0 and the burst in every run, whatever the clock does. */
  lemma {:induction false} TokensBounded(es: seq<Event>, settings: Settings, platform: string)
    requires platform in RunBuckets(es, settings)
    ensures RunBuckets(es, settings)[platform].Ok(settings.CfgFor(platform))
  {
    var init, e := es[..|es| - 1], es[|es| - 1];
    if platform in RunBuckets(init, settings) { TokensBounded(init, settings, platform); }
    var cfg := settings.CfgFor(e.platform);
    if !cfg.Disabled() && e.platform == platform {
      FoundOk(RunBuckets(init, settings), cfg, platform, e.now);
    }
  }

  lemma MonotoneInit(es: seq<Event>)
    requires es != [] && Monotone(es)
    ensures Monotone(es[..|es| - 1]) && forall i :: 0 <= i < |es| ==> es[i].now <= es[|es| - 1].now
  {
  }

  /** The budget: what was sent since `from` plus what is left never exceeds a full bucket
      plus what flowed in since. */
  ghost predicate Budget(es: seq<Event>, settings: Settings, platform: string, from: real, to: real) {
    var n := SentIn(es, settings, platform, from, to) as real;
    var bs, cfg := RunBuckets(es, settings), settings.CfgFor(platform);
    if platform !in bs then n == 0.0
    else
      && es != [] && bs[platform].lastRefill <= es[|es| - 1].now
      && (if bs[platform].lastRefill < from then n == 0.0
          else n + bs[platform].tokens <= cfg.EffectiveBurst() as real + Inflow(cfg.maxPerSecond, bs[platform].lastRefill - from))
  }

  lemma {:induction false} BudgetKept(es: seq<Event>, settings: Settings, platform: string, from: real, to: real)
    requires Monotone(es) && (es != [] ==> es[|es| - 1].now <= to) && !settings.CfgFor(platform).Disabled()
    ensures Budget(es, settings, platform, from, to)
  {
    hide Monotone, Found, Inflow, Cfg.EffectiveBurst;
    if es != [] {
      MonotoneInit(es);
      var init, e := es[..|es| - 1], es[|es| - 1];
      BudgetKept(init, settings, platform, from, to);
      if e.platform == platform {
        var bs, cfg := RunBuckets(init, settings), settings.CfgFor(platform);
        if platform in bs { TokensBounded(init, settings, platform); }
        FoundBudget(bs, cfg, platform, e.now, from, SentIn(init, settings, platform, from, to));
      }
    }
  }

  /** The bucket found at `now` has not more than the budget leaves after `n` sends since `from`. */
  lemma FoundBudget(bs: Buckets, cfg: Cfg, platform: string, now: real, from: real, n: nat)
    requires !cfg.Disabled()
    requires if platform !in bs then n == 0
             else && bs[platform].Ok(cfg) && bs[platform].lastRefill <= now
                  && (if bs[platform].lastRefill < from then n == 0
                      else n as real + bs[platform].tokens
                           <= cfg.EffectiveBurst() as real + Inflow(cfg.maxPerSecond, bs[platform].lastRefill - from))
    ensures var b := Found(bs, cfg, platform, now);
            && b.lastRefill == now
            && (now >= from ==> n as real + b.tokens <= cfg.EffectiveBurst() as real + Inflow(cfg.maxPerSecond, now - from))
            && (now < from ==> n == 0)
  {
    hide Inflow, Cfg.EffectiveBurst;
    var r := cfg.maxPerSecond;
    FoundOk(bs, cfg, platform, now);
    InflowGrows(r, 0.0, now - from);
    if platform in bs {
      var last := bs[platform].lastRefill;
      InflowAdds(r, now - last, last - from);
      assert now - last + (last - from) == now - from;
    }
  }

  /** In every run with a monotone clock, the sends to an enabled platform in any interval
      [from, to] never exceed the burst plus the rate times the length of the interval. */
  lemma {:induction false} SendsBounded(es: seq<Event>, settings: Settings, platform: string, from: real, to: real)
    requires Monotone(es) && !settings.CfgFor(platform).Disabled() && from <= to
    ensures var cfg := settings.CfgFor(platform);
            SentIn(es, settings, platform, from, to) as real <= cfg.EffectiveBurst() as real + (to - from) * cfg.maxPerSecond
  {
    InflowIs(settings.CfgFor(platform).maxPerSecond, to - from);
    hide Monotone, Found, Inflow, Cfg.EffectiveBurst, Budget;
    if es != [] && es[|es| - 1].now > to {
      MonotoneInit(es);
      SendsBounded(es[..|es| - 1], settings, platform, from, to);
    } else {
      BudgetKept(es, settings, platform, from, to);
      BudgetBounds(es, settings, platform, from, to);
    }
  }

  lemma BudgetBounds(es: seq<Event>, settings: Settings, platform: string, from: real, to: real)
    requires Budget(es, settings, platform, from, to) && !settings.CfgFor(platform).Disabled() && from <= to
    requires es != [] ==> es[|es| - 1].now <= to
    ensures var cfg := settings.CfgFor(platform);
            SentIn(es, settings, platform, from, to) as real <= cfg.EffectiveBurst() as real + Inflow(cfg.maxPerSecond, to - from)
  {
    hide SentIn, RunBuckets, Inflow, Cfg.EffectiveBurst;
    var bs, cfg := RunBuckets(es, settings), settings.CfgFor(platform);
    NewBucketOk(cfg, from);
    InflowGrows(cfg.maxPerSecond, 0.0, to - from);
    if platform in bs {
      TokensBounded(es, settings, platform);
      InflowGrows(cfg.maxPerSecond, bs[platform].lastRefill - from, to - from);
    }
  }

  // ----- no message waits without need

  /** Since `from`, when the bucket was full, every token that flowed in was sent or is left. */
  ghost predicate FullAt(es: seq<Event>, settings: Settings, platform: string, from: real, to: real) {
    var bs, cfg := RunBuckets(es, settings), settings.CfgFor(platform);
    platform in bs ==>
      && from <= bs[platform].lastRefill <= to
      && SentIn(es, settings, platform, from, to) as real + bs[platform].tokens
         == cfg.EffectiveBurst() as real + Inflow(cfg.maxPerSecond, bs[platform].lastRefill - from)
  }

  /** There is such a time: when the bucket was made, or a refill was cut off at the burst. */
  lemma {:induction false} FullSince(es: seq<Event>, settings: Settings, platform: string, to: real) returns (from: real)
    requires Monotone(es) && (es != [] ==> es[|es| - 1].now <= to) && !settings.CfgFor(platform).Disabled()
    ensures FullAt(es, settings, platform, from, to)
  {
    hide Monotone, Found, Inflow, Cfg.EffectiveBurst;
    from := to;
    if es != [] {
      MonotoneInit(es);
      var init, e := es[..|es| - 1], es[|es| - 1];
      from := FullSince(init, settings, platform, to);
      if e.platform == platform {
        var bs, cfg := RunBuckets(init, settings), settings.CfgFor(platform);
        BudgetKept(init, settings, platform, e.now, to);
        if platform in bs { TokensBounded(init, settings, platform); }
        from := FoundFull(bs, cfg, platform, e.now, from, SentIn(init, settings, platform, from, to),
                          SentIn(init, settings, platform, e.now, to));
      }
    }
  }

  /** Refilling keeps the account, or makes the bucket full now. `later`: sent from now on. */
  lemma FoundFull(bs: Buckets, cfg: Cfg, platform: string, now: real, from: real, n: nat, later: nat) returns (since: real)
    requires !cfg.Disabled()
    requires if platform !in bs then later == 0
             else && bs[platform].Ok(cfg) && from <= bs[platform].lastRefill <= now
                  && (bs[platform].lastRefill < now ==> later == 0)
                  && n as real + bs[platform].tokens
                     == cfg.EffectiveBurst() as real + Inflow(cfg.maxPerSecond, bs[platform].lastRefill - from)
    ensures var b := Found(bs, cfg, platform, now); var full := cfg.EffectiveBurst() as real;
      && b.lastRefill == now && since <= now
      && (|| (since == from && n as real + b.tokens == full + Inflow(cfg.maxPerSecond, now - from))
          || (since == now && later as real + b.tokens == full + Inflow(cfg.maxPerSecond, now - now)))
  {
    hide Inflow, Cfg.EffectiveBurst;
    var r := cfg.maxPerSecond;
    since := now;
    InflowGrows(r, 0.0, 0.0);
    if platform in bs {
      var last := bs[platform].lastRefill;
      InflowAdds(r, now - last, last - from);
      assert now - last + (last - from) == now - from;
      if last == now || Found(bs, cfg, platform, now).tokens < bs[platform].maxTokens { since := from; }
    }
  }

  /** With what was sent since `from`, the burst and the inflow leave less than a token. */
  ghost predicate UsedUp(es: seq<Event>, settings: Settings, platform: string, from: real, now: real) {
    var cfg := settings.CfgFor(platform);
    from <= now
    && SentIn(es, settings, platform, from, now) as real + 1.0 > cfg.EffectiveBurst() as real + (now - from) * cfg.maxPerSecond
  }

  /** A message is refused exactly if, from some time on, the burst and what flowed in since
      leave no token for it: the limiter keeps its budget, and no message waits without need. */
  lemma RefusedIff(es: seq<Event>, settings: Settings, platform: string, now: real)
    requires Monotone(es) && (es != [] ==> es[|es| - 1].now <= now) && !settings.CfgFor(platform).Disabled()
    ensures !Passes(RunBuckets(es, settings), settings.CfgFor(platform), platform, now)
      <==> exists from: real :: UsedUp(es, settings, platform, from, now)
  {
    hide *;
    if !Passes(RunBuckets(es, settings), settings.CfgFor(platform), platform, now) {
      var from := RefusedSince(es, settings, platform, now);
    }
    forall from: real | UsedUp(es, settings, platform, from, now)
      ensures !Passes(RunBuckets(es, settings), settings.CfgFor(platform), platform, now)
    {
      UsedUpRefuses(es, settings, platform, now, from);
    }
  }

  lemma UsedUpRefuses(es: seq<Event>, settings: Settings, platform: string, now: real, from: real)
    requires Monotone(es) && (es != [] ==> es[|es| - 1].now <= now) && !settings.CfgFor(platform).Disabled()
    requires UsedUp(es, settings, platform, from, now)
    ensures !Passes(RunBuckets(es, settings), settings.CfgFor(platform), platform, now)
  {
    hide Monotone, Found, Inflow, Cfg.EffectiveBurst, SentIn, RunFrom;
    var bs, cfg := RunBuckets(es, settings), settings.CfgFor(platform);
    InflowIs(cfg.maxPerSecond, now - from);
    BudgetKept(es, settings, platform, from, now);
    if platform in bs { TokensBounded(es, settings, platform); }
    FoundBudget(bs, cfg, platform, now, from, SentIn(es, settings, platform, from, now));
  }

  lemma RefusedSince(es: seq<Event>, settings: Settings, platform: string, now: real) returns (from: real)
    requires Monotone(es) && (es != [] ==> es[|es| - 1].now <= now) && !settings.CfgFor(platform).Disabled()
    requires !Passes(RunBuckets(es, settings), settings.CfgFor(platform), platform, now)
    ensures UsedUp(es, settings, platform, from, now)
  {
    hide Monotone, Found, Inflow, Cfg.EffectiveBurst, SentIn, RunFrom;
    var bs, cfg := RunBuckets(es, settings), settings.CfgFor(platform);
    BudgetKept(es, settings, platform, now, now);
    if platform in bs { TokensBounded(es, settings, platform); }
    from := FullSince(es, settings, platform, now);
    from := FoundFull(bs, cfg, platform, now, from, SentIn(es, settings, platform, from, now),
                      SentIn(es, settings, platform, now, now));
    InflowIs(cfg.maxPerSecond, now - from);
  }
}
