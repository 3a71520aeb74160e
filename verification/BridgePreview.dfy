/** The preview handshake between the bridge and an adapter (core/bridge.go). */
module BridgePreview {
  import opened Text

  // A request registers a channel under its ref id, an acknowledgement takes the channel out
  // and sends the handle, and the request gives up on a timeout, a cancelled context or a
  // failed send. Every critical section and every channel operation is one atomic step; steps
  // of different goroutines interleave freely.

  type AdapterId = nat
  type RequestId = nat
  type AckId = nat

  datatype Result = Handle(handle: string) | NotSupported | SendFailed | TimedOut | Cancelled

  /** Where a SendPreviewStart call stands. */
  datatype Pc =
    | Looked                 // the adapter is known, nothing is registered yet
    | Registered             // the channel is in the adapter's map
    | Waiting                // preview_start was sent
    | Leaving(why: Result)   // gave up, the map entry still has to be deleted
    | Done(result: Result)

  /** A call with its channel of one slot; `inFlight` are the handles acknowledgements are
      about to send to that channel. The last two are histories: `delivered` is all that was
      ever put into the channel, `taken` the handles of the acknowledgements that took the
      channel out of the adapter's map. */
  datatype Request = Request(
    platform: string, ref: string, adapter: AdapterId, pc: Pc,
    channel: Option<string>, inFlight: map<AckId, string>, delivered: seq<string>, taken: seq<string>)
  {
    function Key(): (AdapterId, string) {
      (adapter, ref)
    }
  }

  datatype State = State(
    adapters: map<string, AdapterId>,                       // the server's current adapters
    canPreview: map<AdapterId, bool>,                       // every adapter ever connected
    previewRequests: Entries,                               // each adapter's map, by ref id
    requests: map<RequestId, Request>)

  datatype Action =
    | Connect(platform: string, a: AdapterId, preview: bool)
    | Disconnect(platform: string, a: AdapterId)
    | Call(r: RequestId, platform: string, ref: string)
    | Register(r: RequestId)
    | Send(r: RequestId, wrote: bool)
    | Receive(r: RequestId)
    | GiveUp(r: RequestId, why: Result)
    | Unregister(r: RequestId)
    | Ack(k: AckId, a: AdapterId, ref: string, handle: string)
    | Deliver(r: RequestId, k: AckId)

  const Init := State(map[], map[], map[], map[])

  predicate At(s: State, r: RequestId, pc: Pc) {
    r in s.requests && s.requests[r].pc == pc
  }

  /** The step can be taken. A delivery blocks while the channel's slot is full. */
  predicate Enabled(s: State, act: Action) {
    match act
    case Connect(_, a, _) => a !in s.canPreview
    case Disconnect(_, a) => a in s.canPreview
    case Call(r, _, _) => r !in s.requests
    case Register(r) => At(s, r, Looked)
    case Send(r, _) => At(s, r, Registered)
    case Receive(r) => At(s, r, Waiting) && s.requests[r].channel.Some?
    case GiveUp(r, why) => At(s, r, Waiting) && why in {TimedOut, Cancelled}
    case Unregister(r) => r in s.requests && s.requests[r].pc.Leaving?
    case Ack(k, a, _, _) => a in s.canPreview && forall r :: r in s.requests ==> k !in s.requests[r].inFlight
    case Deliver(r, k) => r in s.requests && k in s.requests[r].inFlight && s.requests[r].channel.None?
  }

  type Entries = map<(AdapterId, string), RequestId>

  /** Only the entry of `key` may differ, and then it leads to `r`. */
  ghost predicate EntryOnly(before: Entries, after: Entries, key: (AdapterId, string), r: RequestId) {
    && (forall x :: x != key ==> (x in after <==> x in before) && (x in before ==> after[x] == before[x]))
    && (key in after ==> after[key] == r)
  }

  function Without(m: Entries, key: (AdapterId, string)): (r: Entries)
    ensures key !in r && forall q :: EntryOnly(m, r, key, q)
  {
    m - {key}
  }

  function With(m: Entries, key: (AdapterId, string), r: RequestId): (after: Entries)
    ensures key in after && EntryOnly(m, after, key, r)
  {
    m[key := r]
  }

  function Taken(q: Request, k: AckId, handle: string): Request {
    q.(inFlight := q.inFlight[k := handle], taken := q.taken + [handle])
  }

  function Put(s: State, r: RequestId, q: Request): State {
    s.(requests := s.requests[r := q])
  }

  function Apply(s: State, act: Action): State
    requires Enabled(s, act)
  {
    match act
    case Connect(p, a, preview) => s.(adapters := s.adapters[p := a], canPreview := s.canPreview[a := preview])
    case Disconnect(p, a) => if p in s.adapters && s.adapters[p] == a then s.(adapters := s.adapters - {p}) else s
    case Call(r, p, ref) =>
      if p in s.adapters && s.adapters[p] in s.canPreview && s.canPreview[s.adapters[p]]
      then Put(s, r, Request(p, ref, s.adapters[p], Looked, None, map[], [], []))
      else Put(s, r, Request(p, ref, 0, Done(NotSupported), None, map[], [], []))
    case Register(r) =>
      var q := s.requests[r];
      Put(s, r, q.(pc := Registered)).(previewRequests := With(s.previewRequests, q.Key(), r))
    case Send(r, wrote) =>
      var q := s.requests[r];
      Put(s, r, q.(pc := if q.platform in s.adapters && wrote then Waiting else Leaving(SendFailed)))
    case Receive(r) =>
      var q := s.requests[r];
      Put(s, r, q.(channel := None, pc := Done(Handle(q.channel.value))))
    case GiveUp(r, why) => Put(s, r, s.requests[r].(pc := Leaving(why)))
    case Unregister(r) =>
      var q := s.requests[r];
      Put(s, r, q.(pc := Done(q.pc.why))).(previewRequests := Without(s.previewRequests, q.Key()))
    case Ack(k, a, ref, handle) =>
      if (a, ref) in s.previewRequests && s.previewRequests[(a, ref)] in s.requests then
        var r := s.previewRequests[(a, ref)];
        Put(s, r, Taken(s.requests[r], k, handle)).(previewRequests := Without(s.previewRequests, (a, ref)))
      else s
    case Deliver(r, k) =>
      var q := s.requests[r];
      var h := q.inFlight[k];
      Put(s, r, q.(inFlight := q.inFlight - {k}, channel := Some(h), delivered := q.delivered + [h]))
  }

  /** Has the call returned? */
  predicate Over(q: Request) {
    q.pc.Done?
  }

  /** Of calls that overlap on one adapter the ref ids are distinct: a new call uses none that
      a call on its adapter still uses. */
  predicate FreshRef(s: State, act: Action) {
    act.Call? && act.platform in s.adapters ==>
      forall r :: r in s.requests && !Over(s.requests[r]) ==> s.requests[r].Key() != (s.adapters[act.platform], act.ref)
  }

  // ----- the invariant

  /** The adapter's map still leads to the request's channel. */
  predicate InMap(s: State, r: RequestId)
    requires r in s.requests
  {
    var key := s.requests[r].Key();
    key in s.previewRequests && s.previewRequests[key] == r
  }

  /** What holds of one request, given whether the adapter's map still leads to it. */
  ghost predicate RequestOk(q: Request, inMap: bool) {
    && |q.inFlight| <= 1 && |q.delivered| <= 1 && |q.taken| <= 1
    && (forall k :: k in q.inFlight ==> q.taken == [q.inFlight[k]])
    && (q.delivered != [] ==> q.taken == q.delivered)
    && (inMap ==> q.pc in {Registered, Waiting} || q.pc.Leaving?)
    && (inMap || q.pc == Looked ==> q.inFlight == map[] && q.delivered == [] && q.taken == [])
    && (q.pc.Leaving? ==> !q.pc.why.Handle?)
    && (q.inFlight != map[] ==> q.delivered == [])
    && (q.channel.Some? ==> q.delivered == [q.channel.value])
    && (q.pc.Done? && q.pc.result.Handle? ==> q.delivered == [q.pc.result.handle])
    && (q.pc in {Registered, Waiting} ==> inMap || q.inFlight != map[] || q.channel.Some?)
  }

  ghost predicate RequestsOk(s: State) {
    forall r :: r in s.requests ==> RequestOk(s.requests[r], InMap(s, r))
  }

  ghost predicate EntriesOk(s: State) {
    forall x :: x in s.previewRequests ==> s.previewRequests[x] in s.requests && s.requests[s.previewRequests[x]].Key() == x
  }

  ghost predicate RefsDistinct(s: State) {
    forall q, r :: q in s.requests && r in s.requests && q != r && !Over(s.requests[q]) && !Over(s.requests[r]) ==>
      s.requests[q].Key() != s.requests[r].Key()
  }

  ghost predicate Inv(s: State) {
    RefsDistinct(s) && EntriesOk(s) && RequestsOk(s)
  }

  /** The map changes at most in the entry of a call that is not over, or not at all. */
  ghost predicate MapMoves(s: State, t: State, r: RequestId)
    requires r in s.requests
  {
    t.previewRequests == s.previewRequests
    || (!Over(s.requests[r]) && EntryOnly(s.previewRequests, t.previewRequests, s.requests[r].Key(), r))
  }

  /** A step that changes request `r`, keeping its key, and at most that key's map entry,
      keeps the invariant if it does for `r` itself. A call that is over stays over. */
  lemma RequestMoves(s: State, t: State, r: RequestId)
    requires Inv(s) && r in s.requests && r in t.requests && t.requests == s.requests[r := t.requests[r]]
    requires t.requests[r].Key() == s.requests[r].Key() && (Over(s.requests[r]) ==> Over(t.requests[r]))
    requires MapMoves(s, t, r) && RequestOk(t.requests[r], InMap(t, r))
    ensures Inv(t)
  {
    hide RequestOk, RefsDistinct, EntriesOk, MapMoves;
    MovesKeepEntries(s, t, r);
    forall p | p in t.requests
      ensures RequestOk(t.requests[p], InMap(t, p))
    {
      if p != r { OtherEntry(s, t, r, p); }
    }
  }

  lemma MovesKeepEntries(s: State, t: State, r: RequestId)
    requires Inv(s) && r in s.requests && r in t.requests && t.requests == s.requests[r := t.requests[r]]
    requires t.requests[r].Key() == s.requests[r].Key() && (Over(s.requests[r]) ==> Over(t.requests[r]))
    requires MapMoves(s, t, r)
    ensures RefsDistinct(t) && EntriesOk(t)
  {
    hide RequestsOk;
  }

  /** Nothing leads to a call that is over. */
  lemma OverNotInMap(q: Request, inMap: bool)
    requires RequestOk(q, inMap)
    ensures Over(q) ==> !inMap
  {
  }

  lemma OtherEntry(s: State, t: State, r: RequestId, p: RequestId)
    requires Inv(s) && r in s.requests && p in s.requests && p != r
    requires p in t.requests && t.requests[p] == s.requests[p] && MapMoves(s, t, r)
    ensures InMap(t, p) == InMap(s, p) && RequestOk(s.requests[p], InMap(s, p))
  {
    assert RequestOk(s.requests[p], InMap(s, p));
    OverNotInMap(s.requests[p], InMap(s, p));
    hide RequestOk;
  }

  /** Of a call that is not over, the entry of its key leads to it. */
  lemma OwnEntry(s: State, r: RequestId)
    requires Inv(s) && r in s.requests
    ensures RequestOk(s.requests[r], InMap(s, r))
    ensures !Over(s.requests[r]) ==> (InMap(s, r) <==> s.requests[r].Key() in s.previewRequests)
  {
    assert RequestOk(s.requests[r], InMap(s, r));
    if s.requests[r].Key() in s.previewRequests {
      var q := s.previewRequests[s.requests[r].Key()];
      assert RequestOk(s.requests[q], InMap(s, q));
      OverNotInMap(s.requests[q], InMap(s, q));
    }
    hide RequestOk;
  }

  lemma ServerKept(s: State, t: State)
    requires Inv(s) && t.previewRequests == s.previewRequests && t.requests == s.requests
    ensures Inv(t)
  {
    hide RequestOk;
    assert forall r :: r in s.requests ==> InMap(t, r) == InMap(s, r);
  }

  lemma CallKept(s: State, act: Action)
    requires Inv(s) && act.Call? && Enabled(s, act) && FreshRef(s, act)
    ensures Inv(Apply(s, act))
  {
    hide RequestOk;
    var t, r := Apply(s, act), act.r;
    NewRequestOk(t.requests[r]);
    CallRefs(s, t, act);
    forall q | q in t.requests
      ensures RequestOk(t.requests[q], InMap(t, q))
    {
      assert q != r ==> InMap(t, q) == InMap(s, q);
    }
  }

  lemma CallRefs(s: State, t: State, act: Action)
    requires Inv(s) && act.Call? && Enabled(s, act) && FreshRef(s, act) && t == Apply(s, act)
    ensures RefsDistinct(t) && EntriesOk(t) && act.r in t.requests && !InMap(t, act.r)
  {
    hide Apply, Enabled, FreshRef, RequestsOk, RefsDistinct, EntriesOk, Put, InMap;
    var q := CallPuts(s, t, act);
    PutDistinct(s, act.r, q);
    PutEntries(s, act.r, q);
  }

  lemma CallPuts(s: State, t: State, act: Action) returns (q: Request)
    requires act.Call? && Enabled(s, act) && FreshRef(s, act) && t == Apply(s, act)
    ensures act.r !in s.requests && t == Put(s, act.r, q) && act.r in t.requests
    ensures forall r :: r in s.requests && !Over(s.requests[r]) && !Over(q) ==> s.requests[r].Key() != q.Key()
  {
    q := t.requests[act.r];
  }

  lemma PutDistinct(s: State, r: RequestId, q: Request)
    requires RefsDistinct(s) && r !in s.requests
    requires forall p :: p in s.requests && !Over(s.requests[p]) && !Over(q) ==> s.requests[p].Key() != q.Key()
    ensures RefsDistinct(Put(s, r, q))
  {
    hide Over;
  }

  lemma PutEntries(s: State, r: RequestId, q: Request)
    requires EntriesOk(s) && r !in s.requests
    ensures EntriesOk(Put(s, r, q)) && r in Put(s, r, q).requests && !InMap(Put(s, r, q), r)
  {
  }

  lemma NewRequestOk(q: Request)
    requires q.pc in {Looked, Done(NotSupported)} && q.channel == None && q.inFlight == map[] && q.delivered == []
    requires q.taken == []
    ensures RequestOk(q, false)
  {
  }

  lemma RegisteredOk(q: Request, inMap: bool)
    requires RequestOk(q, inMap) && q.pc == Looked
    ensures RequestOk(q.(pc := Registered), true)
  {
  }

  lemma RegisterKept(s: State, r: RequestId)
    requires Inv(s) && Enabled(s, Register(r))
    ensures Inv(Apply(s, Register(r)))
  {
    OwnEntry(s, r);
    RegisteredOk(s.requests[r], InMap(s, r));
    hide Inv, RequestOk, With, EntryOnly;
    RequestMoves(s, Apply(s, Register(r)), r);
  }

  lemma SendKept(s: State, r: RequestId, wrote: bool)
    requires Inv(s) && Enabled(s, Send(r, wrote))
    ensures Inv(Apply(s, Send(r, wrote)))
  {
    OwnEntry(s, r);
    hide Inv;
    RequestMoves(s, Apply(s, Send(r, wrote)), r);
  }

  lemma ReceiveKept(s: State, r: RequestId)
    requires Inv(s) && Enabled(s, Receive(r))
    ensures Inv(Apply(s, Receive(r)))
  {
    OwnEntry(s, r);
    hide Inv;
    RequestMoves(s, Apply(s, Receive(r)), r);
  }

  lemma GiveUpKept(s: State, r: RequestId, why: Result)
    requires Inv(s) && Enabled(s, GiveUp(r, why))
    ensures Inv(Apply(s, GiveUp(r, why)))
  {
    OwnEntry(s, r);
    hide Inv;
    RequestMoves(s, Apply(s, GiveUp(r, why)), r);
  }

  lemma GaveUpOk(q: Request, inMap: bool)
    requires RequestOk(q, inMap) && q.pc.Leaving?
    ensures RequestOk(q.(pc := Done(q.pc.why)), false)
  {
  }

  lemma UnregisterKept(s: State, r: RequestId)
    requires Inv(s) && Enabled(s, Unregister(r))
    ensures Inv(Apply(s, Unregister(r)))
  {
    OwnEntry(s, r);
    GaveUpOk(s.requests[r], InMap(s, r));
    hide Inv, RequestOk, Without, EntryOnly;
    var t := Apply(s, Unregister(r));
    assert EntryOnly(s.previewRequests, t.previewRequests, s.requests[r].Key(), r);
    RequestMoves(s, t, r);
  }

  lemma TakenOk(q: Request, k: AckId, handle: string)
    requires RequestOk(q, true)
    ensures RequestOk(Taken(q, k, handle), false)
  {
    assert q.inFlight[k := handle].Keys == {k};
  }

  /** What an acknowledgement that finds an entry does to the state. */
  lemma AckTakesEffect(s: State, k: AckId, a: AdapterId, ref: string, handle: string) returns (r: RequestId)
    requires EntriesOk(s) && Enabled(s, Ack(k, a, ref, handle)) && (a, ref) in s.previewRequests
    ensures r == s.previewRequests[(a, ref)] && r in s.requests && s.requests[r].Key() == (a, ref)
    ensures var t := Apply(s, Ack(k, a, ref, handle));
      t.requests == s.requests[r := Taken(s.requests[r], k, handle)]
      && t.previewRequests == Without(s.previewRequests, (a, ref))
  {
    hide Without;
    r := s.previewRequests[(a, ref)];
  }

  lemma InvIs(s: State)
    ensures Inv(s) <==> RefsDistinct(s) && EntriesOk(s) && RequestsOk(s)
  {
    hide RefsDistinct, EntriesOk, RequestsOk;
  }

  lemma AckTakes(s: State, k: AckId, a: AdapterId, ref: string, handle: string)
    requires Inv(s) && Enabled(s, Ack(k, a, ref, handle)) && (a, ref) in s.previewRequests
    ensures Inv(Apply(s, Ack(k, a, ref, handle)))
  {
    hide *;
    InvIs(s);
    var r := AckTakesEffect(s, k, a, ref, handle);
    OwnEntry(s, r);
    InMapIs(s, r);
    OverNotInMap(s.requests[r], true);
    TakenOk(s.requests[r], k, handle);
    KeyKept(s.requests[r], k, handle);
    var t := Apply(s, Ack(k, a, ref, handle));
    InMapIs(t, r);
    WithoutMoves(s, t, r);
    RequestMoves(s, t, r);
  }

  lemma InMapIs(s: State, r: RequestId)
    requires r in s.requests
    ensures InMap(s, r) <==> s.requests[r].Key() in s.previewRequests && s.previewRequests[s.requests[r].Key()] == r
  {
  }

  lemma WithoutMoves(s: State, t: State, r: RequestId)
    requires r in s.requests && !Over(s.requests[r])
    requires t.previewRequests == Without(s.previewRequests, s.requests[r].Key())
    ensures MapMoves(s, t, r)
  {
    hide EntryOnly;
    assert EntryOnly(s.previewRequests, t.previewRequests, s.requests[r].Key(), r);
  }

  lemma KeyKept(q: Request, k: AckId, handle: string)
    ensures Taken(q, k, handle).Key() == q.Key() && Over(Taken(q, k, handle)) == Over(q)
  {
  }

  lemma AckIgnored(s: State, k: AckId, a: AdapterId, ref: string, handle: string)
    requires Inv(s) && Enabled(s, Ack(k, a, ref, handle)) && (a, ref) !in s.previewRequests
    ensures Inv(Apply(s, Ack(k, a, ref, handle)))
  {
    hide Inv;
    assert Apply(s, Ack(k, a, ref, handle)) == s;
  }

  lemma DeliverKept(s: State, r: RequestId, k: AckId)
    requires Inv(s) && Enabled(s, Deliver(r, k))
    ensures Inv(Apply(s, Deliver(r, k)))
  {
    OwnEntry(s, r);
    hide Inv;
    var q, t := s.requests[r], Apply(s, Deliver(r, k));
    assert q.inFlight.Keys == {k} by {
      assert |q.inFlight.Keys - {k}| == |q.inFlight.Keys| - 1;
    }
    RequestMoves(s, t, r);
  }

  /** Every step of every interleaving keeps the invariant. */
  lemma StepKeepsInv(s: State, act: Action)
    requires Inv(s) && Enabled(s, act) && FreshRef(s, act)
    ensures Inv(Apply(s, act))
  {
    hide Inv;
    match act {
      case Connect(_, _, _) => ServerKept(s, Apply(s, act));
      case Disconnect(_, _) => ServerKept(s, Apply(s, act));
      case Call(_, _, _) => CallKept(s, act);
      case Register(r) => RegisterKept(s, r);
      case Send(r, wrote) => SendKept(s, r, wrote);
      case Receive(r) => ReceiveKept(s, r);
      case GiveUp(r, why) => GiveUpKept(s, r, why);
      case Unregister(r) => UnregisterKept(s, r);
      case Ack(k, a, ref, handle) =>
        if (a, ref) in s.previewRequests { AckTakes(s, k, a, ref, handle); } else { AckIgnored(s, k, a, ref, handle); }
      case Deliver(r, k) => DeliverKept(s, r, k);
    }
  }

  // ----- what every interleaving guarantees

  ghost predicate IsRun(states: seq<State>, acts: seq<Action>) {
    && |states| == |acts| + 1 && states[0] == Init
    && forall i :: 0 <= i < |acts| ==>
         Enabled(states[i], acts[i]) && FreshRef(states[i], acts[i]) && states[i + 1] == Apply(states[i], acts[i])
  }

  lemma {:induction false} RunInv(states: seq<State>, acts: seq<Action>, i: nat)
    requires IsRun(states, acts) && i < |states|
    ensures Inv(states[i])
  {
    hide Inv;
    if i == 0 {
      InitInv();
    } else {
      RunInv(states, acts, i - 1);
      StepKeepsInv(states[i - 1], acts[i - 1]);
    }
  }

  lemma InitInv()
    ensures Inv(Init)
  {
  }

  /** The step is an acknowledgement that takes the channel of `r` out of the adapter's map. */
  predicate Takes(s: State, act: Action, r: RequestId) {
    act.Ack? && r in s.requests && s.requests[r].Key() == (act.a, act.ref) && InMap(s, r)
  }

  /** The handles of the acknowledgements among the first `i` steps that took the channel of
      `r`; all others came too early, too late, or for something else. */
  function Takers(states: seq<State>, acts: seq<Action>, i: nat, r: RequestId): seq<string>
    requires |states| == |acts| + 1 && i <= |acts|
  {
    if i == 0 then []
    else Takers(states, acts, i - 1, r) + if Takes(states[i - 1], acts[i - 1], r) then [acts[i - 1].handle] else []
  }

  /** One step extends the history of `r` exactly if it takes its channel. */
  lemma StepTakes(s: State, act: Action, r: RequestId)
    requires Inv(s) && Enabled(s, act) && r in Apply(s, act).requests
    ensures r in s.requests || (!Takes(s, act, r) && Apply(s, act).requests[r].taken == [])
    ensures r in s.requests ==>
      Apply(s, act).requests[r].taken == s.requests[r].taken + if Takes(s, act, r) then [act.handle] else []
  {
    if act.Ack? && (act.a, act.ref) in s.previewRequests {
      hide *;
      InvIs(s);
      var x := AckTakesEffect(s, act.k, act.a, act.ref, act.handle);
      TakesIs(s, act, r);
      TakenIs(s.requests[x], act.k, act.handle);
    } else {
      hide *;
      InvIs(s);
      if act.Ack? { NothingTaken(s, act, r); } else { QuietStep(s, act, r); }
    }
  }

  lemma NothingTaken(s: State, act: Action, r: RequestId)
    requires act.Ack? && (act.a, act.ref) !in s.previewRequests && Enabled(s, act)
    ensures Apply(s, act) == s && !Takes(s, act, r)
  {
  }

  /** No other step changes the history. */
  lemma QuietStep(s: State, act: Action, r: RequestId)
    requires !act.Ack? && Enabled(s, act) && r in Apply(s, act).requests
    ensures !Takes(s, act, r)
    ensures Apply(s, act).requests[r].taken == if r in s.requests then s.requests[r].taken else []
  {
    hide With, Without, EntryOnly, InMap;
  }

  lemma TakesIs(s: State, act: Action, r: RequestId)
    requires Inv(s) && act.Ack? && (act.a, act.ref) in s.previewRequests
    ensures Takes(s, act, r) <==> r == s.previewRequests[(act.a, act.ref)]
  {
    hide RequestsOk, RefsDistinct;
  }

  lemma TakenIs(q: Request, k: AckId, handle: string)
    ensures Taken(q, k, handle).taken == q.taken + [handle]
  {
  }

  lemma {:induction false} TakenByTakers(states: seq<State>, acts: seq<Action>, i: nat, r: RequestId)
    requires IsRun(states, acts) && i < |states|
    ensures Takers(states, acts, i, r) == if r in states[i].requests then states[i].requests[r].taken else []
  {
    if i > 0 {
      TakenByTakers(states, acts, i - 1, r);
      RunInv(states, acts, i - 1);
      var s, act := states[i - 1], acts[i - 1];
      RequestsStay(s, act, r);
      if r in states[i].requests { StepTakes(s, act, r); }
    }
    hide Inv, Takes, Enabled, FreshRef, Apply;
  }

  lemma RequestsStay(s: State, act: Action, r: RequestId)
    requires Enabled(s, act)
    ensures r in s.requests ==> r in Apply(s, act).requests
    ensures r !in s.requests ==> !Takes(s, act, r)
  {
    hide Without, EntryOnly;
  }

  /** In every interleaving in which overlapping calls on one adapter have distinct ref ids: an
      acknowledgement's send never blocks, a
      channel receives at most one handle, at most one acknowledgement takes a call's channel
      and a handle is returned only if it is that one's, a finished call is in no adapter's
      map, and a waiting call can still be reached by an acknowledgement or has its handle on
      the way. */
  lemma HandshakeSafe(states: seq<State>, acts: seq<Action>, i: nat, r: RequestId)
    requires IsRun(states, acts) && i < |states| && r in states[i].requests
    ensures var s, q := states[i], states[i].requests[r];
      && (forall k :: k in q.inFlight ==> Enabled(s, Deliver(r, k)))
      && |q.delivered| <= 1 && |Takers(states, acts, i, r)| <= 1
      && (q.pc.Done? && q.pc.result.Handle? ==> Takers(states, acts, i, r) == [q.pc.result.handle])
      && (q.pc.Done? ==> r !in s.previewRequests.Values)
      && (q.pc == Waiting ==> InMap(s, r) || q.inFlight != map[] || q.channel.Some?)
  {
    RunInv(states, acts, i);
    TakenByTakers(states, acts, i, r);
    hide Takers;
    var s, q := states[i], states[i].requests[r];
    OwnEntry(s, r);
    forall x | x in s.previewRequests && s.previewRequests[x] == r
      ensures !q.pc.Done?
    {
      assert x == q.Key();
    }
  }

  lemma AckEffect(s: State, r: RequestId, k: AckId, handle: string)
    requires Inv(s) && r in s.requests && InMap(s, r)
    requires Enabled(s, Ack(k, s.requests[r].adapter, s.requests[r].ref, handle))
    ensures var q, s1 := s.requests[r], Apply(s, Ack(k, s.requests[r].adapter, s.requests[r].ref, handle));
            r in s1.requests && s1.requests[r] == q.(inFlight := map[k := handle], taken := [handle]) && q.channel.None?
  {
    OwnEntry(s, r);
  }

  /** The acknowledgement of a waiting call is what that call returns. */
  lemma AckIsReturned(s: State, r: RequestId, k: AckId, handle: string)
    requires Inv(s) && At(s, r, Waiting) && InMap(s, r)
    requires Enabled(s, Ack(k, s.requests[r].adapter, s.requests[r].ref, handle))
    ensures var s1 := Apply(s, Ack(k, s.requests[r].adapter, s.requests[r].ref, handle));
            && Enabled(s1, Deliver(r, k))
            && var s2 := Apply(s1, Deliver(r, k));
            && Enabled(s2, Receive(r))
            && At(Apply(s2, Receive(r)), r, Done(Handle(handle)))
  {
    AckEffect(s, r, k, handle);
    var s1 := Apply(s, Ack(k, s.requests[r].adapter, s.requests[r].ref, handle));
    hide Inv, Without, EntryOnly;
    DeliverEffect(s1, r, k);
  }

  lemma DeliverEffect(s: State, r: RequestId, k: AckId)
    requires r in s.requests && s.requests[r].pc == Waiting && s.requests[r].channel.None? && k in s.requests[r].inFlight
    ensures Enabled(s, Deliver(r, k))
    ensures var s2 := Apply(s, Deliver(r, k));
            Enabled(s2, Receive(r)) && At(Apply(s2, Receive(r)), r, Done(Handle(s.requests[r].inFlight[k])))
  {
  }

  /** Taking the steps one after the other leads from `s` to `t`. */
  ghost predicate Leads(s: State, acts: seq<Action>, t: State)
    decreases |acts|
  {
    if acts == [] then t == s else Enabled(s, acts[0]) && Leads(Apply(s, acts[0]), acts[1..], t)
  }

  lemma {:induction false} LeadsTwice(s: State, a: seq<Action>, m: State, b: seq<Action>, t: State)
    requires Leads(s, a, m) && Leads(m, b, t)
    ensures Leads(s, a + b, t)
    decreases |a|
  {
    if a == [] {
      assert a + b == b;
    } else {
      assert (a + b)[1..] == a[1..] + b;
      LeadsTwice(Apply(s, a[0]), a[1..], m, b, t);
    }
  }

  /** The call waits, and no acknowledgement can reach it. */
  predicate Lost(s: State, q: RequestId) {
    && At(s, q, Waiting) && s.requests[q].channel.None? && s.requests[q].inFlight == map[]
    && s.requests[q].Key() !in s.previewRequests
  }

  /** Why ref ids must be distinct: from the initial state, two calls started with one ref id
      can end with the first deleting the entry of the other, which no acknowledgement can
      reach any more. */
  lemma SharedRefLosesCall(platform: string, a: AdapterId, ref: string, q1: RequestId, q2: RequestId)
      returns (acts: seq<Action>, t: State)
    requires q1 != q2
    ensures acts == [Connect(platform, a, true), Call(q1, platform, ref), Call(q2, platform, ref)] + Mixed(q1, q2)
    ensures Leads(Init, acts, t) && Lost(t, q2)
  {
    hide Enabled, Apply, Lost;
    var s := TwoCalls(platform, a, ref, q1, q2);
    t := FirstDeletes(s, a, ref, q1, q2);
    LeadsTwice(Init, [Connect(platform, a, true), Call(q1, platform, ref), Call(q2, platform, ref)], s, Mixed(q1, q2), t);
    acts := [Connect(platform, a, true), Call(q1, platform, ref), Call(q2, platform, ref)] + Mixed(q1, q2);
  }

  /** Both register, the second sends, the first fails to. */
  function Mixed(q1: RequestId, q2: RequestId): seq<Action> {
    [Register(q1), Register(q2), Send(q2, true), Send(q1, false), Unregister(q1)]
  }

  lemma LeadsOne(s: State, act: Action)
    requires Enabled(s, act)
    ensures Leads(s, [act], Apply(s, act))
  {
    hide Enabled, Apply;
    assert [act][1..] == [];
  }

  lemma TwoCalls(platform: string, a: AdapterId, ref: string, q1: RequestId, q2: RequestId) returns (s: State)
    requires q1 != q2
    ensures Leads(Init, [Connect(platform, a, true), Call(q1, platform, ref), Call(q2, platform, ref)], s)
    ensures At(s, q1, Looked) && At(s, q2, Looked) && s.requests[q1].Key() == s.requests[q2].Key() == (a, ref)
    ensures s.requests[q2].channel.None? && s.requests[q2].inFlight == map[] && s.requests[q2].platform in s.adapters
  {
    var s1 := Apply(Init, Connect(platform, a, true));
    var s2 := Apply(s1, Call(q1, platform, ref));
    s := Apply(s2, Call(q2, platform, ref));
    LeadsOne(Init, Connect(platform, a, true));
    LeadsOne(s1, Call(q1, platform, ref));
    LeadsOne(s2, Call(q2, platform, ref));
    hide Enabled, Apply, Leads;
    LeadsTwice(Init, [Connect(platform, a, true)], s1, [Call(q1, platform, ref)], s2);
    LeadsTwice(Init, [Connect(platform, a, true)] + [Call(q1, platform, ref)], s2, [Call(q2, platform, ref)], s);
    assert [Connect(platform, a, true)] + [Call(q1, platform, ref)] + [Call(q2, platform, ref)]
        == [Connect(platform, a, true), Call(q1, platform, ref), Call(q2, platform, ref)];
  }

  lemma FirstDeletes(s: State, a: AdapterId, ref: string, q1: RequestId, q2: RequestId) returns (t: State)
    requires q1 != q2 && At(s, q1, Looked) && At(s, q2, Looked)
    requires s.requests[q1].Key() == s.requests[q2].Key() == (a, ref)
    requires s.requests[q2].channel.None? && s.requests[q2].inFlight == map[]
    requires s.requests[q2].platform in s.adapters
    ensures Leads(s, Mixed(q1, q2), t) && Lost(t, q2)
  {
    var s2 := BothRegister(s, a, ref, q1, q2);
    var s4 := OneSends(s2, a, ref, q1, q2);
    t := Apply(s4, Unregister(q1));
    LastDeletes(s4, a, ref, q1, q2);
    LeadsOne(s4, Unregister(q1));
    hide Enabled, Apply, Leads, Lost;
    LeadsTwice(s, [Register(q1), Register(q2)], s2, [Send(q2, true), Send(q1, false)], s4);
    LeadsTwice(s, [Register(q1), Register(q2)] + [Send(q2, true), Send(q1, false)], s4, [Unregister(q1)], t);
    assert [Register(q1), Register(q2)] + [Send(q2, true), Send(q1, false)] + [Unregister(q1)] == Mixed(q1, q2);
  }

  lemma BothRegister(s: State, a: AdapterId, ref: string, q1: RequestId, q2: RequestId) returns (s2: State)
    requires q1 != q2 && At(s, q1, Looked) && At(s, q2, Looked)
    requires s.requests[q1].Key() == s.requests[q2].Key() == (a, ref)
    requires s.requests[q2].channel.None? && s.requests[q2].inFlight == map[] && s.requests[q2].platform in s.adapters
    ensures Leads(s, [Register(q1), Register(q2)], s2)
    ensures At(s2, q1, Registered) && At(s2, q2, Registered) && s2.requests[q1].Key() == s2.requests[q2].Key() == (a, ref)
    ensures s2.requests[q2].channel.None? && s2.requests[q2].inFlight == map[] && s2.requests[q2].platform in s2.adapters
  {
    var s1 := Apply(s, Register(q1));
    s2 := Apply(s1, Register(q2));
    LeadsOne(s, Register(q1));
    LeadsOne(s1, Register(q2));
    hide Leads;
    LeadsTwice(s, [Register(q1)], s1, [Register(q2)], s2);
    assert [Register(q1)] + [Register(q2)] == [Register(q1), Register(q2)];
  }

  lemma OneSends(s: State, a: AdapterId, ref: string, q1: RequestId, q2: RequestId) returns (s2: State)
    requires q1 != q2 && At(s, q1, Registered) && At(s, q2, Registered)
    requires s.requests[q1].Key() == s.requests[q2].Key() == (a, ref)
    requires s.requests[q2].channel.None? && s.requests[q2].inFlight == map[] && s.requests[q2].platform in s.adapters
    ensures Leads(s, [Send(q2, true), Send(q1, false)], s2)
    ensures At(s2, q1, Leaving(SendFailed)) && At(s2, q2, Waiting) && s2.requests[q1].Key() == s2.requests[q2].Key() == (a, ref)
    ensures s2.requests[q2].channel.None? && s2.requests[q2].inFlight == map[]
  {
    var s1 := Apply(s, Send(q2, true));
    s2 := Apply(s1, Send(q1, false));
    LeadsOne(s, Send(q2, true));
    LeadsOne(s1, Send(q1, false));
    hide Leads;
    LeadsTwice(s, [Send(q2, true)], s1, [Send(q1, false)], s2);
    assert [Send(q2, true)] + [Send(q1, false)] == [Send(q2, true), Send(q1, false)];
  }

  lemma LastDeletes(s: State, a: AdapterId, ref: string, q1: RequestId, q2: RequestId)
    requires q1 != q2 && At(s, q1, Leaving(SendFailed)) && At(s, q2, Waiting)
    requires s.requests[q1].Key() == s.requests[q2].Key() == (a, ref)
    requires s.requests[q2].channel.None? && s.requests[q2].inFlight == map[]
    ensures Enabled(s, Unregister(q1)) && Lost(Apply(s, Unregister(q1)), q2)
  {
    hide EntryOnly;
  }

  // ----- why a call returned what it returned

  /** The step decides that the call ends with this result. */
  predicate Decides(s: State, act: Action, r: RequestId, result: Result) {
    match result
    case NotSupported =>
      act.Call? && act.r == r
      && !(act.platform in s.adapters && s.adapters[act.platform] in s.canPreview && s.canPreview[s.adapters[act.platform]])
    case SendFailed =>
      act.Send? && act.r == r && r in s.requests && (!act.wrote || s.requests[r].platform !in s.adapters)
    case Handle(h) => act == Receive(r) && r in s.requests && s.requests[r].channel == Some(h)
    case _ => act == GiveUp(r, result)
  }

  predicate EndsWith(s: State, r: RequestId, result: Result) {
    r in s.requests && (s.requests[r].pc == Done(result) || s.requests[r].pc == Leaving(result))
  }

  lemma StepDecides(s: State, act: Action, r: RequestId, result: Result)
    requires Enabled(s, act) && EndsWith(Apply(s, act), r, result)
    ensures EndsWith(s, r, result) || Decides(s, act, r, result)
  {
    hide Without, With;
  }

  /** In every run a call that returned, or gave up, did so for the reason it gives: no preview
      on its adapter when it was made, a message that could not be sent, a timeout, a cancelled
      context, or the handle in its channel. */
  lemma {:induction false} ResultsExplained(states: seq<State>, acts: seq<Action>, i: nat, r: RequestId, result: Result)
    requires IsRun(states, acts) && i < |states| && EndsWith(states[i], r, result)
    ensures exists j :: 0 <= j < i && Decides(states[j], acts[j], r, result)
  {
    hide Enabled, Apply, FreshRef, EndsWith, Decides;
    if i == 0 {
      NothingEnded(r, result);
    } else {
      StepDecides(states[i - 1], acts[i - 1], r, result);
      if EndsWith(states[i - 1], r, result) {
        ResultsExplained(states, acts, i - 1, r, result);
      } else {
        assert Decides(states[i - 1], acts[i - 1], r, result);
      }
    }
  }

  lemma NothingEnded(r: RequestId, result: Result)
    ensures !EndsWith(Init, r, result)
  {
  }
}
