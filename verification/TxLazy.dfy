/** The TypeScript handle: it copies a request's own fields, shares what they point at, and binds
    a stream's request only when the stream is first read. */
module TxLazy {
  import opened Wrappers
  import opened TxBinding

  class SpreadHandle {
    const raw: Wire
    const database: string
    const id: string

    constructor (raw: Wire, database: string, id: string)
      ensures this.raw == raw && this.database == database && this.id == id
    {
      this.raw, this.database, this.id := raw, database, id;
    }

    method BindTransaction(request: Request?) returns (r: Request)
      ensures fresh(r) && r.transaction != null && fresh(r.transaction)
      ensures request != null ==> r.parts == request.parts
      ensures r.Look() == Bind(if request == null then EMPTY else old(request.Look()), id, database)
    {
      r := new Request();
      if request != null {
        r.text, r.parts := request.text, request.parts;
      }
      var c := new Context(Tx(id, database, false, false, false, 0));
      r.database, r.transaction := database, c;
      if request == null {
        assert r.Look().body.parts == [];
      } else {
        assert r.Look().body.parts == request.Look().body.parts;
      }
    }

    method Call(request: Request?)
      modifies raw
      ensures raw.sent == old(raw.sent) + [Bind(if request == null then EMPTY else old(request.Look()), id, database)]
    {
      var r := BindTransaction(request);
      raw.Send(r);
    }
  }

  /** What a streaming call returns: a generator that has not bound anything yet, and that can be
      read once. */
  class LazyStream {
    const handle: SpreadHandle
    const request: Request?
    var started: bool

    constructor (handle: SpreadHandle, request: Request?)
      ensures this.handle == handle && this.request == request && !started
    {
      this.handle, this.request, started := handle, request, false;
    }

    /** The first read sends the caller's request as it is by then; a later one sends nothing. */
    method Read()
      modifies handle.raw, this
      ensures started
      ensures handle.raw.sent == if old(started) then old(handle.raw.sent)
                else old(handle.raw.sent)
                     + [Bind(if request == null then EMPTY else old(request.Look()), handle.id, handle.database)]
    {
      if !started {
        started := true;
        handle.Call(request);
      }
    }
  }

  // ---------------------------------------------------------------- any sequence of calls

  /** A stream by the index of the caller's request it will send. */
  datatype Pending = Pending(k: Option<nat>, started: bool)

  datatype LazyState = LazyState(store: Store, streams: seq<Pending>, sent: seq<Message>)

  predicate Ready(s: LazyState) {
    Fits(s.store) && forall j :: 0 <= j < |s.streams| ==> Names(s.store, s.streams[j].k)
  }

  predicate Feasible(s: LazyState, step: Step) {
    match step
    case Unary(k) => Names(s.store, k)
    case OpenStream(k) => Names(s.store, k)
    case RangeOver(j) => j < |s.streams|
    case Mutates(change) => Possible(s.store, change)
  }

  /** As for the Go handle, a step that is not possible is skipped. */
  function LazyNext(s: LazyState, step: Step, id: string, database: string): LazyState
    requires Ready(s)
  {
    if !Feasible(s, step) then s
    else match step
      case Unary(k) => s.(sent := s.sent + [Bind(Argument(s.store, k), id, database)])
      case OpenStream(k) => s.(streams := s.streams + [Pending(k, false)])
      case RangeOver(j) =>
        if s.streams[j].started then s
        else s.(streams := s.streams[j := s.streams[j].(started := true)],
                sent := s.sent + [Bind(Argument(s.store, s.streams[j].k), id, database)])
      case Mutates(change) => s.(store := Apply(s.store, change))
  }

  lemma LazyNextReady(s: LazyState, step: Step, id: string, database: string)
    requires Ready(s)
    ensures Ready(LazyNext(s, step, id, database))
  {
    hide Bind, Argument, MessageAt, Fits, Apply;
    if step.Mutates? && Possible(s.store, step.change) {
      ApplyFits(s.store, step.change);
    }
  }

  function LazyPlay(s: LazyState, steps: seq<Step>, id: string, database: string): LazyState
    requires Ready(s)
    decreases |steps|
  {
    if steps == [] then s
    else
      LazyNextReady(s, steps[0], id, database);
      LazyPlay(LazyNext(s, steps[0], id, database), steps[1..], id, database)
  }

  /** A stream the caller holds: the handle's, over the caller's own request. */
  ghost predicate Waits(q: LazyStream, h: SpreadHandle, caller: Caller, p: Pending)
    reads q
  {
    && q.handle == h && q.started == p.started
    && match p.k
       case None => q.request == null
       case Some(k) => k < |caller.requests| && q.request == caller.requests[k]
  }

  ghost predicate LazyMirrors(h: SpreadHandle, caller: Caller, streams: seq<LazyStream>, s: LazyState)
    reads *
  {
    && Ready(s) && caller.Shows(s.store) && h.raw.sent == s.sent && |streams| == |s.streams|
    && (forall i, j :: 0 <= i < j < |streams| ==> streams[i] != streams[j])
    && forall j :: 0 <= j < |streams| ==> Waits(streams[j], h, caller, s.streams[j])
  }

  method PerformCall(h: SpreadHandle, caller: Caller, streams: seq<LazyStream>, s: LazyState, k: Option<nat>)
    requires LazyMirrors(h, caller, streams, s) && Feasible(s, Unary(k))
    modifies h.raw
    ensures LazyMirrors(h, caller, streams, LazyNext(s, Unary(k), h.id, h.database))
  {
    hide Argument, Bind, MessageAt, Fits;
    ArgumentIs(caller, s.store, k);
    h.Call(if k.None? then null else caller.requests[k.value]);
  }

  method PerformOpen(h: SpreadHandle, caller: Caller, streams: seq<LazyStream>, s: LazyState, k: Option<nat>)
      returns (now: seq<LazyStream>)
    requires LazyMirrors(h, caller, streams, s) && Feasible(s, OpenStream(k))
    ensures LazyMirrors(h, caller, now, LazyNext(s, OpenStream(k), h.id, h.database))
    ensures streams <= now && fresh(now[|streams|..])
  {
    hide Argument, Bind, MessageAt, Fits;
    ArgumentIs(caller, s.store, k);
    var q := new LazyStream(h, if k.None? then null else caller.requests[k.value]);
    now := streams + [q];
  }

  method PerformRead(h: SpreadHandle, caller: Caller, streams: seq<LazyStream>, s: LazyState, j: nat)
    requires LazyMirrors(h, caller, streams, s) && Feasible(s, RangeOver(j))
    modifies h.raw, streams
    ensures LazyMirrors(h, caller, streams, LazyNext(s, RangeOver(j), h.id, h.database))
  {
    hide Argument, Bind, MessageAt, Fits, Caller.ShowsRequest;
    assert Waits(streams[j], h, caller, s.streams[j]);
    ArgumentIs(caller, s.store, s.streams[j].k);
    streams[j].Read();
  }

  method PerformMutation(h: SpreadHandle, caller: Caller, streams: seq<LazyStream>, s: LazyState, change: Change)
    requires LazyMirrors(h, caller, streams, s) && Possible(s.store, change)
    modifies caller.Objects()
    ensures LazyMirrors(h, caller, streams, LazyNext(s, Mutates(change), h.id, h.database))
  {
    hide Possible, Apply, Caller.Shows, Fits;
    ApplyFits(s.store, change);
    caller.Mutate(s.store, change);
    forall j | 0 <= j < |streams| ensures Waits(streams[j], h, caller, s.streams[j]) {
      assert old(Waits(streams[j], h, caller, s.streams[j]));
    }
  }

  method LazyPerform(h: SpreadHandle, caller: Caller, streams: seq<LazyStream>, s: LazyState, step: Step)
      returns (now: seq<LazyStream>)
    requires LazyMirrors(h, caller, streams, s)
    modifies h.raw, caller.Objects(), streams
    ensures LazyMirrors(h, caller, now, LazyNext(s, step, h.id, h.database))
    ensures streams <= now && fresh(now[|streams|..])
  {
    hide LazyMirrors;
    now := streams;
    if Feasible(s, step) {
      match step
      case Unary(k) => PerformCall(h, caller, streams, s, k);
      case OpenStream(k) => now := PerformOpen(h, caller, streams, s, k);
      case RangeOver(j) => PerformRead(h, caller, streams, s, j);
      case Mutates(change) => PerformMutation(h, caller, streams, s, change);
    }
  }

  /** Any run of a callback over the TypeScript handle: the messages on the wire are exactly those
      of the value-level run, and the caller's objects hold exactly what its own changes put there. */
  method LazyDrive(h: SpreadHandle, caller: Caller, st: Store, steps: seq<Step>) returns (sent: seq<Message>)
    requires caller.Shows(st) && Ready(LazyState(st, [], [])) && h.raw.sent == []
    modifies h.raw, caller.Objects()
    ensures sent == h.raw.sent == LazyPlay(LazyState(st, [], []), steps, h.id, h.database).sent
    ensures caller.Shows(LazyPlay(LazyState(st, [], []), steps, h.id, h.database).store)
  {
    hide LazyNext, LazyMirrors, Fits;
    var s := LazyState(st, [], []);
    var streams: seq<LazyStream> := [];
    NothingOpen(h, caller, s);
    for i := 0 to |steps|
      invariant LazyMirrors(h, caller, streams, s) && Ready(s)
      invariant forall j :: 0 <= j < |streams| ==> fresh(streams[j])
      invariant LazyPlay(s, steps[i..], h.id, h.database) == LazyPlay(LazyState(st, [], []), steps, h.id, h.database)
    {
      var now := LazyPerform(h, caller, streams, s, steps[i]);
      assert steps[i..][1..] == steps[i + 1..];
      LazyNextReady(s, steps[i], h.id, h.database);
      forall j | 0 <= j < |now| ensures fresh(now[j]) {
        if j < |streams| {
          assert now[j] == now[..|streams|][j];
        } else {
          assert now[j] == now[|streams|..][j - |streams|];
        }
      }
      streams := now;
      s := LazyNext(s, steps[i], h.id, h.database);
    }
    MirrorsTell(h, caller, streams, s);
    sent := h.raw.sent;
  }

  lemma NothingOpen(h: SpreadHandle, caller: Caller, s: LazyState)
    requires caller.Shows(s.store) && h.raw.sent == s.sent && s.streams == []
    ensures LazyMirrors(h, caller, [], s)
  {
  }

  lemma MirrorsTell(h: SpreadHandle, caller: Caller, streams: seq<LazyStream>, s: LazyState)
    requires LazyMirrors(h, caller, streams, s)
    ensures caller.Shows(s.store) && h.raw.sent == s.sent
  {
  }

  // ---------------------------------------------------------------- what every run keeps

  predicate SentBound(s: LazyState, id: string, database: string) {
    forall m :: m in s.sent ==> IsBound(m, id, database)
  }

  /** Streams stay where they are, over the same request, and read once they were read. */
  predicate Continues(s: LazyState, t: LazyState) {
    && s.sent <= t.sent && |s.streams| <= |t.streams|
    && forall j :: 0 <= j < |s.streams| ==>
         t.streams[j].k == s.streams[j].k && (s.streams[j].started ==> t.streams[j].started)
  }

  lemma LazyNextTells(s: LazyState, step: Step, id: string, database: string)
    requires Ready(s)
    ensures var t := LazyNext(s, step, id, database);
            Continues(s, t) && (SentBound(s, id, database) ==> SentBound(t, id, database))
  {
    hide Fits, Argument, Apply, Possible;
  }

  lemma {:induction false} LazyPlayTells(s: LazyState, steps: seq<Step>, id: string, database: string)
    requires Ready(s)
    ensures var t := LazyPlay(s, steps, id, database);
            && Ready(t) && Continues(s, t)
            && (SentBound(s, id, database) ==> SentBound(t, id, database))
    decreases |steps|
  {
    hide Ready, LazyNext, SentBound;
    if steps != [] {
      LazyNextReady(s, steps[0], id, database);
      LazyNextTells(s, steps[0], id, database);
      LazyPlayTells(LazyNext(s, steps[0], id, database), steps[1..], id, database);
    }
  }

  /** Every message names the handle's database and a context with its id and database only. */
  lemma EveryLazyMessageIsBound(st: Store, steps: seq<Step>, id: string, database: string)
    requires Fits(st)
    ensures var s := LazyState(st, [], []);
            Ready(s) && forall m :: m in LazyPlay(s, steps, id, database).sent ==> IsBound(m, id, database)
  {
    LazyPlayTells(LazyState(st, [], []), steps, id, database);
  }

  lemma {:induction false} LazyPlayAppend(s: LazyState, a: seq<Step>, b: seq<Step>, id: string, database: string)
    requires Ready(s)
    ensures Ready(LazyPlay(s, a, id, database))
    ensures LazyPlay(s, a + b, id, database) == LazyPlay(LazyPlay(s, a, id, database), b, id, database)
    decreases |a|
  {
    LazyPlayTells(s, a, id, database);
    hide Ready, LazyNext;
    if a == [] {
      assert a + b == b;
    } else {
      assert (a + b)[0] == a[0] && (a + b)[1..] == a[1..] + b;
      LazyNextReady(s, a[0], id, database);
      LazyPlayAppend(LazyNext(s, a[0], id, database), a[1..], b, id, database);
    }
  }

  /** The step `x` of a run, seen from the state before it. */
  lemma LazyPlayAt(s: LazyState, before: seq<Step>, x: Step, after: seq<Step>, id: string, database: string)
    requires Ready(s)
    ensures var r := LazyPlay(s, before, id, database);
            Ready(r)
            && var n := LazyNext(r, x, id, database);
               Continues(n, LazyPlay(s, before + [x] + after, id, database))
  {
    hide Ready, LazyNext, Continues;
    var r := LazyPlay(s, before, id, database);
    assert before + [x] + after == before + ([x] + after);
    LazyPlayAppend(s, before, [x] + after, id, database);
    assert ([x] + after)[1..] == after;
    LazyNextReady(r, x, id, database);
    LazyPlayTells(LazyNext(r, x, id, database), after, id, database);
  }

  /** Both handles leave the caller's graph alone: under the same steps it is the same. */
  lemma {:induction false} SameStore(s: LazyState, g: State, steps: seq<Step>, id: string, database: string)
    requires Ready(s) && Fits(g.store) && g.store == s.store
    ensures LazyPlay(s, steps, id, database).store == Play(g, steps, id, database).store
    decreases |steps|
  {
    hide Ready, Fits, Argument, Apply, Bind;
    if steps != [] {
      LazyNextReady(s, steps[0], id, database);
      NextFits(g, steps[0], id, database);
      SameStore(LazyNext(s, steps[0], id, database), Next(g, steps[0], id, database), steps[1..], id, database);
    }
  }

  /** The first read of a stream, however late, sends the caller's request as it stands at that
      read; a later read sends nothing. */
  lemma ReadSendsTheRequestThen(st: Store, before: seq<Step>, k: nat, between: seq<Step>, after: seq<Step>,
                                id: string, database: string)
    requires Fits(st) && k < |st.requests|
    ensures var s := LazyState(st, [], []);
            Ready(s)
            && var j := |LazyPlay(s, before, id, database).streams|;
               var upTo := before + [OpenStream(Some(k))] + between;
               var u := LazyPlay(s, upTo, id, database);
               var t := LazyPlay(s, upTo + [RangeOver(j)] + after, id, database);
               && Ready(u) && k < |u.store.requests| && j < |u.streams|
               && (!u.streams[j].started ==>
                    |u.sent| < |t.sent| && t.sent[|u.sent|] == Bind(MessageAt(u.store, k), id, database))
               && (u.streams[j].started ==> LazyNext(u, RangeOver(j), id, database) == u)
  {
    var s := LazyState(st, [], []);
    var r := LazyPlay(s, before, id, database);
    var j := |r.streams|;
    LazyPlayTells(s, before, id, database);
    LazyRequestsStay(s, before, id, database);
    LazyPlayAt(s, before, OpenStream(Some(k)), between, id, database);
    var upTo := before + [OpenStream(Some(k))] + between;
    LazyPlayTells(s, upTo, id, database);
    LazyRequestsStay(s, upTo, id, database);
    hide Fits, MessageAt, Bind;
    LazyPlayAt(s, upTo, RangeOver(j), after, id, database);
  }

  lemma {:induction false} LazyRequestsStay(s: LazyState, steps: seq<Step>, id: string, database: string)
    requires Ready(s)
    ensures |LazyPlay(s, steps, id, database).store.requests| == |s.store.requests|
    decreases |steps|
  {
    hide Ready, Argument;
    if steps != [] {
      LazyNextReady(s, steps[0], id, database);
      LazyRequestsStay(LazyNext(s, steps[0], id, database), steps[1..], id, database);
    }
  }

  /** Both handles have made the same streams, in the same order. */
  lemma {:induction false} SameStreams(s: LazyState, g: State, steps: seq<Step>, id: string, database: string)
    requires Ready(s) && Fits(g.store) && g.store == s.store && |g.bound| == |s.streams|
    ensures |LazyPlay(s, steps, id, database).streams| == |Play(g, steps, id, database).bound|
    decreases |steps|
  {
    hide Ready, Fits, Argument, Apply, Bind;
    if steps != [] {
      LazyNextReady(s, steps[0], id, database);
      NextFits(g, steps[0], id, database);
      SameStreams(LazyNext(s, steps[0], id, database), Next(g, steps[0], id, database), steps[1..], id, database);
    }
  }

  /** The same callback over the two handles: a stream made from request k, whatever happened
      before, is read for the first time after `between`. Both handles send one message at that
      read, and it is the same message exactly if the caller's changes between the call and the
      read left the request's other fields as they were. */
  lemma StreamsAgreeExactly(st: Store, before: seq<Step>, k: nat, between: seq<Step>, after: seq<Step>,
                            id: string, database: string)
    requires Fits(st) && k < |st.requests|
    ensures var g, s := State(st, [], []), LazyState(st, [], []);
            Ready(s)
            && var j := |Play(g, before, id, database).bound|;
               var upTo := before + [OpenStream(Some(k))] + between;
               var run := upTo + [RangeOver(j)] + after;
               var atCall := Play(g, before, id, database).store;
               var go, goEnd := Play(g, upTo, id, database), Play(g, run, id, database);
               var ts, tsEnd := LazyPlay(s, upTo, id, database), LazyPlay(s, run, id, database);
               && Fits(atCall) && k < |atCall.requests| && Fits(go.store) && k < |go.store.requests|
               && j < |ts.streams| && |go.sent| < |goEnd.sent|
               && (!ts.streams[j].started ==>
                    && |ts.sent| < |tsEnd.sent|
                    && (goEnd.sent[|go.sent|] == tsEnd.sent[|ts.sent|]
                        <==> MessageAt(atCall, k).body == MessageAt(go.store, k).body))
  {
    var g, s := State(st, [], []), LazyState(st, [], []);
    var upTo := before + [OpenStream(Some(k))] + between;
    SameStreams(s, g, before, id, database);
    SameStore(s, g, upTo, id, database);
    PlayTells(g, before, id, database);
    PlayTells(g, upTo, id, database);
    RequestsStay(g, before, id, database);
    RequestsStay(g, upTo, id, database);
    RangeSendsTheOldRequest(st, before, k, between, after, id, database);
    ReadSendsTheRequestThen(st, before, k, between, after, id, database);
    hide Fits, MessageAt, Ready, Play, LazyPlay;
  }
}
