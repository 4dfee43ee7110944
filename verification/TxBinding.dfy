/** The handle a transaction's callback works through: every request it sends is a deep copy,
    bound to the transaction, of the caller's message as it was when the call was made. */
module TxBinding {
  import opened Wrappers

  // ---------------------------------------------------------------- messages as values

  /** A TransactionContext: an id, a database, and the inline flags a handle never sets. */
  datatype Tx = Tx(id: string, database: string, begin: bool, commit: bool, rollback: bool, timeoutMs: int)

  type Values = map<string, string>

  /** A request on the wire: the two bound fields, and everything else. */
  datatype Message = Message(database: string, tx: Option<Tx>, body: Body)
  datatype Body = Body(text: string, parts: seq<Values>)

  const EMPTY := Message("", None, Body("", []))

  function Bare(id: string, database: string): Tx {
    Tx(id, database, false, false, false, 0)
  }

  function Bind(m: Message, id: string, database: string): Message {
    m.(database := database, tx := Some(Bare(id, database)))
  }

  // ---------------------------------------------------------------- messages as objects

  class Context {
    var tx: Tx

    constructor (tx: Tx)
      ensures this.tx == tx
    {
      this.tx := tx;
    }
  }

  /** A nested message of a request: parameters, record, credentials. */
  class Part {
    var values: Values

    constructor (values: Values)
      ensures this.values == values
    {
      this.values := values;
    }
  }

  class Request {
    var database: string
    var transaction: Context?
    var text: string
    var parts: seq<Part>

    constructor ()
      ensures database == "" && transaction == null && text == "" && parts == []
    {
      database, transaction, text, parts := "", null, "", [];
    }

    ghost function Footprint(): set<object>
      reads this
    {
      {this} + (if transaction == null then {} else {transaction}) + (set p | p in parts)
    }

    function Look(): Message
      reads this, transaction, parts
    {
      Message(database, if transaction == null then None else Some(transaction.tx),
              Body(text, seq(|parts|, i requires 0 <= i < |parts| reads this, parts => parts[i].values)))
    }
  }

  /** The generated client: it sends a message as it is at that moment. */
  class Wire {
    var sent: seq<Message>

    constructor ()
      ensures sent == []
    {
      sent := [];
    }

    method Send(r: Request)
      modifies this
      ensures sent == old(sent) + [old(r.Look())]
    {
      sent := sent + [r.Look()];
    }
  }

  /** What a streaming call returns: nothing is sent until it is ranged over, and each range
      sends the request again. */
  class Stream {
    const raw: Wire
    const request: Request

    constructor (raw: Wire, request: Request)
      ensures this.raw == raw && this.request == request
    {
      this.raw, this.request := raw, request;
    }

    method Range()
      modifies raw
      ensures raw.sent == old(raw.sent) + [old(request.Look())]
    {
      raw.Send(request);
    }
  }

  class TxHandle {
    const raw: Wire
    const database: string
    const id: string

    constructor (raw: Wire, database: string, id: string)
      ensures this.raw == raw && this.database == database && this.id == id
    {
      this.raw, this.database, this.id := raw, database, id;
    }

    method TxContext() returns (c: Context)
      ensures fresh(c) && c.tx == Bare(id, database)
    {
      c := new Context(Tx(id, database, false, false, false, 0));
    }

    /** A deep copy of the caller's message; no message at all becomes an empty one. */
    method Clone(req: Request?) returns (r: Request)
      ensures fresh(r.Footprint())
      ensures r.Look() == if req == null then EMPTY else old(req.Look())
    {
      r := new Request();
      if req == null {
        assert r.Look().body.parts == [];
        return;
      }
      ghost var was := req.Look();
      assert forall j :: 0 <= j < |req.parts| ==> was.body.parts[j] == req.parts[j].values;
      var copies: seq<Part> := [];
      for i := 0 to |req.parts|
        invariant |copies| == i && fresh(copies) && r.transaction == null
        invariant forall j :: 0 <= j < i ==> copies[j].values == was.body.parts[j]
      {
        var p := new Part(req.parts[i].values);
        copies := copies + [p];
      }
      r.database, r.text, r.parts := req.database, req.text, copies;
      if req.transaction != null {
        var c := new Context(req.transaction.tx);
        r.transaction := c;
      }
      assert r.Look().body.parts == was.body.parts;
    }

    /** The copy every method sends: database and transaction replaced whole. */
    method Bound(req: Request?) returns (r: Request)
      ensures fresh(r.Footprint())
      ensures r.Look() == Bind(if req == null then EMPTY else old(req.Look()), id, database)
    {
      r := Clone(req);
      var before := r.Look();
      var c := TxContext();
      r.database, r.transaction := database, c;
      assert r.Look().body == before.body;
    }

    method Unary(req: Request?)
      modifies raw
      ensures raw.sent == old(raw.sent) + [Bind(if req == null then EMPTY else old(req.Look()), id, database)]
    {
      var r := Bound(req);
      raw.Send(r);
    }

    /** Copied and bound now, sent later. */
    method StreamQuery(req: Request?) returns (s: Stream)
      ensures fresh(s) && fresh(s.request.Footprint()) && s.raw == raw
      ensures s.request.Look() == Bind(if req == null then EMPTY else old(req.Look()), id, database)
    {
      var r := Bound(req);
      s := new Stream(raw, r);
    }
  }

  // ---------------------------------------------------------------- the caller's own messages

  /** The caller's object graph as a value: requests point at contexts and parts by index, and
      several may point at the same one. */
  datatype Cell = Cell(database: string, tx: Option<nat>, text: string, parts: seq<nat>)
  datatype Store = Store(requests: seq<Cell>, contexts: seq<Tx>, parts: seq<Values>)

  predicate CellFits(c: Cell, st: Store) {
    && (c.tx.Some? ==> c.tx.value < |st.contexts|)
    && forall i :: 0 <= i < |c.parts| ==> c.parts[i] < |st.parts|
  }

  predicate Fits(st: Store) {
    forall k :: 0 <= k < |st.requests| ==> CellFits(st.requests[k], st)
  }

  function MessageAt(st: Store, k: nat): Message
    requires Fits(st) && k < |st.requests|
  {
    var c := st.requests[k];
    assert CellFits(c, st);
    Message(c.database, if c.tx.None? then None else Some(st.contexts[c.tx.value]),
            Body(c.text, seq(|c.parts|, i requires 0 <= i < |c.parts| => st.parts[c.parts[i]])))
  }

  /** What a caller may do to its own messages between calls. */
  datatype Change = WriteRequest(k: nat, cell: Cell) | WriteContext(i: nat, tx: Tx) | WritePart(i: nat, values: Values)

  predicate Possible(st: Store, ch: Change) {
    match ch
    case WriteRequest(k, cell) => k < |st.requests| && CellFits(cell, st)
    case WriteContext(i, _) => i < |st.contexts|
    case WritePart(i, _) => i < |st.parts|
  }

  function Apply(st: Store, ch: Change): Store
    requires Possible(st, ch)
  {
    match ch
    case WriteRequest(k, cell) => st.(requests := st.requests[k := cell])
    case WriteContext(i, tx) => st.(contexts := st.contexts[i := tx])
    case WritePart(i, values) => st.(parts := st.parts[i := values])
  }

  class Caller {
    const requests: seq<Request>
    const contexts: seq<Context>
    const parts: seq<Part>

    constructor (requests: seq<Request>, contexts: seq<Context>, parts: seq<Part>)
      ensures this.requests == requests && this.contexts == contexts && this.parts == parts
    {
      this.requests, this.contexts, this.parts := requests, contexts, parts;
    }

    ghost function Objects(): set<object> {
      (set r | r in requests) + (set c | c in contexts) + (set p | p in parts)
    }

    predicate ShowsRequest(r: Request, c: Cell, st: Store)
      requires CellFits(c, st) && |contexts| == |st.contexts| && |parts| == |st.parts|
      reads r
    {
      && r.database == c.database && r.text == c.text
      && r.transaction == (if c.tx.None? then null else contexts[c.tx.value])
      && |r.parts| == |c.parts|
      && forall i :: 0 <= i < |c.parts| ==> r.parts[i] == parts[c.parts[i]]
    }

    /** The objects are distinct and hold what the store says. */
    ghost predicate Shows(st: Store)
      reads requests, contexts, parts
    {
      && Fits(st)
      && |requests| == |st.requests| && |contexts| == |st.contexts| && |parts| == |st.parts|
      && (forall i, j :: 0 <= i < j < |requests| ==> requests[i] != requests[j])
      && (forall i, j :: 0 <= i < j < |contexts| ==> contexts[i] != contexts[j])
      && (forall i, j :: 0 <= i < j < |parts| ==> parts[i] != parts[j])
      && (forall i :: 0 <= i < |contexts| ==> contexts[i].tx == st.contexts[i])
      && (forall i :: 0 <= i < |parts| ==> parts[i].values == st.parts[i])
      && forall k :: 0 <= k < |requests| ==>
           CellFits(st.requests[k], st) && ShowsRequest(requests[k], st.requests[k], st)
    }

    lemma LookShows(st: Store, k: nat)
      requires Shows(st) && k < |requests|
      ensures requests[k].Look() == MessageAt(st, k)
    {
      var r, c := requests[k], st.requests[k];
      assert ShowsRequest(r, c, st);
      assert r.Look().body.parts == MessageAt(st, k).body.parts;
    }

    method Mutate(ghost st: Store, ch: Change)
      requires Shows(st) && Possible(st, ch)
      modifies Objects()
      ensures Shows(Apply(st, ch))
    {
      hide CellFits, ShowsRequest, Shows;
      match ch
      case WriteRequest(k, cell) => MutateRequest(st, k, cell);
      case WriteContext(i, tx) => MutateContext(st, i, tx);
      case WritePart(i, values) => MutatePart(st, i, values);
    }

    method MutateRequest(ghost st: Store, k: nat, cell: Cell)
      requires Shows(st) && Possible(st, WriteRequest(k, cell))
      modifies requests
      ensures Shows(Apply(st, WriteRequest(k, cell)))
    {
      ghost var after := Apply(st, WriteRequest(k, cell));
      var r := requests[k];
      r.database, r.text := cell.database, cell.text;
      r.parts := seq(|cell.parts|, i requires 0 <= i < |cell.parts| && cell.parts[i] < |parts| => parts[cell.parts[i]]);
      r.transaction := if cell.tx.None? then null else contexts[cell.tx.value];
      forall j | 0 <= j < |requests|
        ensures CellFits(after.requests[j], after) && ShowsRequest(requests[j], after.requests[j], after)
      {
        assert old(CellFits(st.requests[j], st) && ShowsRequest(requests[j], st.requests[j], st));
        assert j != k ==> requests[j] != r;
      }
    }

    method MutateContext(ghost st: Store, i: nat, tx: Tx)
      requires Shows(st) && Possible(st, WriteContext(i, tx))
      modifies contexts
      ensures Shows(Apply(st, WriteContext(i, tx)))
    {
      ghost var after := Apply(st, WriteContext(i, tx));
      contexts[i].tx := tx;
      forall j | 0 <= j < |requests|
        ensures CellFits(after.requests[j], after) && ShowsRequest(requests[j], after.requests[j], after)
      {
        assert old(CellFits(st.requests[j], st) && ShowsRequest(requests[j], st.requests[j], st));
      }
    }

    method MutatePart(ghost st: Store, i: nat, values: Values)
      requires Shows(st) && Possible(st, WritePart(i, values))
      modifies parts
      ensures Shows(Apply(st, WritePart(i, values)))
    {
      ghost var after := Apply(st, WritePart(i, values));
      parts[i].values := values;
      forall j | 0 <= j < |requests|
        ensures CellFits(after.requests[j], after) && ShowsRequest(requests[j], after.requests[j], after)
      {
        assert old(CellFits(st.requests[j], st) && ShowsRequest(requests[j], st.requests[j], st));
      }
    }
  }

  // ---------------------------------------------------------------- any sequence of calls

  /** One thing the callback does: a unary call or a streaming call with one of its messages or
      none, a range over a stream it has, or a change to its own messages. */
  datatype Step = Unary(k: Option<nat>) | OpenStream(k: Option<nat>) | RangeOver(j: nat) | Mutates(change: Change)

  datatype State = State(store: Store, bound: seq<Message>, sent: seq<Message>)

  /** A request of the caller's, or none. */
  predicate Names(st: Store, k: Option<nat>) {
    k.Some? ==> k.value < |st.requests|
  }

  function Argument(st: Store, k: Option<nat>): Message
    requires Fits(st) && Names(st, k)
  {
    if k.None? then EMPTY else MessageAt(st, k.value)
  }

  predicate Enabled(s: State, step: Step) {
    match step
    case Unary(k) => Names(s.store, k)
    case OpenStream(k) => Names(s.store, k)
    case RangeOver(j) => j < |s.bound|
    case Mutates(change) => Possible(s.store, change)
  }

  /** A step that is not possible is skipped. */
  function Next(s: State, step: Step, id: string, database: string): State
    requires Fits(s.store)
  {
    if !Enabled(s, step) then s
    else match step
      case Unary(k) => s.(sent := s.sent + [Bind(Argument(s.store, k), id, database)])
      case OpenStream(k) => s.(bound := s.bound + [Bind(Argument(s.store, k), id, database)])
      case RangeOver(j) => s.(sent := s.sent + [s.bound[j]])
      case Mutates(change) => s.(store := Apply(s.store, change))
  }

  lemma ApplyFits(st: Store, ch: Change)
    requires Fits(st) && Possible(st, ch)
    ensures Fits(Apply(st, ch)) && |Apply(st, ch).requests| == |st.requests|
  {
    var after := Apply(st, ch);
    forall k | 0 <= k < |after.requests| ensures CellFits(after.requests[k], after) {
      assert k < |st.requests| && CellFits(st.requests[k], st);
    }
  }

  lemma NextFits(s: State, step: Step, id: string, database: string)
    requires Fits(s.store)
    ensures Fits(Next(s, step, id, database).store)
  {
    hide Bind, Argument, MessageAt, Fits, Apply;
    if Enabled(s, step) && step.Mutates? {
      ApplyFits(s.store, step.change);
    }
  }

  function Play(s: State, steps: seq<Step>, id: string, database: string): State
    requires Fits(s.store)
    decreases |steps|
  {
    if steps == [] then s
    else
      NextFits(s, steps[0], id, database);
      Play(Next(s, steps[0], id, database), steps[1..], id, database)
  }

  /** A stream of the handle's, not reachable from the caller's objects. */
  ghost predicate Holds(s: Stream, raw: Wire, caller: Caller, m: Message)
    reads s.request, s.request.transaction, s.request.parts
  {
    s.raw == raw && s.request.Look() == m && s.request.Footprint() !! caller.Objects()
  }

  /** The streams hold what was bound, and the caller's objects and the log what the state says. */
  ghost predicate Mirrors(h: TxHandle, caller: Caller, streams: seq<Stream>, s: State)
    reads *
  {
    && caller.Shows(s.store) && h.raw.sent == s.sent && |streams| == |s.bound|
    && forall j :: 0 <= j < |streams| ==> Holds(streams[j], h.raw, caller, s.bound[j])
  }

  lemma ArgumentIs(caller: Caller, st: Store, k: Option<nat>)
    requires caller.Shows(st) && Names(st, k)
    ensures k.Some? ==> k.value < |caller.requests|
    ensures Argument(st, k) == if k.None? then EMPTY else caller.requests[k.value].Look()
  {
    if k.Some? {
      caller.LookShows(st, k.value);
    }
  }

  method PerformUnary(h: TxHandle, caller: Caller, streams: seq<Stream>, s: State, k: Option<nat>)
    requires Mirrors(h, caller, streams, s) && Enabled(s, Unary(k))
    modifies h.raw
    ensures Mirrors(h, caller, streams, Next(s, Unary(k), h.id, h.database))
  {
    hide Argument, Bind, MessageAt;
    ArgumentIs(caller, s.store, k);
    h.Unary(if k.None? then null else caller.requests[k.value]);
  }

  method PerformStream(h: TxHandle, caller: Caller, streams: seq<Stream>, s: State, k: Option<nat>)
      returns (now: seq<Stream>)
    requires Mirrors(h, caller, streams, s) && Enabled(s, OpenStream(k))
    ensures Mirrors(h, caller, now, Next(s, OpenStream(k), h.id, h.database))
  {
    hide Argument, Bind, MessageAt;
    ArgumentIs(caller, s.store, k);
    var q := h.StreamQuery(if k.None? then null else caller.requests[k.value]);
    now := streams + [q];
  }

  method PerformRange(h: TxHandle, caller: Caller, streams: seq<Stream>, s: State, j: nat)
    requires Mirrors(h, caller, streams, s) && Enabled(s, RangeOver(j))
    modifies h.raw
    ensures Mirrors(h, caller, streams, Next(s, RangeOver(j), h.id, h.database))
  {
    streams[j].Range();
  }

  method PerformChange(h: TxHandle, caller: Caller, streams: seq<Stream>, s: State, change: Change)
    requires Mirrors(h, caller, streams, s) && Possible(s.store, change)
    modifies caller.Objects()
    ensures Mirrors(h, caller, streams, Next(s, Mutates(change), h.id, h.database))
  {
    hide Possible, Apply, Caller.Shows, Fits;
    caller.Mutate(s.store, change);
    forall j | 0 <= j < |streams| ensures Holds(streams[j], h.raw, caller, s.bound[j]) {
      assert old(Holds(streams[j], h.raw, caller, s.bound[j]));
    }
  }

  method Perform(h: TxHandle, caller: Caller, streams: seq<Stream>, s: State, step: Step) returns (now: seq<Stream>)
    requires Mirrors(h, caller, streams, s)
    modifies h.raw, caller.Objects()
    ensures Mirrors(h, caller, now, Next(s, step, h.id, h.database))
  {
    hide Mirrors;
    now := streams;
    if Enabled(s, step) {
      match step
      case Unary(k) => PerformUnary(h, caller, streams, s, k);
      case OpenStream(k) => now := PerformStream(h, caller, streams, s, k);
      case RangeOver(j) => PerformRange(h, caller, streams, s, j);
      case Mutates(change) => PerformChange(h, caller, streams, s, change);
    }
  }

  /** Any run of a callback: the messages on the wire are exactly those of the value-level run,
      and the caller's objects hold exactly what its own changes put there. */
  method Drive(h: TxHandle, caller: Caller, st: Store, steps: seq<Step>) returns (sent: seq<Message>)
    requires caller.Shows(st) && h.raw.sent == []
    modifies h.raw, caller.Objects()
    ensures sent == h.raw.sent == Play(State(st, [], []), steps, h.id, h.database).sent
    ensures caller.Shows(Play(State(st, [], []), steps, h.id, h.database).store)
  {
    var s := State(st, [], []);
    var streams: seq<Stream> := [];
    for i := 0 to |steps|
      invariant Mirrors(h, caller, streams, s)
      invariant Play(s, steps[i..], h.id, h.database) == Play(State(st, [], []), steps, h.id, h.database)
    {
      hide Mirrors;
      streams := Perform(h, caller, streams, s, steps[i]);
      assert steps[i..][1..] == steps[i + 1..];
      s := Next(s, steps[i], h.id, h.database);
    }
    sent := h.raw.sent;
  }

  // ---------------------------------------------------------------- what every run keeps

  predicate IsBound(m: Message, id: string, database: string) {
    m.database == database && m.tx == Some(Tx(id, database, false, false, false, 0))
  }

  predicate AllBound(s: State, id: string, database: string) {
    && (forall m :: m in s.sent ==> IsBound(m, id, database))
    && (forall m :: m in s.bound ==> IsBound(m, id, database))
  }

  lemma NextBinds(s: State, step: Step, id: string, database: string)
    requires Fits(s.store) && AllBound(s, id, database)
    ensures AllBound(Next(s, step, id, database), id, database)
  {
    hide Fits, Argument, Apply, Possible;
  }

  lemma {:induction false} PlayTells(s: State, steps: seq<Step>, id: string, database: string)
    requires Fits(s.store)
    ensures var t := Play(s, steps, id, database);
            && Fits(t.store) && s.sent <= t.sent && s.bound <= t.bound
            && (AllBound(s, id, database) ==> AllBound(t, id, database))
    decreases |steps|
  {
    hide Fits, Argument, Apply, AllBound;
    if steps != [] {
      NextFits(s, steps[0], id, database);
      if AllBound(s, id, database) {
        NextBinds(s, steps[0], id, database);
      }
      PlayTells(Next(s, steps[0], id, database), steps[1..], id, database);
    }
  }

  /** Every message a handle sends names its database and a context that holds its id and
      database and nothing else, whatever the caller's requests named or flagged. */
  lemma EveryMessageIsBound(st: Store, steps: seq<Step>, id: string, database: string)
    requires Fits(st)
    ensures forall m :: m in Play(State(st, [], []), steps, id, database).sent ==> IsBound(m, id, database)
  {
    PlayTells(State(st, [], []), steps, id, database);
  }

  lemma {:induction false} PlayAppend(s: State, a: seq<Step>, b: seq<Step>, id: string, database: string)
    requires Fits(s.store)
    ensures Fits(Play(s, a, id, database).store)
    ensures Play(s, a + b, id, database) == Play(Play(s, a, id, database), b, id, database)
    decreases |a|
  {
    PlayTells(s, a, id, database);
    hide Fits, Next;
    if a == [] {
      assert a + b == b;
    } else {
      assert (a + b)[0] == a[0] && (a + b)[1..] == a[1..] + b;
      NextFits(s, a[0], id, database);
      PlayAppend(Next(s, a[0], id, database), a[1..], b, id, database);
    }
  }

  /** The step `x` of a run, seen from the state before it. */
  lemma PlayAt(s: State, before: seq<Step>, x: Step, after: seq<Step>, id: string, database: string)
    requires Fits(s.store)
    ensures var r := Play(s, before, id, database);
            Fits(r.store)
            && var n := Next(r, x, id, database);
               Fits(n.store) && Play(s, before + [x] + after, id, database) == Play(n, after, id, database)
               && n.sent <= Play(s, before + [x] + after, id, database).sent
               && n.bound <= Play(s, before + [x] + after, id, database).bound
  {
    hide Fits, Next;
    var r := Play(s, before, id, database);
    assert before + [x] + after == before + ([x] + after);
    PlayAppend(s, before, [x] + after, id, database);
    assert ([x] + after)[1..] == after;
    NextFits(r, x, id, database);
    PlayTells(Next(r, x, id, database), after, id, database);
  }

  /** A unary call sends the caller's request as it was at the call, apart from the binding. */
  lemma UnarySendsTheRequest(st: Store, before: seq<Step>, k: nat, after: seq<Step>, id: string, database: string)
    requires Fits(st) && k < |st.requests|
    ensures var s := State(st, [], []);
            var r := Play(s, before, id, database);
            var t := Play(s, before + [Unary(Some(k))] + after, id, database);
            && Fits(r.store) && k < |r.store.requests| && |r.sent| < |t.sent|
            && t.sent[|r.sent|] == Bind(MessageAt(r.store, k), id, database)
            && t.sent[|r.sent|].body == MessageAt(r.store, k).body
  {
    var s := State(st, [], []);
    PlayAt(s, before, Unary(Some(k)), after, id, database);
    RequestsStay(s, before, id, database);
    hide Fits, MessageAt, Bind;
  }

  lemma {:induction false} RequestsStay(s: State, steps: seq<Step>, id: string, database: string)
    requires Fits(s.store)
    ensures |Play(s, steps, id, database).store.requests| == |s.store.requests|
    decreases |steps|
  {
    hide Fits, Argument;
    if steps != [] {
      NextFits(s, steps[0], id, database);
      RequestsStay(Next(s, steps[0], id, database), steps[1..], id, database);
    }
  }

  /** Every range over a stream, however late and however often, sends the request as it was
      when the stream was made; what the caller did to it since does not show. */
  lemma RangeSendsTheOldRequest(st: Store, before: seq<Step>, k: nat, between: seq<Step>, after: seq<Step>,
                                id: string, database: string)
    requires Fits(st) && k < |st.requests|
    ensures var s := State(st, [], []);
            var r := Play(s, before, id, database);
            var u := Play(s, before + [OpenStream(Some(k))] + between, id, database);
            var t := Play(s, before + [OpenStream(Some(k))] + between + [RangeOver(|r.bound|)] + after, id, database);
            && Fits(r.store) && k < |r.store.requests| && |u.sent| < |t.sent|
            && t.sent[|u.sent|] == Bind(MessageAt(r.store, k), id, database)
  {
    var s := State(st, [], []);
    var r := Play(s, before, id, database);
    PlayAt(s, before, OpenStream(Some(k)), between, id, database);
    RequestsStay(s, before, id, database);
    hide Fits, MessageAt, Bind;
    var u := Play(s, before + [OpenStream(Some(k))] + between, id, database);
    assert u.bound[|r.bound|] == Bind(MessageAt(r.store, k), id, database);
    PlayAt(s, before + [OpenStream(Some(k))] + between, RangeOver(|r.bound|), after, id, database);
  }

  function Changes(steps: seq<Step>): seq<Step> {
    if steps == [] then []
    else (if steps[0].Mutates? then [steps[0]] else []) + Changes(steps[1..])
  }

  /** The handle's calls leave the caller's object graph alone: it ends as the caller's own
      changes, and nothing else, would have left it. */
  lemma {:induction false} OnlyChangesChange(s: State, r: State, steps: seq<Step>, id: string, database: string)
    requires Fits(s.store) && r.store == s.store
    ensures Play(s, steps, id, database).store == Play(r, Changes(steps), id, database).store
    decreases |steps|
  {
    hide Fits, Argument, Apply, Bind;
    if steps != [] {
      NextFits(s, steps[0], id, database);
      var t := Next(s, steps[0], id, database);
      if steps[0].Mutates? {
        assert Changes(steps)[0] == steps[0] && Changes(steps)[1..] == Changes(steps[1..]);
        OnlyChangesChange(t, Next(r, steps[0], id, database), steps[1..], id, database);
      } else {
        assert Changes(steps) == Changes(steps[1..]);
        OnlyChangesChange(t, r, steps[1..], id, database);
      }
    }
  }
}
