/** The insert stream's envelope: one batch of lookahead turns a sequence of row batches into
    numbered chunks, in Go as a send loop and in TypeScript as a generator. */
module Envelope {
  import opened Wrappers

  type Batch = seq<int>

  datatype Request = Request(database: string, credentials: int, options: int, transaction: int)

  /** An InsertChunk; an unset database is the empty one. */
  datatype Chunk = Chunk(session: string, number: int, rows: Batch, last: bool, database: string,
                         credentials: int, options: int, transaction: int)

  /** How the caller's sequence ends, after its batches. */
  datatype End = Done | Throws(error: int)

  // ---------------------------------------------------------------- the chunks of a sequence

  function Count(batches: seq<Batch>): nat {
    if batches == [] then 1 else |batches|
  }

  function ChunkAt(req: Request, session: string, batches: seq<Batch>, i: nat): Chunk {
    Chunk(session, i + 1, if i < |batches| then batches[i] else [], i + 1 == Count(batches),
          if i == 0 then req.database else "", req.credentials, req.options, req.transaction)
  }

  function Chunks(req: Request, session: string, batches: seq<Batch>): seq<Chunk> {
    seq(Count(batches), i requires 0 <= i < Count(batches) => ChunkAt(req, session, batches, i))
  }

  /** How many chunks can be formed: a batch goes out only once the pull after it answered. */
  function Formed(batches: seq<Batch>, end: End): nat {
    if end.Done? then Count(batches) else if batches == [] then 0 else |batches| - 1
  }

  function Min(a: nat, b: nat): nat {
    if a < b then a else b
  }

  /** What a server that takes rows until the last chunk has collected, if it got that far. */
  function Collect(chunks: seq<Chunk>): Option<Batch> {
    if chunks == [] then None
    else if chunks[0].last then Some(chunks[0].rows)
    else match Collect(chunks[1..])
      case None => None
      case Some(rest) => Some(chunks[0].rows + rest)
  }

  lemma {:induction false} CollectFrom(req: Request, session: string, batches: seq<Batch>, i: nat, k: nat)
    requires i <= k <= |Chunks(req, session, batches)|
    ensures var cut := Chunks(req, session, batches)[i..k];
            Collect(cut) == if k == Count(batches) && i < k
                            then Some(if batches == [] then [] else Flatten(batches[i..])) else None
    decreases k - i
  {
    hide ChunkAt;
    var chunks := Chunks(req, session, batches);
    if i < k {
      var cut := chunks[i..k];
      assert cut[0] == chunks[i] && cut[1..] == chunks[i + 1..k];
      CollectFrom(req, session, batches, i + 1, k);
      ChunkTells(req, session, batches, i);
      if batches != [] {
        assert batches[i..][0] == batches[i] && batches[i..][1..] == batches[i + 1..];
        if i + 1 == Count(batches) {
          assert batches[i + 1..] == [];
          assert batches[i] + [] == batches[i];
        }
      }
    }
  }

  lemma ChunkTells(req: Request, session: string, batches: seq<Batch>, i: nat)
    ensures var c := ChunkAt(req, session, batches, i);
            && c.last == (i + 1 == Count(batches)) && c.rows == if i < |batches| then batches[i] else []
  {
  }

  /** A server collects exactly the caller's rows, in order, from the whole stream, and nothing
      from any proper prefix of it: an empty batch in the middle ends nothing. */
  lemma ServerCollects(req: Request, session: string, batches: seq<Batch>, k: nat)
    requires k <= |Chunks(req, session, batches)|
    ensures Collect(Chunks(req, session, batches)[..k])
            == if k == |Chunks(req, session, batches)| then Some(Flatten(batches)) else None
  {
    var chunks := Chunks(req, session, batches);
    assert chunks[..k] == chunks[0..k] && batches[0..] == batches;
    CollectFrom(req, session, batches, 0, k);
  }

  /** The envelope of a stream: numbers 1, 2, 3 and so on, one session, the database on the
      first chunk alone, last on the final chunk alone, the same options on all, and the
      batches, one to a chunk. */
  ghost predicate Enveloped(chunks: seq<Chunk>, req: Request, session: string, batches: seq<Batch>) {
    && chunks != []
    && (forall i :: 0 <= i < |chunks| ==>
          && chunks[i].session == session && chunks[i].number == i + 1
          && (chunks[i].last <==> i == |chunks| - 1)
          && chunks[i].database == (if i == 0 then req.database else "")
          && chunks[i].credentials == req.credentials && chunks[i].options == req.options
          && chunks[i].transaction == req.transaction)
    && (if batches == [] then |chunks| == 1 && chunks[0].rows == []
        else |chunks| == |batches| && forall i :: 0 <= i < |chunks| ==> chunks[i].rows == batches[i])
  }

  /** There is exactly one such stream for a sequence of batches. */
  lemma EnvelopeIsUnique(chunks: seq<Chunk>, req: Request, session: string, batches: seq<Batch>)
    ensures Enveloped(chunks, req, session, batches) <==> chunks == Chunks(req, session, batches)
  {
    var all := Chunks(req, session, batches);
    if Enveloped(chunks, req, session, batches) {
      forall i | 0 <= i < |chunks| ensures chunks[i] == all[i] {
        assert chunks[i].last == all[i].last && chunks[i].rows == all[i].rows;
      }
    }
  }

  // ---------------------------------------------------------------- the caller's sequence

  datatype Pulled = Item(batch: Batch) | Finished | Threw(error: int)

  /** A pulled sequence, by iter.Pull or as an async iterator; `ends` counts stop or return. */
  class Puller {
    const batches: seq<Batch>
    const end: End
    var given: nat
    var ends: nat

    constructor (batches: seq<Batch>, end: End)
      ensures this.batches == batches && this.end == end && given == 0 && ends == 0
    {
      this.batches, this.end := batches, end;
      given, ends := 0, 0;
    }

    method Next() returns (p: Pulled)
      requires given <= |batches| && ends == 0
      modifies this`given
      ensures given == Min(old(given) + 1, |batches|)
      ensures p == if old(given) < |batches| then Item(batches[old(given)])
                   else if end.Done? then Finished else Threw(end.error)
    {
      if given < |batches| {
        given := given + 1;
        return Item(batches[given - 1]);
      }
      p := if end.Done? then Finished else Threw(end.error);
    }

    method Stop()
      modifies this`ends
      ensures ends == old(ends) + 1
    {
      ends := ends + 1;
    }
  }

  // ---------------------------------------------------------------- Go

  datatype SendError = Eof | Aborted(error: int)
  datatype Reply = Summary(rows: int) | Status(error: int)

  /** The client stream: it takes `room` chunks and then fails, and holds the server's reply. */
  class Wire {
    const room: nat
    const sendError: SendError
    const reply: Reply
    var sent: seq<Chunk>
    var attempts: nat

    constructor (room: nat, sendError: SendError, reply: Reply)
      ensures this.room == room && this.sendError == sendError && this.reply == reply && sent == [] && attempts == 0
    {
      this.room, this.sendError, this.reply := room, sendError, reply;
      sent, attempts := [], 0;
    }

    method Send(c: Chunk) returns (error: Option<SendError>)
      modifies this
      ensures attempts == old(attempts) + 1
      ensures error.None? <==> |old(sent)| < room
      ensures error.Some? ==> error.value == sendError
      ensures sent == if error.None? then old(sent) + [c] else old(sent)
    {
      attempts := attempts + 1;
      if |sent| < room {
        sent := sent + [c];
        return None;
      }
      error := Some(sendError);
    }
  }

  datatype Outcome = Received(reply: Reply) | SendFailed(error: int) | OpenFailed(error: int) | Panicked(error: int)

  /** failedSend: behind a bare EOF, the server's answer is on the receive side. */
  function AfterFailedSend(e: SendError, reply: Reply): Outcome {
    match e
    case Eof => Received(reply)
    case Aborted(code) => SendFailed(code)
  }

  function GoOutcome(wire: Wire, batches: seq<Batch>, end: End): Outcome {
    if wire.room < Formed(batches, end) then AfterFailedSend(wire.sendError, wire.reply)
    else if end.Done? then Received(wire.reply)
    else Panicked(end.error)
  }

  /** What a call ends with. A stream that refuses a chunk behind a bare EOF gives the server's own
      answer, and with any other error that error; a sequence that ended gives the answer, and one
      that panicked its panic. A sequence that ended forms all its chunks; of one that panicked
      after n batches the last is never formed. */
  lemma OutcomeTells(wire: Wire, req: Request, session: string, batches: seq<Batch>, end: End)
    ensures var total := if end.Done? then |Chunks(req, session, batches)| else |batches| - 1;
            && (wire.room < total && wire.sendError.Eof? ==> GoOutcome(wire, batches, end) == Received(wire.reply))
            && (wire.room < total && wire.sendError.Aborted? ==>
                 GoOutcome(wire, batches, end) == SendFailed(wire.sendError.error))
            && (wire.room >= total && end.Done? ==> GoOutcome(wire, batches, end) == Received(wire.reply))
            && (wire.room >= total && end.Throws? ==> GoOutcome(wire, batches, end) == Panicked(end.error))
  {
  }

  /** insertStream. The chunks sent are a prefix of the one envelope, as long as the server took
      them; the caller's sequence is pulled at most one batch beyond the chunks tried, and
      stopped once on every path. */
  method InsertStream(openError: Option<int>, wire: Wire, chunks: Puller, req: Request, session: string)
      returns (o: Outcome)
    requires wire.sent == [] && wire.attempts == 0 && chunks.given == 0 && chunks.ends == 0
    modifies wire, chunks
    ensures openError.Some? ==>
              o == OpenFailed(openError.value) && wire.sent == [] && chunks.given == 0 && chunks.ends == 0
    ensures openError.None? ==>
              && o == GoOutcome(wire, chunks.batches, chunks.end)
              && wire.sent == Chunks(req, session, chunks.batches)[..Min(Formed(chunks.batches, chunks.end), wire.room)]
              && chunks.given <= wire.attempts + 1 && wire.attempts <= wire.room + 1
              && chunks.ends == 1
    ensures openError.None? && chunks.end.Done? && wire.room >= |Chunks(req, session, chunks.batches)| ==>
              wire.sent == Chunks(req, session, chunks.batches) && o == Received(wire.reply)
  {
    if openError.Some? {
      return OpenFailed(openError.value);
    }
    o := SendAll(wire, chunks, req, session);
    chunks.Stop();
  }

  /** The lookahead loop, whose every exit the deferred stop follows. */
  method SendAll(wire: Wire, chunks: Puller, req: Request, session: string) returns (o: Outcome)
    requires wire.sent == [] && wire.attempts == 0 && chunks.given == 0 && chunks.ends == 0
    modifies wire, chunks`given
    ensures o == GoOutcome(wire, chunks.batches, chunks.end)
    ensures wire.sent == Chunks(req, session, chunks.batches)[..Min(Formed(chunks.batches, chunks.end), wire.room)]
    ensures chunks.given <= wire.attempts + 1 && wire.attempts <= wire.room + 1
  {
    ghost var all := Chunks(req, session, chunks.batches);
    var first := chunks.Next();
    if first.Threw? {
      return Panicked(first.error);
    }
    if first.Finished? {
      var e := wire.Send(Chunk(session, 1, [], true, req.database, req.credentials, req.options, req.transaction));
      return if e.Some? then AfterFailedSend(e.value, wire.reply) else Received(wire.reply);
    }
    var number := 1;
    var current := first.batch;
    while true
      invariant 1 <= number == chunks.given <= |chunks.batches| && number - 1 <= wire.room
      invariant wire.attempts == number - 1 && wire.sent == all[..number - 1]
      invariant current == chunks.batches[number - 1]
      decreases |chunks.batches| - number
    {
      var following := chunks.Next();
      if following.Threw? {
        return Panicked(following.error);
      }
      var chunk := Chunk(session, number, current, following.Finished?, if number == 1 then req.database else "",
                         req.credentials, req.options, req.transaction);
      assert chunk == all[number - 1];
      var e := wire.Send(chunk);
      if e.Some? {
        return AfterFailedSend(e.value, wire.reply);
      }
      assert all[..number] == all[..number - 1] + [all[number - 1]];
      if following.Finished? {
        return Received(wire.reply);
      }
      current := following.batch;
      number := number + 1;
    }
  }

  // ---------------------------------------------------------------- TypeScript

  datatype Phase = NotStarted | AtYield(last: bool, upcoming: Batch) | Completed

  datatype Resumed = Yielded(chunk: Chunk) | Ended | Failed(error: int)

  /** envelopeChunks, an async generator: each Next runs it to its next yield. */
  class ChunkGenerator {
    const req: Request
    const session: string
    const chunks: Puller
    var phase: Phase
    var number: nat
    var yielded: seq<Chunk>

    constructor (req: Request, session: string, chunks: Puller)
      requires chunks.given == 0 && chunks.ends == 0
      ensures this.req == req && this.session == session && this.chunks == chunks
      ensures Valid() && phase.NotStarted? && yielded == []
    {
      this.req, this.session, this.chunks := req, session, chunks;
      phase, number, yielded := NotStarted, 1, [];
    }

    ghost function All(): seq<Chunk> {
      Chunks(req, session, chunks.batches)
    }

    ghost predicate Valid()
      reads this, chunks
    {
      && |yielded| <= |All()| && yielded == All()[..|yielded|]
      && chunks.given <= |chunks.batches| && chunks.given <= |yielded| + 1
      && match phase
         case NotStarted => yielded == [] && chunks.given == 0 && chunks.ends == 0 && number == 1
         case AtYield(last, upcoming) =>
           && chunks.ends == 0 && number == |yielded| >= 1 && number <= Formed(chunks.batches, chunks.end)
           && (last <==> number == Count(chunks.batches))
           && (!last ==> number < |chunks.batches| && chunks.given == number + 1 && upcoming == chunks.batches[number])
         case Completed => true
    }

    /** The finally block. */
    method Finish()
      requires !phase.Completed?
      modifies this`phase, chunks`ends
      ensures phase.Completed? && chunks.ends == old(chunks.ends) + 1
    {
      phase := Completed;
      chunks.Stop();
    }

    method Emit(chunk: Chunk, last: bool, upcoming: Batch)
      modifies this`phase, this`yielded
      ensures phase == AtYield(last, upcoming) && yielded == old(yielded) + [chunk]
    {
      phase, yielded := AtYield(last, upcoming), yielded + [chunk];
    }

    /** Pulls the batch after `current`, then yields `current`. */
    method EmitCurrent(current: Batch) returns (r: Resumed)
      requires !phase.Completed? && number == |yielded| + 1 == chunks.given <= |chunks.batches| && chunks.ends == 0
      requires current == chunks.batches[number - 1] && yielded == All()[..|yielded|]
      modifies this`phase, this`yielded, chunks`given, chunks`ends
      ensures Valid()
      ensures r == if number <= Formed(chunks.batches, chunks.end) then Yielded(All()[number - 1])
                   else Failed(chunks.end.error)
      ensures yielded == if r.Yielded? then old(yielded) + [r.chunk] else old(yielded)
      ensures if r.Yielded? then phase.AtYield? else phase.Completed? && chunks.ends == 1
    {
      var next := chunks.Next();
      if next.Threw? {
        Finish();
        return Failed(next.error);
      }
      var last := next.Finished?;
      var chunk := Chunk(session, number, current, last, if number == 1 then req.database else "",
                         req.credentials, req.options, req.transaction);
      assert chunk == All()[number - 1];
      assert All()[..number] == yielded + [All()[number - 1]];
      Emit(chunk, last, if last then [] else next.batch);
      r := Yielded(chunk);
    }

    method Start() returns (r: Resumed)
      requires Valid() && phase.NotStarted?
      modifies this, chunks`given, chunks`ends
      ensures Valid()
      ensures r == if Formed(chunks.batches, chunks.end) > 0 then Yielded(All()[0]) else Failed(chunks.end.error)
      ensures yielded == if r.Yielded? then [r.chunk] else []
      ensures if r.Yielded? then phase.AtYield? else phase.Completed? && chunks.ends == 1
    {
      var first := chunks.Next();
      match first
      case Threw(e) =>
        Finish();
        r := Failed(e);
      case Finished =>
        var only := Chunk(session, 1, [], true, req.database, req.credentials, req.options, req.transaction);
        assert only == All()[0] && All()[..1] == [only];
        Emit(only, true, []);
        r := Yielded(only);
      case Item(batch) => r := EmitCurrent(batch);
    }

    /** One resumption: the next chunk of the envelope while there is one to form, and then the
        end, on which the caller's iterator is closed. */
    method Next() returns (r: Resumed)
      requires Valid()
      modifies this, chunks`given, chunks`ends
      ensures Valid()
      ensures r == if old(phase).Completed? then Ended
                   else if |old(yielded)| < Formed(chunks.batches, chunks.end) then Yielded(All()[|old(yielded)|])
                   else if chunks.end.Done? then Ended else Failed(chunks.end.error)
      ensures yielded == if r.Yielded? then old(yielded) + [r.chunk] else old(yielded)
      ensures if r.Yielded? then phase.AtYield?
              else phase.Completed? && chunks.ends == if old(phase).Completed? then old(chunks.ends) else 1
    {
      match phase
      case NotStarted => r := Start();
      case Completed => r := Ended;
      case AtYield(last, upcoming) =>
        if last {
          Finish();
          return Ended;
        }
        number := number + 1;
        r := EmitCurrent(upcoming);
    }

    /** The consumer gives up: before the first resumption nothing was opened and nothing runs. */
    method Return()
      requires Valid()
      modifies this, chunks`ends
      ensures Valid() && phase.Completed? && yielded == old(yielded)
      ensures chunks.ends == old(chunks.ends) + if old(phase).AtYield? then 1 else 0
    {
      if phase.AtYield? {
        Finish();
      } else {
        phase := Completed;
      }
    }
  }

  /** A call that takes at most `wants` chunks and then gives up. What it was given is a prefix
      of the same envelope the Go client sends; the caller's sequence was pulled at most one
      batch ahead, and closed exactly once if it was pulled at all. */
  method Consume(chunks: Puller, req: Request, session: string, wants: nat)
      returns (got: seq<Chunk>, error: Option<int>)
    requires chunks.given == 0 && chunks.ends == 0
    modifies chunks
    ensures got == Chunks(req, session, chunks.batches)[..Min(Formed(chunks.batches, chunks.end), wants)]
    ensures error == if chunks.end.Throws? && wants > Formed(chunks.batches, chunks.end) then Some(chunks.end.error)
                     else None
    ensures chunks.end.Done? && wants >= |Chunks(req, session, chunks.batches)| ==>
              got == Chunks(req, session, chunks.batches)
    ensures chunks.given <= |got| + 1
    ensures chunks.ends == if wants == 0 then 0 else 1
  {
    var g := new ChunkGenerator(req, session, chunks);
    error := None;
    ghost var formed := Formed(chunks.batches, chunks.end);
    for i := 0 to wants
      invariant fresh(g) && g.chunks == chunks && g.req == req && g.session == session && g.Valid()
      invariant |g.yielded| == Min(formed, i)
      invariant g.phase.Completed? <==> i > formed
      invariant chunks.ends == if i > formed then 1 else 0
      invariant !g.phase.Completed? ==> (g.phase.NotStarted? <==> i == 0)
      invariant error == if chunks.end.Throws? && i > formed then Some(chunks.end.error) else None
    {
      var r := g.Next();
      if r.Failed? {
        error := Some(r.error);
      }
    }
    g.Return();
    got := g.yielded;
  }
}
