/** Client, reader goroutine, connection and server of one insert session, as one system.
    Everything the environment decides (scheduling, verdicts, losses, timeouts) is a
    parameter, so a statement about all scripts is a statement about every run. */
module InsertSystem {
  import opened Wrappers
  import opened InsertProtocol

  // ---------------------------------------------------------------- the server

  datatype Phase = Awaiting | Live | Gone

  /** `staged` holds rows of a transaction still open; `applied` lists, chunk by chunk, what
      the server took; `anomalies` counts replayed and skipping chunks it was sent. */
  datatype Server = Server(
    mode: Mode, phase: Phase, watermark: int,
    staged: seq<Row>, durable: seq<Row>, applied: seq<seq<Row>>,
    committed: bool, anomalies: nat)

  /** A title an answer may carry: the expiry title is only ever pushed. */
  type AnswerTitle = t: string | t != EXPIRED_TITLE witness SESSION_TITLE

  /** What the server decides about the frame it takes. */
  datatype Verdict =
    | Apply(accepted: seq<Row>, errors: seq<nat>)
    | FailWhole
    | Refuse(title: AnswerTitle, detail: string)
    | Evict(why: string)
    | Crash(anyway: bool, accepted: seq<Row>)
    | Botch(anyway: bool, accepted: seq<Row>, action: string)

  function Take(s: Server, n: int, rows: seq<Row>): Server {
    var s' := s.(watermark := n, applied := s.applied + [rows]);
    if s.mode.PerBatch? || s.mode.PerRow? then s'.(durable := s.durable + rows)
    else s'.(staged := s.staged + rows)
  }

  /** The session ends undecided: its own transaction is rolled back, a joined one is not. */
  function Discard(s: Server): Server {
    s.(phase := Gone, staged := if s.mode.Joined? then s.staged else [])
  }

  function Decide(s: Server, commit: bool): Server {
    if commit && s.mode.PerStream? then
      s.(phase := Gone, durable := s.durable + s.staged, staged := [], committed := true)
    else if commit then s.(phase := Gone, committed := true)
    else Discard(s)
  }

  function Outcome(s: Server, commit: bool): string {
    if s.mode.Joined? then "detached" else if commit then "commit" else "rollback"
  }

  const LOST := NotFound("Insert session ", "")

  /** What a frame does when the verdict lets it through. */
  function Effect(s: Server, f: Frame, accepted: seq<Row>): Server {
    match f
    case Start => s.(phase := Live)
    case Chunk(n, _) => Take(s, n, accepted)
    case Commit => Decide(s, true)
    case Rollback => Decide(s, false)
  }

  function Answer(s: Server, f: Frame, accepted: seq<Row>, errors: seq<nat>): Msg {
    match f
    case Start => StartedMsg
    case Chunk(n, _) => AckMsg(Ack(n, accepted, errors, false))
    case Commit => CommittedMsg(Outcome(s, true))
    case Rollback => CommittedMsg(Outcome(s, false))
  }

  function Handle(s: Server, f: Frame, v: Verdict): (Server, Msg) {
    if (f.Start? && s.phase != Awaiting) || (!f.Start? && s.phase != Live) then
      (s, LOST.Message())
    else if v.Refuse? then (s, ErrorMsg(v.title, v.detail))
    else if f.Chunk? && f.seqNo <= s.watermark then
      (s.(anomalies := s.anomalies + 1), AckMsg(Ack(f.seqNo, [], [], true)))
    else if f.Chunk? && f.seqNo > s.watermark + 1 then
      (s.(anomalies := s.anomalies + 1), ErrorMsg(SESSION_TITLE, "skips ahead"))
    else match v
      case Apply(accepted, errors) => (Effect(s, f, accepted), Answer(s, f, accepted, errors))
      case FailWhole =>
        if f.Chunk? then (s, AckMsg(Ack(f.seqNo, [], [-1], false)))
        else (Discard(s), Internal("").Message())
      case Evict(why) => (Discard(s), Security(why).Message())
      case Crash(anyway, accepted) =>
        (if anyway then Effect(s, f, accepted) else s, Internal("").Message())
      case Botch(anyway, accepted, action) =>
        (if anyway then Effect(s, f, accepted) else s, Garbled(action))
  }

  // ------------------------------------------------- connection and reader goroutine

  datatype World = World(
    srv: Server,
    toServer: seq<Frame>,      // written, not yet taken by the server
    toClient: seq<Msg>,        // sent, not yet read
    held: seq<Msg>,            // at most one: read, waiting for room in the channel
    inbox: seq<Msg>,           // the channel
    up: bool,                  // the connection carries frames
    readerDone: bool,          // the reader has closed the channel
    cancelled: bool)           // the client dropped the connection

  const INBOX_SIZE := 8

  datatype Step =
    | ServerTakes(v: Verdict)
    | IdleSweep(why: string)
    | ServerSeesClose
    | StrayBinary
    | ReaderReads
    | ReaderPuts
    | ReaderStops
    | Drop(frames: nat, msgs: nat)

  function Push(w: World, m: Msg): World {
    if w.up then w.(toClient := w.toClient + [m]) else w
  }

  /** One environment step; a step that is not enabled changes nothing. */
  function Env(w: World, step: Step): World {
    match step
    case ServerTakes(v) =>
      if w.toServer == [] then w
      else
        var (srv, m) := Handle(w.srv, w.toServer[0], v);
        Push(w.(srv := srv, toServer := w.toServer[1..]), m)
    case IdleSweep(why) =>
      if w.srv.phase.Live? then Push(w.(srv := Discard(w.srv)), Expired(why).Message()) else w
    case ServerSeesClose =>
      if !w.up && w.srv.phase.Live? then w.(srv := Discard(w.srv)) else w
    case StrayBinary => Push(w, Binary)
    case ReaderReads =>
      if w.readerDone || w.held != [] || w.toClient == [] then w
      else
        var m := w.toClient[0];
        w.(toClient := w.toClient[1..], held := if m.Binary? then [] else [m])
    case ReaderPuts =>
      if !w.readerDone && w.held != [] && |w.inbox| < INBOX_SIZE
      then w.(inbox := w.inbox + w.held, held := []) else w
    case ReaderStops =>
      if !w.readerDone && (w.cancelled || (!w.up && w.held == []))
      then w.(readerDone := true, held := [], toClient := []) else w
    case Drop(frames, msgs) =>
      w.(up := false, toServer := First(frames, w.toServer), toClient := First(msgs, w.toClient))
  }

  function EnvAll(w: World, steps: seq<Step>): World
    decreases |steps|
  {
    if steps == [] then w else EnvAll(Env(w, steps[0]), steps[1..])
  }

  // ---------------------------------------------------------------- the client

  /** `acks` are the acknowledgements SendChunk returned; `frames` every frame handed to the
      connection; `confirmed` says a Commit call returned success. */
  datatype Sys = Sys(
    open: bool, chunkSeq: int, w: World,
    acks: seq<Ack>, frames: seq<Frame>, confirmed: bool)

  datatype WriteFate = Written | FailedLost | FailedButDelivered

  /** What the environment does around one exchange: steps before the call, whether the frame
      encodes, the fate of the write, steps until the client wakes, and whether the deadline
      or a cancelled context wins the wait. */
  datatype Script = Script(before: seq<Step>, encodes: bool, write: WriteFate, after: seq<Step>, timeout: bool)

  datatype Result =
    | Answered(m: Msg)
    | SessionClosed
    | ServerError(title: string, detail: string, ended: bool)
    | EncodeError
    | SendError
    | ConnLost
    | TimedOut
    | BadFrame

  function Abort(s: Sys): Sys {
    s.(open := false, w := s.w.(cancelled := true, up := false))
  }

  function Deliver(w: World, f: Frame, fate: WriteFate): World {
    if w.up && !fate.FailedLost? then w.(toServer := w.toServer + [f]) else w
  }

  function Decode(s: Sys, m: Msg, want: string): (Sys, Result) {
    if m.ErrorMsg? then
      var ended := EndsSession(m.title, m.detail);
      (if ended then Abort(s) else s, ServerError(m.title, m.detail, ended))
    else if m.Garbled? || m.Binary? || Action(m) != want then (Abort(s), BadFrame)
    else (s, Answered(m))
  }

  /** The select after a successful write: one frame, the closed channel, or the deadline. */
  function Await(s: Sys, want: string, timeout: bool): (Sys, Result) {
    if timeout || (s.w.inbox == [] && !s.w.readerDone) then (Abort(s), TimedOut)
    else if s.w.inbox == [] then (Abort(s), ConnLost)
    else Decode(s.(w := s.w.(inbox := s.w.inbox[1..])), s.w.inbox[0], want)
  }

  /** After a failed write: an error frame already in the channel says why. */
  function Explain(s: Sys): (Sys, Result) {
    if s.w.inbox == [] then (Abort(s), SendError)
    else
      var m := s.w.inbox[0];
      var s' := Abort(s.(w := s.w.(inbox := s.w.inbox[1..])));
      (s', if m.ErrorMsg? then ServerError(m.title, m.detail, EndsSession(m.title, m.detail)) else SendError)
  }

  /** Everything of an exchange up to the moment the client wakes. */
  function Sent(s: Sys, f: Frame, sc: Script): Sys {
    s.(w := EnvAll(Deliver(s.w, f, sc.write), sc.after), frames := s.frames + [f])
  }

  function Exchange(s: Sys, f: Frame, want: string, sc: Script): (Sys, Result) {
    if !sc.encodes then (s, EncodeError)
    else if sc.write.Written? then Await(Sent(s, f, sc), want, sc.timeout)
    else Explain(Sent(s, f, sc))
  }

  function Tick(s: Sys, steps: seq<Step>): Sys {
    s.(w := EnvAll(s.w, steps))
  }

  function SendChunk(s0: Sys, rows: seq<Row>, sc: Script): (Sys, Result) {
    var s := Tick(s0, sc.before);
    if !s.open then (s, SessionClosed)
    else
      var (t, r) := Exchange(s, Chunk(s.chunkSeq + 1, rows), "batchAck", sc);
      if !r.Answered? || !r.m.AckMsg? then (t, r)
      else
        var t' := if WholeChunkFailed(r.m.ack) then t else t.(chunkSeq := s.chunkSeq + 1);
        (t'.(acks := t.acks + [r.m.ack]), r)
  }

  function Finish(s0: Sys, commit: bool, sc: Script): (Sys, Result) {
    var s := Tick(s0, sc.before);
    if !s.open then (s, SessionClosed)
    else
      var (t, r) := Exchange(s, if commit then Commit else Rollback, "committed", sc.(encodes := true));
      (t.(open := false, confirmed := t.confirmed || (commit && r.Answered?)), r)
  }

  function Close(s0: Sys, sc: Script): Sys {
    Abort(Finish(s0, false, sc).0)
  }

  function Begin(mode: Mode): Sys {
    Sys(true, 0,
        World(Server(mode, Awaiting, 0, [], [], [], false, 0), [], [], [], [], true, false, false),
        [], [], false)
  }

  /** InsertSession: the start exchange, on a fresh connection. */
  function Open(mode: Mode, sc: Script): (Sys, Result) {
    var (s, r) := Exchange(Tick(Begin(mode), sc.before), Start, "started", sc.(encodes := true));
    (if r.Answered? then s else Abort(s), r)
  }

  datatype Call =
    | CallSend(rows: seq<Row>, sc: Script)
    | CallCommit(sc: Script)
    | CallRollback(sc: Script)
    | CallClose(sc: Script)
    | Pause(steps: seq<Step>)

  function Do(s: Sys, c: Call): Sys {
    match c
    case CallSend(rows, sc) => SendChunk(s, rows, sc).0
    case CallCommit(sc) => Finish(s, true, sc).0
    case CallRollback(sc) => Finish(s, false, sc).0
    case CallClose(sc) => Close(s, sc)
    case Pause(steps) => Tick(s, steps)
  }

  function DoAll(s: Sys, calls: seq<Call>): Sys
    decreases |calls|
  {
    if calls == [] then s else DoAll(Do(s, calls[0]), calls[1..])
  }

  /** A whole run: the session is opened, then any calls are made in any order. */
  function Run(mode: Mode, opening: Script, calls: seq<Call>): Sys {
    DoAll(Open(mode, opening).0, calls)
  }
}
