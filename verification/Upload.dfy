/** The batch upload: a writer goroutine, its buffered writer, the pipe, the transport that
    reads it and the caller that stops it, as interleaved steps. */
module Upload {
  import opened Wrappers
  import Ndjson

  type Bytes = seq<Ndjson.byte>

  /** How a failure looks to errors.Is(err, io.ErrClosedPipe). */
  datatype Err = RowError(code: int, wrapsClosedPipe: bool) | ClosedPipe | Abandoned | Other(code: int)

  predicate IsClosedPipe(e: Err) {
    e.ClosedPipe? || (e.RowError? && e.wrapsClosedPipe)
  }

  /** What the i-th pull from the caller's sequences gives: an encoded line, a row that does not
      encode or validate, the end, a panic, or a goroutine exit. */
  datatype Pull = Row(line: Bytes) | Bad(error: Err) | End | Panics(value: int) | Exits

  /** Vertices, then edges, possibly without end; no encoded line is empty. */
  type Source = nat -> Pull

  ghost predicate Lines(src: Source) {
    forall i: nat :: src(i).Row? ==> src(i).line != []
  }

  datatype Result = Result(err: Option<Err>, panicked: bool, value: int)

  datatype Stage =
    | Pulling
    | Adding
    | Writing(last: bool)
    | Closing(res: Result)
    | Closed(res: Result)
    | Ended(res: Result)

  /** `line` is what is left of the current row, `buf` the buffered writer's content, `wire` what
      is left of the pipe write in progress. */
  datatype State = State(
    stage: Stage, pulled: nat, line: Bytes, buf: Bytes, wire: Bytes,
    received: Bytes, readClosed: bool, seen: seq<Option<Err>>, done: nat, stopped: bool)

  const START := State(Pulling, 0, [], [], [], [], false, [], 0, false)

  datatype Step = Writer | Read(n: nat) | ReadEnd | CloseRead | StopReturns

  function Failed(e: Err): Result {
    Result(Some(e), false, 0)
  }

  /** Begins a pipe write of `data`, which the read side may already have refused. */
  function BeginWrite(s: State, data: Bytes, last: bool): State {
    if s.readClosed then s.(stage := Closing(Failed(ClosedPipe)))
    else s.(stage := Writing(last), wire := data)
  }

  /** The writer goroutine's next step; `size` is the buffered writer's size. */
  function WriterStep(s: State, src: Source, size: nat): State {
    match s.stage
    case Pulling => (
      match src(s.pulled)
      case Row(line) => s.(stage := Adding, line := line, pulled := s.pulled + 1)
      case Bad(e) => s.(stage := Closing(Failed(e)))
      case End => if s.buf == [] then s.(stage := Closing(Result(None, false, 0)))
          else BeginWrite(s.(buf := []), s.buf, true)
      case Panics(v) => s.(stage := Closing(Result(Some(Abandoned), true, v)))
      case Exits => s.(stage := Closing(Failed(Abandoned))))
    case Adding =>
      if |s.buf| + |s.line| <= size then s.(stage := Pulling, buf := s.buf + s.line, line := [])
      else if s.buf == [] then BeginWrite(s.(line := []), s.line, false)
      else
        var room := size - |s.buf|;
        if room < 0 then s else BeginWrite(s.(buf := [], line := s.line[room..]), s.buf + s.line[..room], false)
    case Writing(last) =>
      if s.wire == [] then s.(stage := if last then Closing(Result(None, false, 0)) else Adding)
      else if s.readClosed then s.(stage := Closing(Failed(ClosedPipe)), wire := [])
      else s
    case Closing(res) => s.(stage := Closed(res))
    case Closed(res) => s.(stage := Ended(res), done := s.done + 1)
    case Ended(_) => s
  }

  function Next(s: State, step: Step, src: Source, size: nat): State {
    match step
    case Writer => WriterStep(s, src, size)
    case Read(n) =>
      if s.readClosed || !s.stage.Writing? then s
      else s.(received := s.received + First(n, s.wire), wire := s.wire[|First(n, s.wire)|..])
    case ReadEnd =>
      if !s.readClosed && (s.stage.Closed? || s.stage.Ended?) then s.(seen := s.seen + [s.stage.res.err]) else s
    case CloseRead => s.(readClosed := true)
    case StopReturns => if s.readClosed && s.done > 0 then s.(stopped := true) else s
  }

  function Run(s: State, steps: seq<Step>, src: Source, size: nat): State
    decreases |steps|
  {
    if steps == [] then s else Run(Next(s, steps[0], src, size), steps[1..], src, size)
  }

  // ---------------------------------------------------------------- the invariant

  function Encoded(src: Source, n: nat): Bytes {
    if n == 0 then [] else Encoded(src, n - 1) + if src(n - 1).Row? then src(n - 1).line else []
  }

  /** The read side was closed while bytes of the pulled rows were still to be read. */
  predicate LostPipe(s: State, src: Source) {
    s.readClosed && |s.received| < |Encoded(src, s.pulled)|
  }

  /** Why the writer ended, as far as the source and the pipe go. */
  predicate Explained(s: State, res: Result, src: Source) {
    match res.err
    case None => src(s.pulled).End? && s.received == Encoded(src, s.pulled) && !res.panicked
    case Some(Abandoned) =>
      if res.panicked then src(s.pulled) == Panics(res.value)
      else src(s.pulled).Exits? || src(s.pulled) == Bad(Abandoned)
    case Some(ClosedPipe) => !res.panicked && (LostPipe(s, src) || src(s.pulled) == Bad(ClosedPipe))
    case Some(e) => !res.panicked && src(s.pulled) == Bad(e)
  }

  ghost predicate Inv(s: State, src: Source, size: nat) {
    && |s.buf| <= size
    && (forall i: nat :: i < s.pulled ==> src(i).Row?)
    && s.done == (if s.stage.Ended? then 1 else 0)
    && (s.stopped ==> s.readClosed && s.stage.Ended?)
    && (s.seen != [] ==> s.stage.Closed? || s.stage.Ended?)
    && (forall e :: e in s.seen ==> (s.stage.Closed? || s.stage.Ended?) && e == s.stage.res.err)
    && match s.stage
       case Pulling => s.wire == [] && s.line == [] && s.received + s.buf == Encoded(src, s.pulled)
       case Adding => s.wire == [] && s.received + s.buf + s.line == Encoded(src, s.pulled)
       case Writing(last) =>
         && s.received + s.wire + s.buf + s.line == Encoded(src, s.pulled) && s.buf == []
         && (last ==> s.line == [] && src(s.pulled).End?)
       case Closing(res) => s.received <= Encoded(src, s.pulled) && Explained(s, res, src)
       case Closed(res) => s.received <= Encoded(src, s.pulled) && Explained(s, res, src)
       case Ended(res) => s.received <= Encoded(src, s.pulled) && Explained(s, res, src)
  }

  lemma WriterKeeps(s: State, src: Source, size: nat)
    requires Inv(s, src, size)
    ensures Inv(WriterStep(s, src, size), src, size)
  {
    var all := Encoded(src, s.pulled);
    match s.stage
    case Pulling => PullKeeps(s, src, size);
    case Adding =>
      if |s.buf| + |s.line| > size && s.buf != [] {
        var room := size - |s.buf|;
        assert s.line == s.line[..room] + s.line[room..];
        assert s.received + (s.buf + s.line[..room]) + [] + s.line[room..] == all;
        assert s.received <= all;
      } else {
        assert s.received <= all;
        assert s.received + s.line + [] + [] == s.received + [] + s.line;
        assert s.received + (s.buf + s.line) == all;
      }
    case Writing(last) => assert s.received <= all;
    case _ =>
  }

  lemma PullKeeps(s: State, src: Source, size: nat)
    requires Inv(s, src, size) && s.stage.Pulling?
    ensures Inv(WriterStep(s, src, size), src, size)
  {
    assert s.received + s.buf + [] + [] == s.received + s.buf;
    assert s.received <= Encoded(src, s.pulled);
    if src(s.pulled).Row? {
      hide Encoded, Explained;
    } else {
      hide Encoded;
    }
  }

  lemma NextKeeps(s: State, step: Step, src: Source, size: nat)
    requires Inv(s, src, size)
    ensures Inv(Next(s, step, src, size), src, size)
  {
    match step
    case Writer => WriterKeeps(s, src, size);
    case Read(n) =>
      var got := First(n, s.wire);
      assert s.wire == got + s.wire[|got|..];
      assert s.received + got + s.wire[|got|..] == s.received + s.wire;
    case _ =>
  }

  lemma {:induction false} RunKeeps(s: State, steps: seq<Step>, src: Source, size: nat)
    requires Inv(s, src, size)
    ensures Inv(Run(s, steps, src, size), src, size)
    decreases |steps|
  {
    hide Inv, Next;
    if steps != [] {
      NextKeeps(s, steps[0], src, size);
      RunKeeps(Next(s, steps[0], src, size), steps[1..], src, size);
    }
  }

  lemma ReachableKeeps(steps: seq<Step>, src: Source, size: nat)
    ensures Inv(Run(START, steps, src, size), src, size)
  {
    RunKeeps(START, steps, src, size);
  }

  /** In every interleaving the body read so far is a prefix of the encodings of the rows before
      the first bad row, a clean end is seen only after every row was encoded and read, and any
      other end carries the reason the writer ended. */
  lemma BodyIsAPrefix(steps: seq<Step>, src: Source, size: nat)
    ensures var s := Run(START, steps, src, size);
            && (forall i: nat :: i < s.pulled ==> src(i).Row?)
            && s.received <= Encoded(src, s.pulled)
            && (None in s.seen ==> src(s.pulled).End? && s.received == Encoded(src, s.pulled))
            && (s.seen != [] ==> s.stage.Closed? || s.stage.Ended?)
            && forall e :: e in s.seen ==> e == s.stage.res.err && Explained(s, s.stage.res, src)
  {
    RunKeeps(START, steps, src, size);
  }

  /** The result is sent exactly once, on every way out, and never while the writer may still
      touch the sequences: after stop returned, no row is pulled any more. */
  lemma DoneOnceAndLast(steps: seq<Step>, more: seq<Step>, src: Source, size: nat)
    ensures var s := Run(START, steps, src, size);
            && s.done <= 1 && (s.done == 1 <==> s.stage.Ended?)
            && (s.stopped ==> Run(s, more, src, size).pulled == s.pulled && Run(s, more, src, size).done == 1)
  {
    var s := Run(START, steps, src, size);
    RunKeeps(START, steps, src, size);
    if s.stopped {
      EndedStays(s, more, src, size);
    }
  }

  lemma {:induction false} EndedStays(s: State, more: seq<Step>, src: Source, size: nat)
    requires s.stage.Ended?
    ensures Run(s, more, src, size).pulled == s.pulled && Run(s, more, src, size).done == s.done
    decreases |more|
  {
    if more != [] {
      EndedStays(Next(s, more[0], src, size), more[1..], src, size);
    }
  }

  // ---------------------------------------------------------------- stopping

  /** How many rows can still be pulled once the read side is closed: every row pulled takes at
      least one byte of the room left in the buffered writer. */
  function Budget(s: State, size: nat): nat {
    match s.stage
    case Pulling => if |s.buf| <= size then size - |s.buf| + 1 else 0
    case Adding => if |s.buf| + |s.line| <= size then size - |s.buf| - |s.line| + 1 else 0
    case Writing(last) => if last || s.wire != [] || |s.line| > size then 0 else size - |s.line| + 1
    case _ => 0
  }

  lemma WriterBudget(s: State, src: Source, size: nat)
    requires Inv(s, src, size) && s.readClosed && Lines(src)
    ensures var t := WriterStep(s, src, size);
            t.readClosed && t.pulled + Budget(t, size) <= s.pulled + Budget(s, size)
  {
    hide Encoded, Explained;
    if s.stage.Pulling? {
      assert |s.buf| <= size;
      hide Inv, Lines;
    } else {
      hide Lines;
    }
  }

  lemma BudgetShrinks(s: State, step: Step, src: Source, size: nat)
    requires Inv(s, src, size) && s.readClosed && Lines(src)
    ensures var t := Next(s, step, src, size);
            t.readClosed && t.pulled + Budget(t, size) <= s.pulled + Budget(s, size)
  {
    hide Encoded, Explained, WriterStep, Lines;
    if step.Writer? {
      WriterBudget(s, src, size);
    } else if step.Read? {
      assert s.stage.Writing? ==> s.buf == [];
    }
  }

  /** Once the read side is closed the writer pulls only finitely many more rows, even from an
      endless sequence: at most as many as the buffered writer has free bytes, and one. */
  lemma {:induction false} FewMoreRows(s: State, steps: seq<Step>, src: Source, size: nat)
    requires Inv(s, src, size) && s.readClosed && Lines(src)
    ensures Run(s, steps, src, size).pulled <= s.pulled + Budget(s, size)
    decreases |steps|
  {
    hide Inv, Next, Budget, Lines;
    if steps != [] {
      BudgetShrinks(s, steps[0], src, size);
      NextKeeps(s, steps[0], src, size);
      FewMoreRows(Next(s, steps[0], src, size), steps[1..], src, size);
    }
  }

  /** Steps the writer still has to make once the read side is closed. */
  function Remaining(s: State, size: nat): nat {
    match s.stage
    case Pulling => 2 * (if |s.buf| <= size then size - |s.buf| else 0) + 4
    case Adding => if |s.buf| + |s.line| <= size then 2 * (size - |s.buf| - |s.line|) + 5 else 3
    case Writing(last) => if last || s.wire != [] || |s.line| > size then 4 else 2 * (size - |s.line|) + 6
    case Closing(_) => 2
    case Closed(_) => 1
    case Ended(_) => 0
  }

  function WriterSteps(steps: seq<Step>): nat {
    if steps == [] then 0 else (if steps[0].Writer? then 1 else 0) + WriterSteps(steps[1..])
  }

  lemma WriterAdvances(s: State, src: Source, size: nat)
    requires Inv(s, src, size) && s.readClosed && Lines(src) && !s.stage.Ended?
    ensures var t := WriterStep(s, src, size); t.readClosed && Remaining(t, size) < Remaining(s, size)
  {
    hide Encoded, Explained;
  }

  lemma OthersWait(s: State, step: Step, src: Source, size: nat)
    requires s.readClosed && (step.Writer? ==> s.stage.Ended?)
    ensures var t := Next(s, step, src, size); t.readClosed && Remaining(t, size) == Remaining(s, size)
  {
  }

  /** The writer is never stuck then: whatever happens in between, it ends once it has been
      given its remaining steps. */
  lemma {:induction false} WriterEnds(s: State, steps: seq<Step>, src: Source, size: nat)
    requires Inv(s, src, size) && s.readClosed && Lines(src) && WriterSteps(steps) >= Remaining(s, size)
    ensures Run(s, steps, src, size).stage.Ended? && Run(s, steps, src, size).readClosed
    decreases |steps|
  {
    hide Inv, Next, Lines;
    if steps != [] {
      var t := Next(s, steps[0], src, size);
      NextKeeps(s, steps[0], src, size);
      if steps[0].Writer? && !s.stage.Ended? {
        WriterIsNext(s, src, size);
        WriterAdvances(s, src, size);
      } else {
        OthersWait(s, steps[0], src, size);
      }
      WriterEnds(t, steps[1..], src, size);
    }
  }

  lemma WriterIsNext(s: State, src: Source, size: nat)
    ensures Next(s, Writer, src, size) == WriterStep(s, src, size)
  {
  }

  /** Whenever the read side is closed, the writer pulls at most one row for every free byte of
      its buffer, and one more, and stop returns: after enough writer steps it has ended, its
      result is waiting, and from then on nothing is pulled. */
  lemma StopEndsTheWriter(before: seq<Step>, after: seq<Step>, src: Source, size: nat)
    requires Lines(src)
    ensures var s := Next(Run(START, before, src, size), CloseRead, src, size);
            var t := Run(s, after, src, size);
            && t.pulled <= s.pulled + size + 1
            && (WriterSteps(after) >= 2 * size + 6 ==> Next(t, StopReturns, src, size).stopped && t.done == 1)
  {
    var r := Run(START, before, src, size);
    var s := Next(r, CloseRead, src, size);
    RunKeeps(START, before, src, size);
    NextKeeps(r, CloseRead, src, size);
    FewMoreRows(s, after, src, size);
    if WriterSteps(after) >= 2 * size + 6 {
      WriterEnds(s, after, src, size);
      RunKeeps(s, after, src, size);
    }
  }
}
