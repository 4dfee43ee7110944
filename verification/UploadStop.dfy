/** How a batch upload ends for its caller: the one-shot stop, the error it prefers, and the two
    calls that use it. */
module UploadStop {
  import opened Wrappers
  import opened Upload
  import opened Push
  import Ndjson

  /** A call either returns a value or re-raises a panic of one of the caller's sequences. */
  datatype Outcome<T> = Returns(value: T) | Raises(panicValue: int)

  /** The writer's own failure: nothing when it only lost its pipe. */
  function Own(res: Result): Option<Err> {
    if res.err.Some? && !IsClosedPipe(res.err.value) then res.err else None
  }

  function Prefer(own: Option<Err>, e: Err): Err {
    if own.Some? then own.value else e
  }

  /** The caller's side of one upload. `result` is what the writer goroutine sends. */
  class Stopper {
    const result: Result
    var bodyClosed: bool
    var received: nat
    var once: bool
    var err: Option<Err>
    var panicked: bool
    var panicValue: int
    var rethrown: bool

    constructor (result: Result)
      ensures Valid() && this.result == result && !once && !rethrown && received == 0
    {
      this.result := result;
      bodyClosed, received, once, err := false, 0, false, None;
      panicked, panicValue, rethrown := false, 0, false;
    }

    ghost predicate Valid()
      reads this
    {
      && received == (if once then 1 else 0)
      && bodyClosed == once
      && (once ==> err == Own(result) && panicked == result.panicked && panicValue == result.value)
      && (!once ==> err == None && !panicked && !rethrown)
      && (rethrown ==> panicked)
    }

    /** Closes the read side and takes the writer's result the first time; re-raises its panic
        the first time only; otherwise always the same answer. */
    method Stop() returns (o: Outcome<Option<Err>>)
      requires Valid()
      modifies this
      ensures Valid() && once
      ensures o == if result.panicked && !old(rethrown) then Raises(result.value) else Returns(Own(result))
      ensures rethrown == result.panicked
    {
      if !once {
        once := true;
        bodyClosed := true;
        received := received + 1;
        panicked, panicValue := result.panicked, result.value;
        if result.err.Some? && !IsClosedPipe(result.err.value) {
          err := result.err;
        }
      }
      if panicked && !rethrown {
        rethrown := true;
        return Raises(panicValue);
      }
      o := Returns(err);
    }

    /** The writer's own failure in preference to `e`. */
    method Fail(e: Err) returns (o: Outcome<Err>)
      requires Valid()
      modifies this
      ensures Valid() && once
      ensures o == if result.panicked && !old(rethrown) then Raises(result.value) else Returns(Prefer(Own(result), e))
      ensures rethrown == result.panicked
    {
      var s := Stop();
      match s
      case Raises(v) => o := Raises(v);
      case Returns(None) => o := Returns(e);
      case Returns(Some(own)) => o := Returns(own);
    }
  }

  // ---------------------------------------------------------------- any sequence of calls

  datatype Call = CallStop | CallFail(e: Err)

  function Answer(res: Result, c: Call, first: bool): Outcome<Option<Err>> {
    if res.panicked && first then Raises(res.value)
    else match c
      case CallStop => Returns(Own(res))
      case CallFail(e) => Returns(Some(Prefer(Own(res), e)))
  }

  function Answers(res: Result, calls: seq<Call>): seq<Outcome<Option<Err>>> {
    seq(|calls|, i requires 0 <= i < |calls| => Answer(res, calls[i], i == 0))
  }

  /** Any callers, in any order. */
  method DriveCalls(res: Result, calls: seq<Call>) returns (answers: seq<Outcome<Option<Err>>>)
    ensures answers == Answers(res, calls)
  {
    var up := new Stopper(res);
    answers := [];
    for i := 0 to |calls|
      invariant up.Valid() && up.result == res
      invariant up.once <==> i > 0
      invariant i > 0 ==> up.rethrown == res.panicked
      invariant answers == Answers(res, calls)[..i]
    {
      match calls[i] {
        case CallStop =>
          var a := up.Stop();
          answers := answers + [a];
        case CallFail(e) =>
          var a := up.Fail(e);
          answers := answers + [if a.Raises? then Raises(a.panicValue) else Returns(Some(a.value))];
      }
    }
  }

  /** A panic is re-raised by the first call, with its value, and by no other; every other call
      reports the writer's own failure when there is one, and otherwise what it was given; and
      a lost pipe is reported to nobody who did not bring it. */
  lemma CallsAgree(res: Result, calls: seq<Call>)
    ensures var a := Answers(res, calls);
            && (forall i :: 0 <= i < |a| ==> (a[i].Raises? <==> i == 0 && res.panicked))
            && (forall i :: 0 <= i < |a| && a[i].Raises? ==> a[i].panicValue == res.value)
            && (forall i :: 0 <= i < |a| && a[i].Returns? ==>
                 a[i].value == if Own(res).Some? then Own(res)
                               else if calls[i].CallFail? then Some(calls[i].e)
                               else None)
            && (forall i :: 0 <= i < |a| && a[i] == Returns(Some(ClosedPipe)) ==> calls[i] == CallFail(ClosedPipe))
  {
  }

  // ---------------------------------------------------------------- BatchLoad

  /** What the transport made of the request. */
  datatype Reply<T> = NoReply(e: Err) | Status(e: Err) | BodyLost(e: Err) | Body(content: T)

  datatype Load<T> = InTransaction | Failed(e: Err) | Undecodable | Summary(content: T)

  /** `decodes` tells whether the body is one JSON object; `writer` is how the writer goroutine
      ends, which depends on what the transport did. */
  method BatchLoad<T>(inTransaction: bool, reply: Reply<T>, writer: Result, decodes: T -> bool)
      returns (o: Outcome<Load<T>>, requests: nat, waited: nat)
    ensures requests == waited == if inTransaction then 0 else 1
    ensures o == if inTransaction then Returns(InTransaction) else LoadSpec(reply, writer, decodes)
  {
    if inTransaction {
      return Returns(InTransaction), 0, 0;
    }
    var up := new Stopper(writer);
    var failed: Outcome<Err>;
    requests := 1;
    match reply
    case NoReply(e) =>
      failed := up.Fail(e);
      o, waited := FailedLoad(failed), up.received;
    case Status(e) =>
      failed := up.Fail(e);
      o, waited := FailedLoad(failed), up.received;
    case BodyLost(e) =>
      failed := up.Fail(e);
      o, waited := FailedLoad(failed), up.received;
    case Body(content) =>
      var stopped := up.Stop();
      waited := up.received;
      match stopped {
        case Raises(v) => o := Raises(v);
        case Returns(Some(e)) => o := Returns(Load.Failed(e));
        case Returns(None) => o := Returns(if decodes(content) then Summary(content) else Undecodable);
      }
  }

  function FailedLoad<T>(failed: Outcome<Err>): Outcome<Load<T>> {
    match failed
    case Raises(v) => Raises(v)
    case Returns(e) => Returns(Load.Failed(e))
  }

  function LoadSpec<T>(reply: Reply<T>, writer: Result, decodes: T -> bool): Outcome<Load<T>> {
    if writer.panicked then Raises(writer.value)
    else if Own(writer).Some? then Returns(Load.Failed(Own(writer).value))
    else match reply
      case NoReply(e) => Returns(Load.Failed(e))
      case Status(e) => Returns(Load.Failed(e))
      case BodyLost(e) => Returns(Load.Failed(e))
      case Body(content) => Returns(if decodes(content) then Summary(content) else Undecodable)
  }

  /** When the writer has no failure of its own to tell, the transport's error is returned as it is,
      and an answer is undecodable only if it was 2xx and does not decode. */
  lemma TransportErrorIsTold<T>(reply: Reply<T>, writer: Result, decodes: T -> bool)
    requires !writer.panicked && (writer.err == None || writer.err == Some(ClosedPipe))
    ensures reply.NoReply? || reply.Status? || reply.BodyLost? ==>
              LoadSpec(reply, writer, decodes) == Returns(Load.Failed(reply.e))
    ensures reply.Body? ==>
              LoadSpec(reply, writer, decodes)
              == Returns(if decodes(reply.content) then Summary(reply.content) else Undecodable)
  {
  }

  /** The server has read every row. */
  predicate Covers(s: State, src: Source) {
    src(s.pulled).End? && s.received == Encoded(src, s.pulled)
  }

  /** The row the writer stopped at has an error that looks like a lost pipe. */
  predicate Swallowed(s: State, src: Source) {
    src(s.pulled).Bad? && IsClosedPipe(src(s.pulled).error)
  }

  predicate IsSummary<T>(o: Outcome<Load<T>>) {
    o.Returns? && o.value.Summary?
  }

  /** When a load returns a summary, and what it is worth. The answer was 2xx and decodes, and the
      run either covered every row, or lost its pipe with bytes unread, or swallowed a row error;
      so a summary covers every row exactly when neither of the last two happened. */
  lemma SummaryTells<T>(reply: Reply<T>, decodes: T -> bool, steps: seq<Step>, src: Source, size: nat)
    ensures var s := Run(START, steps, src, size);
            s.stage.Ended? ==>
              var res := s.stage.res;
              var lost := LostPipe(s, src) && res.err == Some(ClosedPipe);
              var swallowed := Swallowed(s, src) && res.err == Some(src(s.pulled).error);
              var summary := IsSummary(LoadSpec(reply, res, decodes));
              && (summary <==> reply.Body? && decodes(reply.content) && (Covers(s, src) || lost || swallowed))
              && (summary ==> (Covers(s, src) <==> !lost && !swallowed))
              && (summary ==> (Covers(s, src) <==> res.err == None))
  {
    hide Run;
    RunKeeps(START, steps, src, size);
  }

  /** A sequence of n good rows. */
  ghost predicate EndsAt(src: Source, n: nat) {
    src(n).End? && forall i: nat :: i < n ==> src(i).Row?
  }

  /** The same for rows that are all good, in terms of the run: the load succeeds exactly on a 2xx
      answer that decodes, and the server has read every row exactly if at no moment of the run
      the read side was closed with bytes still to be read. */
  lemma SummaryCoversTheRows<T>(reply: Reply<T>, decodes: T -> bool, steps: seq<Step>, src: Source, size: nat, n: nat)
    requires EndsAt(src, n)
    ensures var s := Run(START, steps, src, size);
            s.stage.Ended? ==>
              && (IsSummary(LoadSpec(reply, s.stage.res, decodes)) <==> reply.Body? && decodes(reply.content))
              && (s.received == Encoded(src, n) <==>
                   forall k :: 0 <= k <= |steps| ==> !ClosedEarly(Run(START, steps[..k], src, size), src, n))
  {
    hide Run;
    var s := Run(START, steps, src, size);
    RunKeeps(START, steps, src, size);
    assert s.pulled <= n;
    EncodedGrows(src, s.pulled, n);
    forall k | 0 <= k <= |steps| && Run(START, steps[..k], src, size).readClosed
      ensures Run(START, steps[..k], src, size).received == s.received
    {
      assert steps == steps[..k] + steps[k..];
      RunAppend(START, steps[..k], steps[k..], src, size);
      ClosedIsFrozen(Run(START, steps[..k], src, size), steps[k..], src, size);
    }
    assert steps[..|steps|] == steps;
  }

  predicate ClosedEarly(s: State, src: Source, n: nat) {
    s.readClosed && s.received != Encoded(src, n)
  }

  lemma {:induction false} EncodedGrows(src: Source, m: nat, n: nat)
    requires m <= n
    ensures Encoded(src, m) <= Encoded(src, n)
    decreases n
  {
    if m < n {
      EncodedGrows(src, m, n - 1);
    }
  }

  lemma {:induction false} RunAppend(s: State, a: seq<Step>, b: seq<Step>, src: Source, size: nat)
    ensures Run(s, a + b, src, size) == Run(Run(s, a, src, size), b, src, size)
    decreases |a|
  {
    hide Next;
    if a == [] {
      assert a + b == b;
    } else {
      assert (a + b)[0] == a[0] && (a + b)[1..] == a[1..] + b;
      RunAppend(Next(s, a[0], src, size), a[1..], b, src, size);
    }
  }

  lemma {:induction false} ClosedIsFrozen(s: State, steps: seq<Step>, src: Source, size: nat)
    requires s.readClosed
    ensures var t := Run(s, steps, src, size); t.readClosed && t.received == s.received
    decreases |steps|
  {
    if steps != [] {
      hide Next;
      ClosedIsFrozen(Next(s, steps[0], src, size), steps[1..], src, size);
    }
  }

  /** When the sequence stops at a bad row and the pipe was not lost before it, its error is what
      every transport outcome gives exactly if the error does not look like a lost pipe; if the
      pipe was lost, a 2xx answer succeeds. A panic always reaches the caller with its value, and a
      sequence that exited its goroutine always fails the load. */
  lemma RowErrorIsReported<T>(content: T, decodes: T -> bool, steps: seq<Step>, src: Source, size: nat)
    requires decodes(content)
    ensures var s := Run(START, steps, src, size);
            s.stage.Ended? ==>
              var res, pull := s.stage.res, src(s.pulled);
              && (pull.Bad? && res.err != Some(ClosedPipe) ==>
                   ((forall reply: Reply<T> :: LoadSpec(reply, res, decodes) == Returns(Load.Failed(pull.error)))
                    <==> !IsClosedPipe(pull.error)))
              && (res.err == Some(ClosedPipe) ==>
                   && (LostPipe(s, src) || pull == Pull.Bad(ClosedPipe))
                   && LoadSpec(Body(content), res, decodes) == Returns(Summary(content)))
              && (pull.Panics? && res.err != Some(ClosedPipe) ==>
                   forall reply: Reply<T> :: LoadSpec(reply, res, decodes) == Raises(pull.value))
              && (pull.Exits? && res.err != Some(ClosedPipe) ==>
                   forall reply: Reply<T> :: LoadSpec(reply, res, decodes) == Returns(Load.Failed(Abandoned)))
  {
    hide Run, Inv, Explained;
    ReachableKeeps(steps, src, size);
    var s := Run(START, steps, src, size);
    if s.stage.Ended? {
      EndingReports(s, src, content, decodes);
    }
  }

  lemma EndingReports<T>(s: State, src: Source, content: T, decodes: T -> bool)
    requires s.stage.Ended? && Explained(s, s.stage.res, src) && decodes(content)
    ensures var res, pull := s.stage.res, src(s.pulled);
            && (res.err == Some(ClosedPipe) ==>
                 && (LostPipe(s, src) || pull == Pull.Bad(ClosedPipe))
                 && LoadSpec(Body(content), res, decodes) == Returns(Summary(content)))
            && (pull.Bad? && res.err != Some(ClosedPipe) && IsClosedPipe(pull.error) ==>
                 LoadSpec(Body(content), res, decodes) == Returns(Summary(content)))
            && (pull.Bad? && res.err != Some(ClosedPipe) && !IsClosedPipe(pull.error) ==>
                 forall reply: Reply<T> :: LoadSpec(reply, res, decodes) == Returns(Load.Failed(pull.error)))
            && (pull.Panics? && res.err != Some(ClosedPipe) ==>
                 forall reply: Reply<T> :: LoadSpec(reply, res, decodes) == Raises(pull.value))
            && (pull.Exits? && res.err != Some(ClosedPipe) ==>
                 forall reply: Reply<T> :: LoadSpec(reply, res, decodes) == Returns(Load.Failed(Abandoned)))
  {
    hide Encoded;
  }

  /** A load whose first row is bad can succeed: its error wraps io.ErrClosedPipe. */
  lemma BadRowIsSwallowed<T>(content: T, decodes: T -> bool, src: Source, size: nat, code: int)
    requires decodes(content) && src(0) == Pull.Bad(RowError(code, true))
    ensures var s := Run(START, [Writer] + ([Writer] + ([Writer] + [])), src, size);
            && s.stage.Ended? && s.pulled == 0 && s.received == [] && !s.readClosed
            && LoadSpec(Body(content), s.stage.res, decodes) == Returns(Summary(content))
  {
    hide Run;
    ThreeMore(START, [], src, size);
    RunsOn(Thrice(START, src, size), [], src, size);
    var failed := Upload.Failed(RowError(code, true));
    assert WriterStep(START, src, size) == START.(stage := Closing(failed));
    assert Thrice(START, src, size) == START.(stage := Ended(failed), done := 1);
  }

  const EARLY_STEPS: seq<Step> :=
    [Writer] + ([Writer] + ([Writer] + ([CloseRead] + ([Writer] + ([Writer] + ([Writer] + []))))))

  function Thrice(s: State, src: Source, size: nat): State {
    WriterStep(WriterStep(WriterStep(s, src, size), src, size), src, size)
  }

  lemma EarlyRun(src: Source)
    ensures Run(START, EARLY_STEPS, src, 1) == Thrice(Thrice(START, src, 1).(readClosed := true), src, 1)
  {
    hide Run, WriterStep;
    ThreeMore(START, [CloseRead] + ([Writer] + ([Writer] + ([Writer] + []))), src, 1);
    var s := Thrice(START, src, 1);
    CloseThenRun(s, [Writer] + ([Writer] + ([Writer] + [])), src);
    ThreeMore(s.(readClosed := true), [], src, 1);
    RunsOn(Thrice(s.(readClosed := true), src, 1), [], src, 1);
  }

  lemma ThreeMore(s: State, rest: seq<Step>, src: Source, size: nat)
    ensures Run(s, [Writer] + ([Writer] + ([Writer] + rest)), src, size) == Run(Thrice(s, src, size), rest, src, size)
  {
    hide Run, WriterStep;
    RunsOn(s, [Writer] + ([Writer] + rest), src, size);
    RunsOn(WriterStep(s, src, size), [Writer] + rest, src, size);
    RunsOn(WriterStep(WriterStep(s, src, size), src, size), rest, src, size);
  }

  /** An early answer: the server replies before it has read a byte of an endless load, and the
      load succeeds. */
  lemma EarlyAnswerSucceeds<T>(content: T, decodes: T -> bool, line: Bytes, src: Source)
    requires |line| == 1 && decodes(content) && forall i: nat :: src(i) == Row(line)
    ensures var s := Run(START, EARLY_STEPS, src, 1);
            && s.stage.Ended? && s.received == []
            && LoadSpec(Body(content), s.stage.res, decodes) == Returns(Summary(content))
  {
    hide Run, Thrice, WriterStep, EARLY_STEPS;
    EarlyRun(src);
    EarlyStates(src, line);
  }

  lemma EarlyStates(src: Source, line: Bytes)
    requires |line| == 1 && forall i: nat :: src(i) == Row(line)
    ensures var s3 := START.(stage := Adding, pulled := 2, buf := line, line := line);
            var s5 := s3.(readClosed := true, stage := Closing(Upload.Failed(ClosedPipe)), buf := []);
            && Thrice(START, src, 1) == s3
            && Thrice(s3.(readClosed := true), src, 1) == s5.(stage := Ended(Upload.Failed(ClosedPipe)), done := 1)
  {
    var s1 := START.(stage := Adding, pulled := 1, line := line);
    assert WriterStep(START, src, 1) == s1;
    assert WriterStep(s1, src, 1) == START.(pulled := 1, buf := line);
    var s3 := START.(stage := Adding, pulled := 2, buf := line, line := line);
    var s5 := s3.(readClosed := true, stage := Closing(Upload.Failed(ClosedPipe)), buf := []);
    assert s5 == WriterStep(s3.(readClosed := true), src, 1);
  }

  lemma RunsOn(s: State, rest: seq<Step>, src: Source, size: nat)
    ensures Run(s, [Writer] + rest, src, size) == Run(WriterStep(s, src, size), rest, src, size)
    ensures Run(s, [], src, size) == s
  {
    hide WriterStep;
    assert ([Writer] + rest)[1..] == rest;
  }

  lemma CloseThenRun(s: State, rest: seq<Step>, src: Source)
    ensures Run(s, [CloseRead] + rest, src, 1) == Run(s.(readClosed := true), rest, src, 1)
  {
    assert ([CloseRead] + rest)[1..] == rest;
  }

  // ---------------------------------------------------------------- BatchLoadStream

  datatype Item<T> = Event(content: T) | Error(e: Err) | Refused

  /** What a line of the response reads as: an event, or an error event or a decoding error. */
  datatype Parsed<T> = Good(content: T) | Bad(e: Err)

  type Reader<!T> = seq<Ndjson.byte> -> Parsed<T>

  /** The items of a response, with the writer's own failure in place of the error that ends
      them, and after them when they end without one. */
  function Items<T>(lines: seq<Ndjson.Event>, read: Reader<T>, writer: Result): seq<Item<T>> {
    if lines == [] then Verdict(writer, Own(writer))
    else match lines[0]
      case ReadError(c) => Verdict(writer, Some(Prefer(Own(writer), Other(c))))
      case Line(text) => (
        match read(text)
        case Bad(e) => Verdict(writer, Some(Prefer(Own(writer), e)))
        case Good(ev) => [Event(ev)] + Items(lines[1..], read, writer))
  }

  function Verdict<T>(writer: Result, e: Option<Err>): seq<Item<T>> {
    if writer.panicked || e.None? then [] else [Error(e.value)]
  }

  function StreamItems<T>(reply: Reply<seq<Ndjson.Event>>, read: Reader<T>, writer: Result): seq<Item<T>> {
    match reply
    case NoReply(e) => Verdict(writer, Some(Prefer(Own(writer), e)))
    case Status(e) => Verdict(writer, Some(Prefer(Own(writer), e)))
    case BodyLost(e) => Verdict(writer, Some(Prefer(Own(writer), e)))
    case Body(lines) => Items(lines, read, writer)
  }

  /** Tells the consumer the upload's failure, or lets the sequence's panic through. */
  method YieldFailure<T>(up: Stopper, e: Err, seen: seq<Item<T>>) returns (trace: seq<Item<T>>, o: Outcome<()>)
    requires up.Valid() && !up.once
    modifies up
    ensures up.Valid() && up.once && up.rethrown == up.result.panicked
    ensures trace == seen + Verdict(up.result, Some(Prefer(Own(up.result), e)))
    ensures o == if up.result.panicked then Raises(up.result.value) else Returns(())
  {
    var f := up.Fail(e);
    match f
    case Raises(v) => trace, o := seen, Raises(v);
    case Returns(own) => trace, o := seen + [Error(own)], Returns(());
  }

  /** The deferred stop: a panic not yet re-raised replaces a normal return. */
  method DeferredStop(up: Stopper, ended: Outcome<()>) returns (o: Outcome<()>)
    requires up.Valid()
    modifies up
    ensures up.Valid() && up.once
    ensures o == if up.result.panicked && !old(up.rethrown) then Raises(up.result.value) else ended
  {
    var s := up.Stop();
    o := if s.Raises? then Raises(s.panicValue) else ended;
  }

  /** BatchLoadStream, whose consumer may stop at any item. */
  method BatchLoadStream<T>(inTransaction: bool, reply: Reply<seq<Ndjson.Event>>, read: Reader<T>, writer: Result,
                            more: Consumer<Item<T>>)
      returns (trace: seq<Item<T>>, o: Outcome<()>, requests: nat, waited: nat)
    ensures requests == waited == if inTransaction then 0 else 1
    ensures trace == if inTransaction then [Refused] else Cut(StreamItems(reply, read, writer), more)
    ensures o == if !inTransaction && writer.panicked then Raises(writer.value) else Returns(())
  {
    if inTransaction {
      return [Refused], Returns(()), 0, 0;
    }
    var up := new Stopper(writer);
    requests := 1;
    if reply.Body? {
      trace, o := Follow(up, reply.content, read, more);
    } else {
      CutVerdict([], writer, Some(Prefer(Own(writer), reply.e)), more);
      trace, o := YieldFailure(up, reply.e, []);
    }
    o := DeferredStop(up, o);
    waited := up.received;
  }

  /** The loop over the response's lines. */
  method Follow<T>(up: Stopper, lines: seq<Ndjson.Event>, read: Reader<T>, more: Consumer<Item<T>>)
      returns (trace: seq<Item<T>>, o: Outcome<()>)
    requires up.Valid() && !up.once
    modifies up
    ensures up.Valid() && (up.rethrown <==> o.Raises?)
    ensures trace == Cut(Items(lines, read, up.result), more)
    ensures o == Returns(()) || (o == Raises(up.result.value) && up.result.panicked)
  {
    trace, o := [], Returns(());
    for i := 0 to |lines|
      invariant up.Valid() && !up.once && o == Returns(())
      invariant CutFrom(trace, Items(lines[i..], read, up.result), more) == Cut(Items(lines, read, up.result), more)
    {
      assert lines[i..][0] == lines[i] && lines[i..][1..] == lines[i + 1..];
      match lines[i] {
        case ReadError(c) =>
          CutVerdict(trace, up.result, Some(Prefer(Own(up.result), Other(c))), more);
          trace, o := YieldFailure(up, Other(c), trace);
          return;
        case Line(text) =>
          match read(text) {
            case Bad(e) =>
              CutVerdict(trace, up.result, Some(Prefer(Own(up.result), e)), more);
              trace, o := YieldFailure(up, e, trace);
              return;
            case Good(ev) =>
              trace := trace + [Event(ev)];
              if !more(trace) {
                return;
              }
          }
      }
    }
    assert lines[|lines|..] == [];
    CutVerdict(trace, up.result, Own(up.result), more);
    var s := up.Stop();
    match s
    case Raises(v) => o := Raises(v);
    case Returns(None) =>
    case Returns(Some(e)) => trace := trace + [Error(e)];
  }

  lemma CutVerdict<T>(seen: seq<Item<T>>, writer: Result, e: Option<Err>, more: Consumer<Item<T>>)
    ensures CutFrom(seen, Verdict(writer, e), more) == seen + Verdict(writer, e)
  {
  }

  /** Whatever the consumer does, it sees events and then at most one error, which comes last
      and is the writer's own failure when there is one; a panicking sequence shows no error. */
  lemma StreamTells<T>(reply: Reply<seq<Ndjson.Event>>, read: Reader<T>, writer: Result, more: Consumer<Item<T>>)
    ensures var t := Cut(StreamItems(reply, read, writer), more);
            && (forall i :: 0 <= i < |t| && !t[i].Event? ==> t[i].Error? && i == |t| - 1 && !writer.panicked)
            && (forall i :: 0 <= i < |t| && t[i].Error? && Own(writer).Some? ==> t[i].e == Own(writer).value)
            && (forall k :: 0 < k < |t| ==> more(t[..k]))
            && (Own(writer).Some? && !writer.panicked && (forall q :: more(q)) ==>
                 t != [] && t[|t| - 1] == Error(Own(writer).value))
  {
    var items := StreamItems(reply, read, writer);
    CutTells(items, more);
    if reply.Body? {
      ItemsTell(reply.content, read, writer);
    }
  }

  lemma ItemsTell<T>(lines: seq<Ndjson.Event>, read: Reader<T>, writer: Result)
    ensures var t := Items(lines, read, writer);
            && (forall i :: 0 <= i < |t| && !t[i].Event? ==> t[i].Error? && i == |t| - 1 && !writer.panicked)
            && (forall i :: 0 <= i < |t| && t[i].Error? && Own(writer).Some? ==> t[i].e == Own(writer).value)
            && (Own(writer).Some? && !writer.panicked ==> t != [] && t[|t| - 1] == Error(Own(writer).value))
  {
    hide Items, Sane, LineError, Own;
    ItemsTellAll(lines, read, writer);
  }

  /** The error a line of the response ends the stream with, if it does. */
  function LineError<T>(line: Ndjson.Event, read: Reader<T>): Option<Err> {
    match line
    case ReadError(c) => Some(Other(c))
    case Line(text) => if read(text).Bad? then Some(read(text).e) else None
  }

  /** How many lines come before the first that ends the stream. */
  function Sane<T>(lines: seq<Ndjson.Event>, read: Reader<T>): (n: nat)
    ensures n <= |lines| && (n < |lines| ==> LineError(lines[n], read).Some?)
    ensures forall i :: 0 <= i < n ==> LineError(lines[i], read).None?
  {
    if lines == [] || LineError(lines[0], read).Some? then 0 else 1 + Sane(lines[1..], read)
  }

  /** The whole stream of a response: the events of the lines before the first that is a read error
      or reads as an error, in order; then, if there is such a line or the writer failed, exactly
      one error, the writer's own before that line's. A panic takes its place. */
  lemma {:induction false} ItemsTellAll<T>(lines: seq<Ndjson.Event>, read: Reader<T>, writer: Result)
    ensures var n, t := Sane(lines, read), Items(lines, read, writer);
            var error := if Own(writer).Some? then Own(writer)
                         else if n < |lines| then LineError(lines[n], read) else None;
            && |t| == n + (if error.Some? && !writer.panicked then 1 else 0)
            && (forall i :: 0 <= i < n ==>
                 lines[i].Line? && read(lines[i].text).Good? && t[i] == Event(read(lines[i].text).content))
            && (error.Some? && !writer.panicked ==> t[n] == Error(error.value))
    decreases |lines|
  {
    hide Own;
    if lines != [] && LineError(lines[0], read).None? {
      var n := Sane(lines, read);
      ItemsTellAll(lines[1..], read, writer);
      assert n < |lines| ==> lines[1..][n - 1] == lines[n];
      forall i | 1 <= i < n
        ensures lines[i].Line? && read(lines[i].text).Good?
        ensures Items(lines, read, writer)[i] == Event(read(lines[i].text).content)
      {
        assert lines[1..][i - 1] == lines[i];
      }
    }
  }

  /** A response that never came to lines shows exactly one error: the writer's own, or else the
      transport's. */
  lemma NoLinesTell<T>(reply: Reply<seq<Ndjson.Event>>, read: Reader<T>, writer: Result)
    requires !reply.Body? && !writer.panicked
    ensures StreamItems(reply, read, writer)
            == [Error(if writer.err.Some? && !IsClosedPipe(writer.err.value) then writer.err.value else reply.e)]
  {
  }
}
