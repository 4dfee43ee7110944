/** Push iterators over a server's answer: the event lines of the HTTP query stream, and the
    message stream of a gRPC call with its flattening into records. */
module Streams {
  import opened Wrappers
  import opened Push
  import Ndjson

  /** What a consumer is given: elements, and at most one error. */
  datatype Item<T> = Element(content: T) | Failure(error: int)

  lemma CutLast<T>(seen: seq<Item<T>>, x: Item<T>, more: Consumer<Item<T>>)
    ensures CutFrom(seen, [x], more) == seen + [x]
  {
    assert [x][1..] == [];
  }

  /** Elements, then at most one error, which is last. */
  predicate OneErrorLast<T>(items: seq<Item<T>>) {
    forall i :: 0 <= i < |items| && items[i].Failure? ==> i == |items| - 1
  }

  // ---------------------------------------------------------------- HTTP events

  datatype Event<T> = Record(content: T) | Stats(limit: int, returned: int, truncated: bool)

  /** An event line as parsed: each of its three known fields, if it is there and not null. */
  datatype Parsed<T> = Parsed(error: Option<int>, stats: Option<WireStats>, record: Option<T>)
  datatype WireStats = WireStats(limit: Option<int>, returned: int, truncated: bool)

  /** json.Unmarshal of a line into those fields; none when it does not fit. */
  type Parser<!T> = seq<Ndjson.byte> -> Option<Parsed<T>>

  const DECODE_ERROR := -1

  datatype Decoded<T> = Known(event: Event<T>) | Unknown | Bad(error: int)

  /** decodeStreamLine: an error field outranks statistics, which outrank a record. */
  function DecodeLine<T>(line: seq<Ndjson.byte>, parse: Parser<T>): Decoded<T> {
    match parse(line)
    case None => Bad(DECODE_ERROR)
    case Some(w) =>
      if w.error.Some? then Bad(w.error.value)
      else if w.stats.Some? then
        var st := w.stats.value;
        Known(Stats(if st.limit.None? then -1 else st.limit.value, st.returned, st.truncated))
      else if w.record.Some? then Known(Record(w.record.value))
      else Unknown
  }

  /** From what the line parses as, alone: an error is an error whatever else is there; statistics
      come before a record, with a limit of -1 when there is none; a line of neither kind is
      skipped; and one that does not parse is an error too. */
  lemma LineTells<T>(line: seq<Ndjson.byte>, parse: Parser<T>)
    ensures parse(line).None? ==> DecodeLine(line, parse) == Bad(-1)
    ensures forall e, st, rec :: parse(line) == Some(Parsed(Some(e), st, rec)) ==> DecodeLine(line, parse) == Bad(e)
    ensures forall limit, n, cut, rec :: parse(line) == Some(Parsed(None, Some(WireStats(limit, n, cut)), rec)) ==>
              DecodeLine(line, parse) == Known(Stats(if limit.Some? then limit.value else -1, n, cut))
    ensures forall rec :: parse(line) == Some(Parsed(None, None, Some(rec))) ==>
              DecodeLine(line, parse) == Known(Record(rec))
    ensures parse(line) == Some(Parsed(None, None, None)) ==> DecodeLine(line, parse) == Unknown
  {
  }

  function Items<T>(lines: seq<Ndjson.Event>, parse: Parser<T>): seq<Item<Event<T>>> {
    if lines == [] then []
    else match lines[0]
      case ReadError(e) => [Failure(e)]
      case Line(text) => (
        match DecodeLine(text, parse)
        case Known(ev) => [Element(ev)] + Items(lines[1..], parse)
        case Unknown => Items(lines[1..], parse)
        case Bad(e) => [Failure(e)])
  }

  datatype Response = NoAnswer(error: int) | Status(error: int) | Ok(lines: seq<Ndjson.Event>)

  function Answer<T>(response: Response, parse: Parser<T>): seq<Item<Event<T>>> {
    match response
    case NoAnswer(e) => [Failure(e)]
    case Status(e) => [Failure(e)]
    case Ok(lines) => Items(lines, parse)
  }

  /** Database.stream over the lines of the body. */
  method StreamEvents<T>(response: Response, parse: Parser<T>, more: Consumer<Item<Event<T>>>)
      returns (trace: seq<Item<Event<T>>>)
    ensures trace == Cut(Answer(response, parse), more)
  {
    trace := [];
    if !response.Ok? {
      CutLast(trace, Failure(response.error), more);
      return [Failure(response.error)];
    }
    var lines := response.lines;
    for i := 0 to |lines|
      invariant CutFrom(trace, Items(lines[i..], parse), more) == Cut(Items(lines, parse), more)
    {
      assert lines[i..][0] == lines[i] && lines[i..][1..] == lines[i + 1..];
      match lines[i] {
        case ReadError(e) =>
          CutLast(trace, Failure(e), more);
          trace := trace + [Failure(e)];
          return;
        case Line(text) =>
          match DecodeLine(text, parse) {
            case Unknown =>
            case Bad(e) =>
              CutLast(trace, Failure(e), more);
              trace := trace + [Failure(e)];
              return;
            case Known(ev) =>
              trace := trace + [Element(ev)];
              if !more(trace) {
                return;
              }
          }
      }
    }
    assert lines[|lines|..] == [];
  }

  /** The error a line ends the stream with, if it does. */
  function LineError<T>(line: Ndjson.Event, parse: Parser<T>): Option<int> {
    match line
    case ReadError(e) => Some(e)
    case Line(text) => (
      match DecodeLine(text, parse)
      case Bad(e) => Some(e)
      case _ => None)
  }

  /** How many lines come before the first that ends the stream. */
  function Sane<T>(lines: seq<Ndjson.Event>, parse: Parser<T>): (n: nat)
    ensures n <= |lines| && (n < |lines| ==> LineError(lines[n], parse).Some?)
    ensures forall i :: 0 <= i < n ==> LineError(lines[i], parse).None?
  {
    if lines == [] || LineError(lines[0], parse).Some? then 0 else 1 + Sane(lines[1..], parse)
  }

  /** The known events of some lines, which none of the others changes. */
  function KnownOf<T>(lines: seq<Ndjson.Event>, parse: Parser<T>): seq<Item<Event<T>>> {
    if lines == [] then []
    else (if lines[0].Line? && DecodeLine(lines[0].text, parse).Known?
          then [Element(DecodeLine(lines[0].text, parse).event)] else []) + KnownOf(lines[1..], parse)
  }

  /** The error line number n, if there is such a line. */
  function ErrorAt<T>(lines: seq<Ndjson.Event>, n: nat, parse: Parser<T>): seq<Item<Event<T>>> {
    if n < |lines| && LineError(lines[n], parse).Some? then [Failure(LineError(lines[n], parse).value)] else []
  }

  lemma {:induction false} ItemsTell<T>(lines: seq<Ndjson.Event>, parse: Parser<T>)
    ensures var n := Sane(lines, parse);
            Items(lines, parse) == KnownOf(lines[..n], parse) + ErrorAt(lines, n, parse)
    decreases |lines|
  {
    var n := Sane(lines, parse);
    if lines != [] {
      var rest := lines[1..];
      assert lines == [lines[0]] + rest;
      hide DecodeLine;
      if LineError(lines[0], parse).None? {
        ItemsTell(rest, parse);
        assert lines[..n][1..] == rest[..n - 1];
        assert KnownOf(lines[..n], parse) == KnownOf([lines[0]], parse) + KnownOf(rest[..n - 1], parse);
        assert ErrorAt(lines, n, parse) == ErrorAt(rest, n - 1, parse);
      } else {
        assert lines[..0] == [] && KnownOf<T>([], parse) == [];
      }
    }
  }

  lemma {:induction false} KnownAreElements<T>(lines: seq<Ndjson.Event>, parse: Parser<T>)
    ensures forall i :: 0 <= i < |KnownOf(lines, parse)| ==> KnownOf(lines, parse)[i].Element?
  {
    if lines != [] {
      KnownAreElements(lines[1..], parse);
    }
  }

  /** For every body, however it is cut and however the connection ends, and for every point a
      consumer stops at: it sees a prefix of the known events that come before the first error
      and then that error, once and last; and it is not called again after it stopped. */
  lemma EventStreamTells<T>(body: seq<Ndjson.byte>, end: Ndjson.End, parse: Parser<T>, more: Consumer<Item<Event<T>>>)
    ensures var lines := Ndjson.LinesOf(body, end);
            var n := Sane(lines, parse);
            var full := KnownOf(lines[..n], parse) + ErrorAt(lines, n, parse);
            var t := Cut(Answer(Ok(lines), parse), more);
            && t <= full
            && (t == full || (t != [] && !more(t)))
            && OneErrorLast(t)
            && (forall k :: 0 < k < |t| ==> more(t[..k]))
  {
    hide Ndjson.LinesOf, Items, KnownOf, Sane, ErrorAt;
    var lines := Ndjson.LinesOf(body, end);
    ItemsTell(lines, parse);
    var n := Sane(lines, parse);
    KnownAreElements(lines[..n], parse);
    ErrorIsOne(lines, n, parse);
    CutTells(Items(lines, parse), more);
  }

  lemma ErrorIsOne<T>(lines: seq<Ndjson.Event>, n: nat, parse: Parser<T>)
    ensures |ErrorAt(lines, n, parse)| <= 1
  {
  }

  /** An in-band error ends the stream with that error, whatever comes behind it. */
  lemma ErrorLineEndsTheStream<T>(lines: seq<Ndjson.Event>, n: nat, parse: Parser<T>, e: int)
    requires n < |lines| && lines[n].Line?
    requires parse(lines[n].text).Some? && parse(lines[n].text).value.error == Some(e)
    requires forall i :: 0 <= i < n ==>
               lines[i].Line? && parse(lines[i].text).Some? && parse(lines[i].text).value.error.None?
    ensures Items(lines, parse) == KnownOf(lines[..n], parse) + [Failure(e)]
  {
    hide Items, KnownOf, LineError, DecodeLine;
    ItemsTell(lines, parse);
    ErrorOf(lines[n], parse);
    forall i | 0 <= i < n ensures LineError(lines[i], parse).None? {
      ErrorOf(lines[i], parse);
    }
    SaneIs(lines, n, parse);
  }

  lemma ErrorOf<T>(line: Ndjson.Event, parse: Parser<T>)
    requires line.Line? && parse(line.text).Some?
    ensures LineError(line, parse) == parse(line.text).value.error
  {
  }

  lemma SaneIs<T>(lines: seq<Ndjson.Event>, n: nat, parse: Parser<T>)
    requires n < |lines| && LineError(lines[n], parse).Some?
    requires forall i :: 0 <= i < n ==> LineError(lines[i], parse).None?
    ensures Sane(lines, parse) == n
  {
    hide LineError, Sane;
    var m := Sane(lines, parse);
  }

  /** A response that never came to lines gives its error, once. */
  lemma NoLinesTell<T>(response: Response, parse: Parser<T>)
    requires !response.Ok?
    ensures Answer(response, parse) == [Failure(response.error)]
  {
  }

  // ---------------------------------------------------------------- gRPC messages

  datatype Receive<T> = Message(content: T) | Eof | Broken(error: int)

  /** One server stream: its messages, how it ends, how often it was read and cancelled. */
  class Rpc<T> {
    const messages: seq<T>
    const end: Option<int>
    var received: nat
    var cancels: nat

    constructor (messages: seq<T>, end: Option<int>)
      ensures this.messages == messages && this.end == end && received == 0 && cancels == 0
    {
      this.messages, this.end := messages, end;
      received, cancels := 0, 0;
    }

    method Recv() returns (r: Receive<T>)
      requires received <= |messages|
      modifies this`received
      ensures r == if old(received) < |messages| then Message(messages[old(received)])
                   else if end.None? then Eof else Broken(end.value)
      ensures received == if old(received) < |messages| then old(received) + 1 else old(received)
    {
      if received < |messages| {
        received := received + 1;
        return Message(messages[received - 1]);
      }
      r := if end.None? then Eof else Broken(end.value);
    }

    method Cancel()
      modifies this`cancels
      ensures cancels == old(cancels) + 1
    {
      cancels := cancels + 1;
    }
  }

  function Ending<T>(end: Option<int>): seq<Item<T>> {
    if end.None? then [] else [Failure(end.value)]
  }

  function Elements<T>(messages: seq<T>): seq<Item<T>> {
    if messages == [] then [] else [Element(messages[0])] + Elements(messages[1..])
  }

  /** recvAll: one range over it opens one RPC and cancels it on every exit. It never reads
      further than the consumer asked. */
  method RecvAll<T>(openError: Option<int>, rpc: Rpc<T>, more: Consumer<Item<T>>) returns (trace: seq<Item<T>>)
    requires rpc.received == 0 && rpc.cancels == 0
    modifies rpc
    ensures trace == if openError.Some? then [Failure(openError.value)]
                     else Cut(Elements(rpc.messages) + Ending(rpc.end), more)
    ensures rpc.cancels == 1 && rpc.received <= |trace|
  {
    if openError.Some? {
      rpc.Cancel();
      return [Failure(openError.value)];
    }
    trace := Receiving(rpc, more);
    rpc.Cancel();
  }

  method Receiving<T>(rpc: Rpc<T>, more: Consumer<Item<T>>) returns (trace: seq<Item<T>>)
    requires rpc.received == 0
    modifies rpc`received
    ensures trace == Cut(Elements(rpc.messages) + Ending(rpc.end), more)
    ensures rpc.received <= |trace|
  {
    trace := [];
    ghost var all := Elements(rpc.messages) + Ending(rpc.end);
    assert rpc.messages[0..] == rpc.messages;
    while true
      invariant rpc.received <= |rpc.messages| && rpc.received == |trace|
      invariant CutFrom(trace, Elements(rpc.messages[rpc.received..]) + Ending(rpc.end), more) == Cut(all, more)
      decreases |rpc.messages| - rpc.received
    {
      ghost var n := rpc.received;
      ghost var todo := Elements(rpc.messages[n..]) + Ending(rpc.end);
      var r := rpc.Recv();
      match r {
        case Eof =>
          return;
        case Broken(e) =>
          CutLast(trace, Failure(e), more);
          assert todo == [Failure(e)];
          trace := trace + [Failure(e)];
          return;
        case Message(m) =>
          assert rpc.messages[n..][0] == m && rpc.messages[n..][1..] == rpc.messages[n + 1..];
          ghost var rest := Elements(rpc.messages[n + 1..]) + Ending(rpc.end);
          assert todo == [Element(m)] + rest;
          trace := trace + [Element(m)];
          if !more(trace) {
            return;
          }
      }
    }
  }

  /** streamQuery: the records of the batches, one at a time; a batch boundary does not show. */
  method StreamRecords<R>(openError: Option<int>, rpc: Rpc<seq<R>>, more: Consumer<Item<R>>)
      returns (trace: seq<Item<R>>)
    requires rpc.received == 0 && rpc.cancels == 0
    modifies rpc
    ensures trace == if openError.Some? then [Failure(openError.value)]
                     else Cut(Elements(Flatten(rpc.messages)) + Ending(rpc.end), more)
    ensures rpc.cancels == 1
    ensures rpc.received <= |rpc.messages|
            && (rpc.received > 0 ==> |Flatten(rpc.messages[..rpc.received - 1])| <= |trace|)
  {
    if openError.Some? {
      rpc.Cancel();
      return [Failure(openError.value)];
    }
    trace := Flattening(rpc, more);
    rpc.Cancel();
  }

  method Flattening<R>(rpc: Rpc<seq<R>>, more: Consumer<Item<R>>) returns (trace: seq<Item<R>>)
    requires rpc.received == 0
    modifies rpc`received
    ensures trace == Cut(Elements(Flatten(rpc.messages)) + Ending(rpc.end), more)
    ensures rpc.received <= |rpc.messages|
            && (rpc.received > 0 ==> |Flatten(rpc.messages[..rpc.received - 1])| <= |trace|)
  {
    trace := [];
    ghost var all := Elements(Flatten(rpc.messages)) + Ending(rpc.end);
    assert rpc.messages[0..] == rpc.messages && rpc.messages[..0] == [];
    while true
      invariant rpc.received <= |rpc.messages| && |trace| == |Flatten(rpc.messages[..rpc.received])|
      invariant rpc.received > 0 ==> |Flatten(rpc.messages[..rpc.received - 1])| <= |trace|
      invariant CutFrom(trace, Elements(Flatten(rpc.messages[rpc.received..])) + Ending(rpc.end), more)
                == Cut(all, more)
      decreases |rpc.messages| - rpc.received
    {
      ghost var n := rpc.received;
      var r := rpc.Recv();
      match r {
        case Eof =>
          return;
        case Broken(e) =>
          CutLast(trace, Failure(e), more);
          assert Elements<R>(Flatten(rpc.messages[n..])) + Ending(rpc.end) == [Failure(e)];
          trace := trace + [Failure(e)];
          return;
        case Message(batch) =>
          assert rpc.messages[n..][0] == batch && rpc.messages[n..][1..] == rpc.messages[n + 1..];
          var stop;
          trace, stop := YieldBatch(trace, batch, Flatten(rpc.messages[n + 1..]), rpc.end, more);
          FlattenTo(rpc.messages, n);
          if stop {
            return;
          }
      }
    }
  }

  method YieldBatch<R>(seen: seq<Item<R>>, batch: seq<R>, ghost later: seq<R>, ghost end: Option<int>,
      more: Consumer<Item<R>>)
      returns (trace: seq<Item<R>>, stop: bool)
    ensures CutFrom(seen, Elements(batch + later) + Ending(end), more)
            == if stop then trace else CutFrom(trace, Elements(later) + Ending(end), more)
    ensures if stop then |trace| > |seen| else |trace| == |seen| + |batch|
  {
    trace := seen;
    ghost var all := CutFrom(seen, Elements(batch + later) + Ending(end), more);
    assert batch[0..] == batch;
    for i := 0 to |batch|
      invariant |trace| == |seen| + i
      invariant CutFrom(trace, Elements(batch[i..] + later) + Ending(end), more) == all
    {
      ghost var rest := batch[i + 1..] + later;
      assert (batch[i..] + later)[0] == batch[i] && (batch[i..] + later)[1..] == rest;
      assert Elements(batch[i..] + later) + Ending(end) == [Element(batch[i])] + (Elements(rest) + Ending(end));
      trace := trace + [Element(batch[i])];
      if !more(trace) {
        return trace, true;
      }
    }
    assert batch[|batch|..] + later == later;
    stop := false;
  }

  lemma {:induction false} ElementsTell<T>(messages: seq<T>)
    ensures |Elements(messages)| == |messages|
    ensures forall i :: 0 <= i < |messages| ==> Elements(messages)[i] == Element(messages[i])
  {
    if messages != [] {
      ElementsTell(messages[1..]);
    }
  }

  /** How the server cuts its records into batches never shows: two streams with the same
      records and the same end look the same to every consumer, records first and in order, an
      error at most once and last, and no call after a refusal. */
  lemma BatchesDoNotShow<R>(a: seq<seq<R>>, b: seq<seq<R>>, end: Option<int>, more: Consumer<Item<R>>)
    requires Flatten(a) == Flatten(b)
    ensures var t := Cut(Elements(Flatten(a)) + Ending(end), more);
            && t == Cut(Elements(Flatten(b)) + Ending(end), more)
            && OneErrorLast(t)
            && (forall i :: 0 <= i < |t| && t[i].Element? ==> i < |Flatten(a)| && t[i].content == Flatten(a)[i])
            && (forall k :: 0 < k < |t| ==> more(t[..k]))
  {
    CutTells(Elements(Flatten(a)) + Ending(end), more);
    ElementsTell(Flatten(a));
  }

  /** To a consumer that never stops: every message in order, then the error the stream broke with,
      or nothing more at its end. */
  lemma EverythingIsShown<T>(messages: seq<T>, end: Option<int>, more: Consumer<Item<T>>)
    requires forall q :: more(q)
    ensures var t := Cut(Elements(messages) + Ending(end), more);
            && |t| == |messages| + (if end.Some? then 1 else 0)
            && (forall i :: 0 <= i < |messages| ==> t[i] == Element(messages[i]))
            && (end.Some? ==> t[|messages|] == Failure(end.value))
  {
    ElementsTell(messages);
    CutTells(Elements(messages) + Ending(end), more);
  }
}
