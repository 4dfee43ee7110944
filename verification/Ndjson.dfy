/** ndjson.Lines: a byte stream split at newlines, blank lines dropped. */
module Ndjson {
  import opened Wrappers
  import opened Push

  newtype byte = b: int | 0 <= b < 256

  const NL: byte := 10

  /** How the reader's stream ends. */
  datatype End = Eof | Broken(error: int)

  datatype Event = Line(text: seq<byte>) | ReadError(error: int)

  // ---------------------------------------------------------------- blank lines

  /** Length of the UTF-8 white-space rune a text starts with, 0 if none: what
      bytes.TrimSpace strips. */
  function SpaceRune(s: seq<byte>): (n: nat)
    ensures n <= |s|
  {
    if s == [] then 0
    else if 9 <= s[0] <= 13 || s[0] == 32 then 1
    else if |s| >= 2 && s[0] == 0xC2 && (s[1] == 0x85 || s[1] == 0xA0) then 2
    else if |s| >= 3 && s[0] == 0xE1 && s[1] == 0x9A && s[2] == 0x80 then 3
    else if |s| >= 3 && s[0] == 0xE2 && s[1] == 0x80
            && (0x80 <= s[2] <= 0x8A || s[2] == 0xA8 || s[2] == 0xA9 || s[2] == 0xAF) then 3
    else if |s| >= 3 && s[0] == 0xE2 && s[1] == 0x81 && s[2] == 0x9F then 3
    else if |s| >= 3 && s[0] == 0xE3 && s[1] == 0x80 && s[2] == 0x80 then 3
    else 0
  }

  predicate Blank(s: seq<byte>)
    decreases |s|
  {
    s == [] || (SpaceRune(s) > 0 && Blank(s[SpaceRune(s)..]))
  }

  // ---------------------------------------------------------------- splitting

  function ToNewline(s: seq<byte>): (n: nat)
    ensures n <= |s| && NL !in s[..n] && (n < |s| ==> s[n] == NL)
  {
    if s == [] || s[0] == NL then 0
    else
      var n := ToNewline(s[1..]);
      assert s[..n + 1] == [s[0]] + s[1..][..n];
      n + 1
  }

  /** Split at every newline; the last segment is what follows the last newline. */
  function Segments(s: seq<byte>): (r: seq<seq<byte>>)
    ensures r != []
    decreases |s|
  {
    var n := ToNewline(s);
    if n == |s| then [s] else [s[..n]] + Segments(s[n + 1..])
  }

  function Unsplit(segments: seq<seq<byte>>): seq<byte>
    requires segments != []
  {
    if |segments| == 1 then segments[0] else segments[0] + [NL] + Unsplit(segments[1..])
  }

  /** The segments are newline-free and, newlines put back, are the text. */
  lemma {:induction false} SegmentsTell(s: seq<byte>)
    ensures Unsplit(Segments(s)) == s
    ensures forall x :: x in Segments(s) ==> NL !in x
    decreases |s|
  {
    var n := ToNewline(s);
    if n < |s| {
      SegmentsTell(s[n + 1..]);
      assert Segments(s)[1..] == Segments(s[n + 1..]);
      assert s == s[..n] + [NL] + s[n + 1..];
    } else {
      assert s[..n] == s;
    }
  }

  /** And no other newline-free segments do that. */
  lemma {:induction false} SegmentsAreUnique(segments: seq<seq<byte>>)
    requires segments != [] && forall x :: x in segments ==> NL !in x
    ensures Segments(Unsplit(segments)) == segments
    decreases |segments|
  {
    var s := Unsplit(segments);
    if |segments| == 1 {
      assert s[..|s|] == segments[0];
      ToNewlineIs(s, |s|);
    } else {
      var rest := Unsplit(segments[1..]);
      assert s == segments[0] + [NL] + rest;
      hide Unsplit, ToNewline;
      SegmentsAreUnique(segments[1..]);
      SegmentsOfLine(segments[0], rest);
    }
  }

  lemma SegmentsOfLine(line: seq<byte>, rest: seq<byte>)
    requires NL !in line
    ensures Segments(line + [NL] + rest) == [line] + Segments(rest)
  {
    var s := line + [NL] + rest;
    assert s[..|line|] == line && s[|line| + 1..] == rest;
    ToNewlineIs(s, |line|);
  }

  lemma ToNewlineIs(s: seq<byte>, n: nat)
    requires n <= |s| && NL !in s[..n] && (n < |s| ==> s[n] == NL)
    ensures ToNewline(s) == n
  {
    assert forall k :: 0 <= k < ToNewline(s) ==> s[k] == s[..ToNewline(s)][k];
    assert forall k :: 0 <= k < n ==> s[k] == s[..n][k];
  }

  function NonBlank(segments: seq<seq<byte>>): seq<Event> {
    if segments == [] then []
    else (if Blank(segments[0]) then [] else [Line(segments[0])]) + NonBlank(segments[1..])
  }

  /** Everything Lines yields to a consumer that never stops: the non-blank complete lines, then
      the unterminated tail on a clean end, or the error once, in its place. */
  function LinesOf(s: seq<byte>, end: End): seq<Event> {
    var segments := Segments(s);
    NonBlank(segments[..|segments| - 1])
    + match end
      case Eof => NonBlank(segments[|segments| - 1..])
      case Broken(e) => [ReadError(e)]
  }

  lemma LinesOfLine(line: seq<byte>, rest: seq<byte>, end: End)
    requires OneLine(line)
    ensures LinesOf(line + [NL] + rest, end) == NonBlank([line]) + LinesOf(rest, end)
  {
    hide Blank, NonBlank, Segments;
    SegmentsOfLine(line, rest);
    NonBlankAppend(line, Segments(rest));
  }

  lemma NonBlankAppend(line: seq<byte>, g: seq<seq<byte>>)
    requires g != []
    ensures var h := [line] + g;
            && NonBlank(h[..|h| - 1]) == NonBlank([line]) + NonBlank(g[..|g| - 1])
            && h[|h| - 1..] == g[|g| - 1..]
  {
    hide Blank;
    var h := [line] + g;
    assert h[..|h| - 1] == [line] + g[..|g| - 1];
    assert h[..|h| - 1][1..] == g[..|g| - 1];
    assert NonBlank([line][1..]) == [];
  }

  lemma LinesOfTail(tail: seq<byte>, end: End)
    requires OneLine(tail)
    ensures LinesOf(tail, end) == match end case Eof => NonBlank([tail]) case Broken(e) => [ReadError(e)]
  {
    assert tail[..|tail|] == tail;
    ToNewlineIs(tail, |tail|);
  }

  // ---------------------------------------------------------------- the buffered reader

  predicate OneLine(s: seq<byte>) {
    NL !in s
  }

  /** bytes.TrimSuffix(s, "\n"). */
  function Chomp(s: seq<byte>): seq<byte> {
    if s != [] && s[|s| - 1] == NL then s[..|s| - 1] else s
  }

  datatype Status = Found | BufferFull | Ended

  /** A bufio.Reader: reads arrive in fragments of any size, at most `capacity` bytes wait. */
  class Reader {
    const end: End
    const capacity: nat
    var fragments: seq<seq<byte>>
    var buf: seq<byte>

    constructor (fragments: seq<seq<byte>>, end: End, capacity: nat)
      requires capacity > 0
      ensures this.end == end && this.capacity == capacity && buf == [] && Rest() == Flatten(fragments)
    {
      this.end, this.capacity, this.fragments, this.buf := end, capacity, fragments, [];
    }

    ghost function Rest(): seq<byte>
      reads this
    {
      buf + Flatten(fragments)
    }

    /** ReadSlice('\n'): up to and including the next newline, a full buffer, or the tail. */
    method ReadSlice() returns (chunk: seq<byte>, status: Status)
      requires capacity > 0
      modifies this
      ensures old(Rest()) == chunk + Rest()
      ensures status.Found? ==> chunk == Chomp(chunk) + [NL] && OneLine(Chomp(chunk))
      ensures status.BufferFull? ==> chunk != [] && OneLine(chunk)
      ensures status.Ended? ==> OneLine(chunk) && Rest() == []
    {
      while true
        invariant Rest() == old(Rest())
        decreases |Flatten(fragments)| + |fragments|
      {
        var n := ToNewline(buf);
        if n < |buf| {
          chunk, status := buf[..n + 1], Found;
          assert chunk[..n] == buf[..n] && buf == chunk + buf[n + 1..];
          buf := buf[n + 1..];
          return;
        }
        assert buf[..n] == buf;
        if |buf| >= capacity {
          chunk, status, buf := buf, BufferFull, [];
          return;
        }
        if fragments == [] {
          chunk, status, buf := buf, Ended, [];
          return;
        }
        var f := fragments[0];
        var room := capacity - |buf|;
        if |f| <= room {
          fragments := fragments[1..];
          buf := buf + f;
        } else {
          FlattenSplit(fragments, room);
          fragments := [f[room..]] + fragments[1..];
          buf := buf + f[..room];
        }
      }
    }
  }

  lemma FlattenSplit(parts: seq<seq<byte>>, n: nat)
    requires parts != [] && n <= |parts[0]|
    ensures Flatten(parts) == parts[0][..n] + Flatten([parts[0][n..]] + parts[1..])
  {
    var rest := [parts[0][n..]] + parts[1..];
    assert rest[1..] == parts[1..] && rest[0] == parts[0][n..];
    assert Flatten(rest) == rest[0] + Flatten(parts[1..]);
    assert parts[0] == parts[0][..n] + parts[0][n..];
  }

  /** Yielding one line, if it is not blank, to a consumer that has seen `seen`. */
  lemma EmitLine(seen: seq<Event>, line: seq<byte>, rest: seq<Event>, more: Consumer<Event>)
    ensures var t := seen + [Line(line)];
            CutFrom(seen, NonBlank([line]) + rest, more)
            == if Blank(line) then CutFrom(seen, rest, more) else if more(t) then CutFrom(t, rest, more) else t
  {
    hide Blank;
    assert NonBlank([line][1..]) == [];
    assert [] + rest == rest;
    assert ([Line(line)] + rest)[1..] == rest;
  }

  lemma EmitError(seen: seq<Event>, error: int, more: Consumer<Event>)
    ensures CutFrom(seen, [ReadError(error)], more) == seen + [ReadError(error)]
  {
  }

  /** Hands over one line, unless it is blank; `stop` is the consumer's refusal. */
  method Yield(seen: seq<Event>, line: seq<byte>, more: Consumer<Event>, ghost later: seq<Event>)
    returns (trace: seq<Event>, stop: bool)
    ensures CutFrom(seen, NonBlank([line]) + later, more) == if stop then trace else CutFrom(trace, later, more)
    ensures stop <==> !Blank(line) && !more(trace)
  {
    EmitLine(seen, line, later, more);
    if Blank(line) {
      return seen, false;
    }
    trace := seen + [Line(line)];
    stop := !more(trace);
  }

  lemma JoinChunk(pending: seq<byte>, chunk: seq<byte>, rest: seq<byte>)
    requires OneLine(pending)
    ensures pending + (chunk + rest) == pending + chunk + rest
    ensures OneLine(chunk) ==> OneLine(pending + chunk) && Chomp(pending + chunk) == pending + chunk
    ensures chunk == Chomp(chunk) + [NL] && OneLine(Chomp(chunk)) ==>
              OneLine(Chomp(pending + chunk)) && pending + chunk == Chomp(pending + chunk) + [NL]
  {
    assert chunk == Chomp(chunk) + [NL] ==> pending + chunk == (pending + Chomp(chunk)) + [NL];
  }

  /** The loop of Lines: whatever the fragments, the buffer size and the consumer, the trace is
      the consumer's cut of the lines of the whole stream. */
  method Lines(r: Reader, more: Consumer<Event>) returns (trace: seq<Event>)
    requires r.capacity > 0
    modifies r
    ensures trace == Cut(LinesOf(old(r.Rest()), r.end), more)
  {
    ghost var all := Cut(LinesOf(r.Rest(), r.end), more);
    ghost var rest := r.Rest();
    trace := [];
    var pending: seq<byte> := [];
    assert [] + rest == rest && OneLine(pending);
    hide LinesOf, Blank, CutFrom, NonBlank, Flatten, Reader.Rest, OneLine, Chomp, ToNewline;
    while true
      invariant OneLine(pending) && rest == r.Rest()
      invariant CutFrom(trace, LinesOf(pending + rest, r.end), more) == all
      decreases |rest|
    {
      var chunk, status := r.ReadSlice();
      rest := r.Rest();
      JoinChunk(pending, chunk, rest);
      pending := pending + chunk;
      if status.BufferFull? {
        continue;
      }
      if status.Ended? {
        assert pending + rest == pending;
        LinesOfTail(pending, r.end);
        if r.end.Broken? {
          EmitError(trace, r.end.error, more);
          trace := trace + [ReadError(r.end.error)];
          return;
        }
      }
      var line := Chomp(pending);
      ghost var later := if status.Found? then LinesOf(rest, r.end) else [];
      assert LinesOf(pending + rest, r.end) == NonBlank([line]) + later by {
        if status.Found? {
          LinesOfLine(line, rest, r.end);
        }
      }
      var stop;
      trace, stop := Yield(trace, line, more, later);
      if stop {
        return;
      }
      pending := [];
      assert OneLine(pending) by {
        NothingIsOneLine();
      }
      if status.Ended? {
        CutNothing(trace, more);
        return;
      }
      assert [] + rest == rest;
    }
  }

  lemma NothingIsOneLine()
    ensures OneLine([])
  {
  }

  lemma CutNothing(seen: seq<Event>, more: Consumer<Event>)
    ensures CutFrom(seen, [], more) == seen
  {
  }

  /** No line yielded is blank or holds a newline, and the error of a broken read is yielded once
      and last. A stream is complete lines and a tail: a broken read yields exactly the non-blank
      lines of the complete part, and a clean end also the tail, unless it is blank. */
  lemma LinesTell(s: seq<byte>, end: End)
    ensures forall e :: e in LinesOf(s, end) && e.Line? ==> NL !in e.text && !Blank(e.text)
    ensures end.Broken? ==>
              var all := LinesOf(s, end);
              all[|all| - 1] == ReadError(end.error) && forall k :: 0 <= k < |all| - 1 ==> all[k].Line?
    ensures end.Eof? ==> forall e :: e in LinesOf(s, end) ==> e.Line?
    ensures forall n: nat :: n <= |s| && CompleteLines(s[..n]) && OneLine(s[n..]) ==>
              LinesOf(s, end) == LinesOf(s[..n], Eof)
                + match end case Eof => NonBlank([s[n..]]) case Broken(e) => [ReadError(e)]
  {
    hide LinesOf, Segments, Blank, NonBlank, OneLine, CompleteLines;
    forall n: nat | n <= |s| && CompleteLines(s[..n]) && OneLine(s[n..])
      ensures LinesOf(s, end) == LinesOf(s[..n], Eof)
                + match end case Eof => NonBlank([s[n..]]) case Broken(e) => [ReadError(e)]
    {
      assert s == s[..n] + s[n..];
      TailApart(s[..n], s[n..], end);
    }
    EventsTell(s, end);
  }

  lemma EventsTell(s: seq<byte>, end: End)
    ensures forall e :: e in LinesOf(s, end) && e.Line? ==> NL !in e.text && !Blank(e.text)
    ensures end.Broken? ==>
              var all := LinesOf(s, end);
              all[|all| - 1] == ReadError(end.error) && forall k :: 0 <= k < |all| - 1 ==> all[k].Line?
    ensures end.Eof? ==> forall e :: e in LinesOf(s, end) ==> e.Line?
  {
    SegmentsTell(s);
    var g := Segments(s);
    NonBlankTells(g[..|g| - 1]);
    NonBlankTells(g[|g| - 1..]);
  }

  /** Nothing, or a text that ends with a newline. */
  predicate CompleteLines(s: seq<byte>) {
    s == [] || s[|s| - 1] == NL
  }

  lemma {:induction false} TailApart(whole: seq<byte>, tail: seq<byte>, end: End)
    requires CompleteLines(whole) && OneLine(tail)
    ensures LinesOf(whole + tail, end) == LinesOf(whole, Eof)
              + match end case Eof => NonBlank([tail]) case Broken(e) => [ReadError(e)]
    decreases |whole|
  {
    hide Blank, NonBlank, LinesOf, Segments;
    if whole == [] {
      assert whole + tail == tail;
      NothingIsOneLine();
      LinesOfTail(tail, end);
      LinesOfTail([], Eof);
      NothingIsBlank();
    } else {
      var n := ToNewline(whole);
      var line, rest := whole[..n], whole[n + 1..];
      assert whole == line + [NL] + rest;
      assert whole + tail == line + [NL] + (rest + tail);
      assert rest != [] ==> rest[|rest| - 1] == whole[|whole| - 1];
      LinesOfLine(line, rest + tail, end);
      LinesOfLine(line, rest, Eof);
      TailApart(rest, tail, end);
    }
  }

  lemma NothingIsBlank()
    ensures NonBlank([[]]) == []
  {
  }

  lemma {:induction false} NonBlankTells(g: seq<seq<byte>>)
    ensures forall e :: e in NonBlank(g) ==> e.Line? && e.text in g && !Blank(e.text)
  {
    if g != [] {
      NonBlankTells(g[1..]);
    }
  }
}
