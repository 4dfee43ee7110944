/** The batch body as bytes, and the line splitter and the row encoder undoing each other. */
module BatchWire {
  import opened Wrappers
  import opened Json
  import opened BatchRows
  import opened Ndjson

  // ---------------------------------------------------------------- UTF-8 (RFC 3629)

  function Utf8Char(c: char): (b: seq<byte>)
    ensures 1 <= |b| <= 4
  {
    var n := c as int;
    if n < 0x80 then [n as byte]
    else if n < 0x800 then [(0xC0 + n / 64) as byte, (0x80 + n % 64) as byte]
    else if n < 0x10000 then
      [(0xE0 + n / 4096) as byte, (0x80 + n / 64 % 64) as byte, (0x80 + n % 64) as byte]
    else
      [(0xF0 + n / 262144) as byte, (0x80 + n / 4096 % 64) as byte,
       (0x80 + n / 64 % 64) as byte, (0x80 + n % 64) as byte]
  }

  function Utf8(s: string): seq<byte> {
    if s == "" then [] else Utf8Char(s[0]) + Utf8(s[1..])
  }

  function Tail(b: byte): int {
    b as int - 0x80
  }

  /** The code point and the length of the sequence some bytes start with. */
  function FirstRune(b: seq<byte>): (int, nat)
    requires b != []
  {
    if b[0] < 0x80 then (b[0] as int, 1)
    else if b[0] < 0xE0 && |b| >= 2 then ((b[0] as int - 0xC0) * 64 + Tail(b[1]), 2)
    else if b[0] < 0xF0 && |b| >= 3 then ((b[0] as int - 0xE0) * 4096 + Tail(b[1]) * 64 + Tail(b[2]), 3)
    else if |b| >= 4 then
      ((b[0] as int - 0xF0) * 262144 + Tail(b[1]) * 4096 + Tail(b[2]) * 64 + Tail(b[3]), 4)
    else (-1, 1)
  }

  predicate IsScalar(n: int) {
    0 <= n < 0xD800 || 0xE000 <= n < 0x110000
  }

  function FromUtf8(b: seq<byte>): Option<string>
    decreases |b|
  {
    if b == [] then Some("")
    else
      var (n, k) := FirstRune(b);
      if !IsScalar(n) || k > |b| then None
      else
        match FromUtf8(b[k..])
        case None => None
        case Some(s) => Some([n as char] + s)
  }

  lemma FirstRuneReads(c: char, rest: seq<byte>)
    ensures FirstRune(Utf8Char(c) + rest) == (c as int, |Utf8Char(c)|)
  {
    var n := c as int;
    assert n == n / 64 * 64 + n % 64;
    assert n / 64 == n / 4096 * 64 + n / 64 % 64;
    assert n / 4096 == n / 262144 * 64 + n / 4096 % 64;
  }

  lemma {:induction false} Utf8RoundTrip(s: string)
    ensures FromUtf8(Utf8(s)) == Some(s)
  {
    if s != "" {
      var rest := Utf8(s[1..]);
      FirstRuneReads(s[0], rest);
      Utf8RoundTrip(s[1..]);
      var c := Utf8Char(s[0]);
      hide FirstRune, Utf8Char;
      assert (c + rest)[|c|..] == rest;
      assert [s[0]] + s[1..] == s;
    }
  }

  lemma {:induction false} Utf8Append(a: string, b: string)
    ensures Utf8(a + b) == Utf8(a) + Utf8(b)
  {
    hide Utf8Char;
    if a == "" {
      assert a + b == b;
      assert Utf8(a) == [];
    } else {
      assert (a + b)[0] == a[0] && (a + b)[1..] == a[1..] + b;
      Utf8Append(a[1..], b);
      assert Utf8(a + b) == Utf8Char(a[0]) + Utf8(a[1..] + b);
      assert Utf8Char(a[0]) + (Utf8(a[1..]) + Utf8(b)) == Utf8Char(a[0]) + Utf8(a[1..]) + Utf8(b);
    }
  }

  /** Only a newline character encodes to a newline byte. */
  lemma {:induction false} NewlinesStay(s: string)
    requires '\n' !in s
    ensures NL !in Utf8(s)
  {
    if s != "" {
      assert s[0] in s;
      NewlinesStay(s[1..]);
    }
  }

  // ---------------------------------------------------------------- the body, line by line

  lemma {:induction false} BodyFront(rows: seq<Row>)
    requires rows != []
    ensures Body(rows) == RowText(rows[0]) + "\n" + Body(rows[1..])
    decreases |rows|
  {
    hide RowText;
    var n := |rows| - 1;
    if n == 0 {
      assert Body(rows[..0]) == "" && Body(rows[1..]) == "";
    } else {
      BodyFront(rows[..n]);
      assert rows[..n][1..] == rows[1..][..n - 1];
      assert rows[1..][n - 1] == rows[n];
      assert Body(rows[1..]) == Body(rows[1..][..n - 1]) + RowText(rows[n]) + "\n";
    }
  }

  ghost function RowLines(rows: seq<Row>): seq<Event> {
    if rows == [] then [] else [Line(Utf8(RowText(rows[0])))] + RowLines(rows[1..])
  }

  lemma RowIsNotBlank(row: Row)
    ensures NonBlank([Utf8(RowText(row))]) == [Line(Utf8(RowText(row)))]
  {
    var b := Utf8(RowText(row));
    assert RowText(row)[0] == '{';
    assert b[0] == 123;
    assert SpaceRune(b) == 0 && !Blank(b);
    assert NonBlank([b][1..]) == [];
  }

  lemma {:induction false} BodySplits(rows: seq<Row>)
    requires AllSound(rows)
    ensures LinesOf(Utf8(Body(rows)), Eof) == RowLines(rows)
    decreases |rows|
  {
    hide RowText, Blank, Sound;
    if rows == [] {
      LinesOfTail([], Eof);
      NothingIsBlank();
    } else {
      var line, rest := RowText(rows[0]), Body(rows[1..]);
      BodyFront(rows);
      Utf8Append(line + "\n", rest);
      Utf8Append(line, "\n");
      NewlineByte();
      assert rows[0] in rows;
      RowRoundTrip(rows[0]);
      NewlinesStay(line);
      LinesOfLine(Utf8(line), Utf8(rest), Eof);
      RowIsNotBlank(rows[0]);
      BodySplits(rows[1..]);
    }
  }

  lemma NewlineByte()
    ensures Utf8("\n") == [NL]
  {
    assert "\n"[1..] == "";
  }

  /** What a server makes of one line. */
  function ReadRow(line: seq<byte>): Option<Row> {
    match FromUtf8(line)
    case None => None
    case Some(text) =>
      match Decode(text)
      case Good(Object(fields), rest) => if rest == "" then RowOf(fields) else None
      case _ => None
  }

  lemma LineReadsBack(row: Row)
    requires Sound(row)
    ensures ReadRow(Utf8(RowText(row))) == Some(row)
  {
    RowRoundTrip(row);
    Utf8RoundTrip(RowText(row));
    hide RowText, Fields, Decode, FromUtf8, Utf8, RowOf;
  }

  lemma {:induction false} RowLinesTell(rows: seq<Row>)
    ensures |RowLines(rows)| == |rows|
    ensures forall i :: 0 <= i < |rows| ==> RowLines(rows)[i] == Line(Utf8(RowText(rows[i])))
  {
    hide RowText, Utf8;
    if rows != [] {
      RowLinesTell(rows[1..]);
    }
  }

  /** The splitter over the written body gives back the rows: as many lines as rows, vertices
      first, each reading back as its row. */
  lemma BodyReadsBack(vertices: seq<Row>, edges: seq<Row>)
    requires AllSound(vertices + edges)
    ensures var lines := LinesOf(Utf8(Body(vertices + edges)), Eof);
            && |lines| == |vertices| + |edges|
            && forall i :: 0 <= i < |lines| ==>
                 lines[i].Line? && ReadRow(lines[i].text) == Some((vertices + edges)[i])
  {
    hide RowText, Utf8, ReadRow, Sound, LinesOf, Body;
    var rows := vertices + edges;
    BodySplits(rows);
    RowLinesTell(rows);
    forall i | 0 <= i < |rows| ensures ReadRow(RowLines(rows)[i].text) == Some(rows[i]) {
      assert rows[i] in rows;
      LineReadsBack(rows[i]);
    }
  }
}
