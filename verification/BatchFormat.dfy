/** What a batch line looks like, character by character: plain text as it is, literals and escapes
    of RFC 8259, the order of the keys, and which lines count as blank. */
module BatchFormat {
  import opened Wrappers
  import opened Json
  import opened BatchRows
  import opened BatchWire
  import Ndjson

  // ---------------------------------------------------------------- texts

  /** A character that goes out as it is; the HTML characters do too. */
  predicate Plain(c: char) {
    c >= ' ' && c != '"' && c != '\\' && c != '\U{2028}' && c != '\U{2029}'
  }

  /** Text without quotes, backslashes, controls and line separators is written verbatim. */
  lemma {:induction false} PlainTextIsVerbatim(s: string)
    requires forall c :: c in s ==> Plain(c)
    ensures Escape(s) == s
  {
    if s != "" {
      hide EscapeChar, Plain;
      PlainIsKept(s[0]);
      PlainTextIsVerbatim(s[1..]);
      assert s == [s[0]] + s[1..];
    }
  }

  lemma PlainIsKept(c: char)
    requires Plain(c)
    ensures EscapeChar(c) == [c]
  {
  }

  /** No raw control character is written, and none of the two line separators (section 7). */
  lemma {:induction false} NothingRaw(s: string)
    ensures forall c :: c in Escape(s) ==> c >= ' ' && c != '\U{2028}' && c != '\U{2029}'
  {
    if s != "" {
      assert forall c :: c in EscapeChar(s[0]) ==> c >= ' ' && c != '\U{2028}' && c != '\U{2029}';
      NothingRaw(s[1..]);
    }
  }

  /** The literals and the brackets (sections 3 to 5), and the short escapes (section 7). */
  lemma LiteralsAreJson()
    ensures Encode(Null) == "null" && Encode(Bool(true)) == "true" && Encode(Bool(false)) == "false"
    ensures forall s :: Encode(Text(s)) == "\"" + Escape(s) + "\""
    ensures Encode(Array([])) == "[]" && Encode(Object([])) == "{}"
    ensures forall x, y :: Encode(Array([x, y])) == "[" + Encode(x) + "," + Encode(y) + "]"
    ensures forall k, x :: Encode(Object([Field(k, x)])) == "{" + (Encode(Text(k)) + ":" + Encode(x)) + "}"
    ensures Escape("\"") == "\\\"" && Escape("\\") == "\\\\" && Escape("\n") == "\\n" && Escape("\t") == "\\t"
  {
    forall x, y ensures Encode(Array([x, y])) == "[" + Encode(x) + "," + Encode(y) + "]" {
      assert [x, y][1..] == [y];
      assert EncodeItems([y]) == Encode(y);
    }
    forall k, x ensures Encode(Object([Field(k, x)])) == "{" + (Encode(Text(k)) + ":" + Encode(x)) + "}" {
      assert EncodeFields([Field(k, x)]) == EncodeField(Field(k, x));
    }
    assert Escape("") == "";
    assert "\""[1..] == "" && "\\"[1..] == "" && "\n"[1..] == "" && "\t"[1..] == "";
  }

  /** ASCII text is one byte a character. */
  lemma {:induction false} AsciiStays(s: string)
    requires forall c :: c in s ==> c < '\U{80}'
    ensures |Utf8(s)| == |s| && forall i :: 0 <= i < |s| ==> Utf8(s)[i] as int == s[i] as int
  {
    if s != "" {
      assert s[0] in s && forall c :: c in s[1..] ==> c in s;
      AsciiStays(s[1..]);
    }
  }

  // ---------------------------------------------------------------- the order of the keys

  /** Keys are in the order of their first differing characters, a prefix before the longer key. */
  lemma {:induction false} BeforeIsLexicographic(common: string, c: char, d: char, x: string, y: string)
    ensures Before(common, common + [c] + x)
    ensures Before(common + [c] + x, common + [d] + y) <==> c < d || (c == d && Before(x, y))
    decreases |common|
  {
    var a, b := common + [c] + x, common + [d] + y;
    if common == "" {
      assert a[1..] == x && b[1..] == y;
    } else {
      BeforeIsLexicographic(common[1..], c, d, x, y);
      assert a[1..] == common[1..] + [c] + x && b[1..] == common[1..] + [d] + y;
    }
  }

  function VertexFront(cls: string, id: string): seq<Field> {
    [Field("@type", Text("vertex")), Field("@class", Text(cls))] + if id == "" then [] else [Field("@id", Text(id))]
  }

  function EdgeFront(cls: string, from: string, to: string): seq<Field> {
    [Field("@type", Text("edge")), Field("@class", Text(cls)), Field("@from", Text(from)), Field("@to", Text(to))]
  }

  /** A line is the type and class first, then the id of a vertex that has one or the two ends of an
      edge, and then the properties, all of them, in sorted key order. */
  lemma FieldOrder(row: Row)
    ensures var keys := KeyList(row.props.Keys);
            && Sorted(keys) && (forall k :: k in keys <==> k in row.props)
            && RowText(row) == Encode(Object(Fields(row)))
            && Fields(row) == (match row
                               case Vertex(cls, id, _) => VertexFront(cls, id)
                               case Edge(cls, from, to, _) => EdgeFront(cls, from, to))
                              + seq(|keys|, i requires 0 <= i < |keys| && keys[i] in row.props =>
                                      Field(keys[i], row.props[keys[i]]))
  {
    var keys := KeyList(row.props.Keys);
    PropsList(keys, row.props);
    assert Props(keys, row.props)
        == seq(|keys|, i requires 0 <= i < |keys| && keys[i] in row.props => Field(keys[i], row.props[keys[i]]));
    ControlFront(row);
    hide Pairs, Control, Props;
  }

  lemma ControlFront(row: Row)
    ensures Pairs(Control(row)) == match row
                                   case Vertex(cls, id, _) => VertexFront(cls, id)
                                   case Edge(cls, from, to, _) => EdgeFront(cls, from, to)
  {
    ControlShape(row, []);
    assert Pairs(Control(row)) + [] == Pairs(Control(row));
    hide Pairs, Control;
  }

  // ---------------------------------------------------------------- blank lines

  /** The white space of Unicode, as Go's unicode.IsSpace has it. */
  predicate UnicodeSpace(c: char) {
    || '\t' <= c <= '\r' || c == ' ' || c == '\U{85}' || c == '\U{A0}' || c == '\U{1680}'
    || '\U{2000}' <= c <= '\U{200A}' || c == '\U{2028}' || c == '\U{2029}' || c == '\U{202F}'
    || c == '\U{205F}' || c == '\U{3000}'
  }

  lemma RuneIsSpace(c: char, rest: seq<Ndjson.byte>)
    ensures Ndjson.SpaceRune(Utf8Char(c) + rest) == if UnicodeSpace(c) then |Utf8Char(c)| else 0
  {
    var b := Utf8Char(c) + rest;
    assert b[0] == Utf8Char(c)[0];
    assert |Utf8Char(c)| > 1 ==> b[1] == Utf8Char(c)[1];
    assert |Utf8Char(c)| > 2 ==> b[2] == Utf8Char(c)[2];
  }

  /** A line of text is blank exactly if it holds white space only. */
  lemma {:induction false} BlankMeans(s: string)
    ensures Ndjson.Blank(Utf8(s)) <==> forall c :: c in s ==> UnicodeSpace(c)
  {
    if s != "" {
      var rest := Utf8(s[1..]);
      RuneIsSpace(s[0], rest);
      BlankMeans(s[1..]);
      assert Utf8(s) == Utf8Char(s[0]) + rest;
      assert (Utf8Char(s[0]) + rest)[|Utf8Char(s[0])|..] == rest;
      assert s[0] in s && forall c :: c in s <==> c == s[0] || c in s[1..];
    }
  }
}
