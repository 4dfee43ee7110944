/** The JSON texts the batch encoder writes, and a reader for them (RFC 8259, sections 4 to 7,
    without insignificant white space). Text is a sequence of Unicode scalar values. */
module Json {
  import opened Wrappers

  /** A value as a caller may put it in a row. `Number` carries its literal; `Opaque` is a value
      encoding/json refuses (a channel, a NaN, a failing marshaller). */
  datatype Value =
    | Null
    | Bool(b: bool)
    | Number(literal: string)
    | Text(s: string)
    | Array(items: seq<Value>)
    | Object(fields: seq<Field>)
    | Opaque

  datatype Field = Field(key: string, value: Value)

  // ---------------------------------------------------------------- number literals

  predicate IsDigit(c: char) {
    '0' <= c <= '9'
  }

  predicate Digits(s: string) {
    s != "" && forall i :: 0 <= i < |s| ==> IsDigit(s[i])
  }

  predicate IsNumberChar(c: char) {
    IsDigit(c) || c == '-' || c == '+' || c == '.' || c == 'e' || c == 'E'
  }

  /** Length of the run of digits a text starts with. */
  function DigitRun(s: string): (n: nat)
    ensures n <= |s|
  {
    if s == "" || !IsDigit(s[0]) then 0 else 1 + DigitRun(s[1..])
  }

  predicate IsExponent(s: string) {
    s == "" || (|s| >= 2 && s[0] in {'e', 'E'} && Digits(if s[1] in {'+', '-'} then s[2..] else s[1..]))
  }

  predicate IsFractionAndExponent(s: string) {
    if s != "" && s[0] == '.' then
      var n := DigitRun(s[1..]);
      n > 0 && IsExponent(s[1 + n..])
    else IsExponent(s)
  }

  /** The number grammar of RFC 8259, section 6. */
  predicate IsNumber(s: string) {
    var t := if s != "" && s[0] == '-' then s[1..] else s;
    var n := DigitRun(t);
    && s != "" && n > 0 && (t[0] == '0' ==> n == 1) && IsFractionAndExponent(t[n..])
    && forall c :: c in s ==> IsNumberChar(c)
  }

  // ---------------------------------------------------------------- encoding

  function HexDigit(d: nat): char
    requires d < 16
  {
    if d < 10 then ('0' as int + d) as char else ('a' as int + d - 10) as char
  }

  function Hex4(n: nat): (r: string)
    requires n < 0x10000
    ensures |r| == 4
  {
    [HexDigit(n / 4096), HexDigit(n / 256 % 16), HexDigit(n / 16 % 16), HexDigit(n % 16)]
  }

  /** encoding/json's escapes with HTML escaping off. */
  function EscapeChar(c: char): string {
    if c == '"' then "\\\""
    else if c == '\\' then "\\\\"
    else if c == '\U{8}' then "\\b"
    else if c == '\U{c}' then "\\f"
    else if c == '\n' then "\\n"
    else if c == '\r' then "\\r"
    else if c == '\t' then "\\t"
    else if c < ' ' || c == '\U{2028}' || c == '\U{2029}' then "\\u" + Hex4(c as int)
    else [c]
  }

  function Escape(s: string): string {
    if s == "" then "" else EscapeChar(s[0]) + Escape(s[1..])
  }

  function Quote(s: string): string {
    "\"" + Escape(s) + "\""
  }

  /** Whether encoding/json accepts the value. */
  predicate Encodable(v: Value) {
    match v
    case Number(literal) => IsNumber(literal)
    case Array(items) => forall x :: x in items ==> Encodable(x)
    case Object(fields) => forall f :: f in fields ==> Encodable(f.value)
    case Opaque => false
    case _ => true
  }

  function Encode(v: Value): string
    decreases v, 0
  {
    match v
    case Null => "null"
    case Bool(b) => if b then "true" else "false"
    case Number(literal) => literal
    case Text(s) => Quote(s)
    case Array(items) => "[" + EncodeItems(items) + "]"
    case Object(fields) => "{" + EncodeFields(fields) + "}"
    case Opaque => ""
  }

  function EncodeItems(items: seq<Value>): string
    decreases items, 0
  {
    if items == [] then ""
    else Encode(items[0]) + (if |items| == 1 then "" else "," + EncodeItems(items[1..]))
  }

  function EncodeFields(fields: seq<Field>): string
    decreases fields, 0
  {
    if fields == [] then ""
    else EncodeField(fields[0]) + (if |fields| == 1 then "" else "," + EncodeFields(fields[1..]))
  }

  function EncodeField(f: Field): string
    decreases f, 0
  {
    Quote(f.key) + ":" + Encode(f.value)
  }

  // ---------------------------------------------------------------- decoding

  function HexValue(c: char): Option<nat> {
    if '0' <= c <= '9' then Some(c as int - '0' as int)
    else if 'a' <= c <= 'f' then Some(c as int - 'a' as int + 10)
    else if 'A' <= c <= 'F' then Some(c as int - 'A' as int + 10)
    else None
  }

  /** Four hex digits naming a character that is not a surrogate. */
  function Unhex4(s: string): Option<char>
    requires |s| == 4
  {
    match (HexValue(s[0]), HexValue(s[1]), HexValue(s[2]), HexValue(s[3]))
    case (Some(a), Some(b), Some(c), Some(d)) =>
      var n := a * 4096 + b * 256 + c * 16 + d;
      if n < 0xD800 || 0xE000 <= n < 0x10000 then Some(n as char) else None
    case _ => None
  }

  /** Reads to the closing quote: the text and what follows the quote. */
  function ReadString(t: string): (r: Option<(string, string)>)
    ensures r.Some? ==> |r.value.1| < |t|
    decreases |t|
  {
    if t == "" || t[0] < ' ' then None
    else if t[0] == '"' then Some(("", t[1..]))
    else if t[0] != '\\' then Prepend(t[0], ReadString(t[1..]))
    else if |t| < 2 then None
    else match t[1]
      case '"' => Prepend('"', ReadString(t[2..]))
      case '\\' => Prepend('\\', ReadString(t[2..]))
      case '/' => Prepend('/', ReadString(t[2..]))
      case 'b' => Prepend('\U{8}', ReadString(t[2..]))
      case 'f' => Prepend('\U{c}', ReadString(t[2..]))
      case 'n' => Prepend('\n', ReadString(t[2..]))
      case 'r' => Prepend('\r', ReadString(t[2..]))
      case 't' => Prepend('\t', ReadString(t[2..]))
      case 'u' =>
        if |t| < 6 || Unhex4(t[2..6]).None? then None
        else Prepend(Unhex4(t[2..6]).value, ReadString(t[6..]))
      case _ => None
  }

  function Prepend(c: char, r: Option<(string, string)>): Option<(string, string)> {
    match r
    case None => None
    case Some((s, rest)) => Some(([c] + s, rest))
  }

  function NumberRun(t: string): (n: nat)
    ensures n <= |t|
  {
    if t == "" || !IsNumberChar(t[0]) then 0 else 1 + NumberRun(t[1..])
  }

  datatype Parse<+T> = Bad | Good(value: T, rest: string)

  function Literal(t: string, word: string, v: Value): Parse<Value> {
    if word <= t then Good(v, t[|word|..]) else Bad
  }

  function Decode(t: string): (p: Parse<Value>)
    ensures p.Good? ==> |p.rest| < |t|
    decreases |t|, 3
  {
    if t == "" then Bad
    else if t[0] == 'n' then Literal(t, "null", Null)
    else if t[0] == 't' then Literal(t, "true", Bool(true))
    else if t[0] == 'f' then Literal(t, "false", Bool(false))
    else if t[0] == '"' then DecodeText(t)
    else if t[0] == '[' then DecodeArray(t)
    else if t[0] == '{' then DecodeObject(t)
    else
      var n := NumberRun(t);
      if n > 0 && IsNumber(t[..n]) then Good(Number(t[..n]), t[n..]) else Bad
  }

  function DecodeArray(t: string): (p: Parse<Value>)
    requires t != ""
    ensures p.Good? ==> |p.rest| < |t|
    decreases |t|, 2
  {
    if t[1..] != "" && t[1] == ']' then Good(Array([]), t[2..])
    else
      match DecodeItems(t[1..])
      case Bad => Bad
      case Good(items, rest) => if rest != "" && rest[0] == ']' then Good(Array(items), rest[1..]) else Bad
  }

  function DecodeObject(t: string): (p: Parse<Value>)
    requires t != ""
    ensures p.Good? ==> |p.rest| < |t|
    decreases |t|, 2
  {
    if t[1..] != "" && t[1] == '}' then Good(Object([]), t[2..])
    else
      match DecodeFields(t[1..])
      case Bad => Bad
      case Good(fields, rest) => if rest != "" && rest[0] == '}' then Good(Object(fields), rest[1..]) else Bad
  }

  function DecodeText(t: string): (p: Parse<Value>)
    requires t != ""
    ensures p.Good? ==> |p.rest| < |t|
  {
    match ReadString(t[1..])
    case None => Bad
    case Some((s, rest)) => Good(Text(s), rest)
  }

  function DecodeItems(t: string): (p: Parse<seq<Value>>)
    ensures p.Good? ==> |p.rest| < |t|
    decreases |t|, 4
  {
    match Decode(t)
    case Bad => Bad
    case Good(v, rest) =>
      if rest != "" && rest[0] == ',' then
        match DecodeItems(rest[1..])
        case Bad => Bad
        case Good(vs, rest') => Good([v] + vs, rest')
      else Good([v], rest)
  }

  function DecodeFields(t: string): (p: Parse<seq<Field>>)
    ensures p.Good? ==> |p.rest| < |t|
    decreases |t|, 5
  {
    match DecodeField(t)
    case Bad => Bad
    case Good(f, rest) =>
      if rest != "" && rest[0] == ',' then
        match DecodeFields(rest[1..])
        case Bad => Bad
        case Good(fs, rest') => Good([f] + fs, rest')
      else Good([f], rest)
  }

  function DecodeField(t: string): (p: Parse<Field>)
    ensures p.Good? ==> |p.rest| < |t|
    decreases |t|, 4
  {
    if t == "" || t[0] != '"' then Bad
    else
      match ReadString(t[1..])
      case None => Bad
      case Some((key, rest)) =>
        if rest == "" || rest[0] != ':' then Bad
        else
          match Decode(rest[1..])
          case Bad => Bad
          case Good(v, rest') => Good(Field(key, v), rest')
  }

  // ---------------------------------------------------------------- round trips

  lemma HexSum(n: nat)
    requires n < 0x10000
    ensures n == n / 4096 * 4096 + n / 256 % 16 * 256 + n / 16 % 16 * 16 + n % 16
  {
    assert n / 16 == n / 256 * 16 + n / 16 % 16;
    assert n / 256 == n / 4096 * 16 + n / 256 % 16;
  }

  lemma HexRoundTrip(n: nat)
    requires n < 0xD800
    ensures Unhex4(Hex4(n)) == Some(n as char) && '\n' !in Hex4(n)
  {
    HexSum(n);
    hide HexValue, HexDigit;
  }

  predicate NeedsEscape(c: char) {
    c == '"' || c == '\\' || c < ' ' || c == '\U{2028}' || c == '\U{2029}'
  }

  lemma PlainRoundTrip(c: char, t: string)
    requires c != '"' && c != '\\' && c >= ' '
    ensures ReadString([c] + t) == Prepend(c, ReadString(t))
  {
    assert ([c] + t)[1..] == t;
  }

  lemma HexEscapeRoundTrip(c: char, t: string)
    requires c as int < 0xD800
    ensures ReadString("\\u" + Hex4(c as int) + t) == Prepend(c, ReadString(t))
  {
    HexRoundTrip(c as int);
    hide Unhex4, Hex4;
    var e := "\\u" + Hex4(c as int) + t;
    assert e[2..6] == Hex4(c as int) && e[6..] == t;
  }

  lemma ShortRoundTrip(c: char, t: string)
    requires |EscapeChar(c)| == 2
    ensures ReadString(EscapeChar(c) + t) == Prepend(c, ReadString(t))
  {
    hide Unhex4, Hex4;
    assert (EscapeChar(c) + t)[2..] == t;
  }

  lemma EscapeCharRoundTrip(c: char, t: string)
    ensures ReadString(EscapeChar(c) + t) == Prepend(c, ReadString(t))
  {
    hide ReadString, Hex4, Prepend;
    if |EscapeChar(c)| == 2 {
      ShortRoundTrip(c, t);
    } else if NeedsEscape(c) {
      HexEscapeRoundTrip(c, t);
    } else {
      PlainRoundTrip(c, t);
    }
  }

  lemma {:induction false} StringRoundTrip(s: string, t: string)
    ensures ReadString(Escape(s) + "\"" + t) == Some((s, t))
  {
    hide EscapeChar;
    if s != "" {
      StringRoundTrip(s[1..], t);
      EscapeCharRoundTrip(s[0], Escape(s[1..]) + "\"" + t);
      assert Escape(s) + "\"" + t == EscapeChar(s[0]) + (Escape(s[1..]) + "\"" + t);
      assert [s[0]] + s[1..] == s;
    } else {
      assert (Escape(s) + "\"" + t)[1..] == t;
    }
  }

  /** A number literal ends where a number character does. */
  predicate Delimited(t: string) {
    t == "" || !IsNumberChar(t[0])
  }

  lemma {:induction false} NumberRunIs(s: string, t: string)
    requires (forall c :: c in s ==> IsNumberChar(c)) && Delimited(t)
    ensures NumberRun(s + t) == |s|
  {
    if s != "" {
      assert (s + t)[1..] == s[1..] + t;
      NumberRunIs(s[1..], t);
    } else {
      assert s + t == t;
    }
  }

  lemma NumberRoundTrip(s: string, t: string)
    requires IsNumber(s) && Delimited(t)
    ensures Decode(s + t) == Good(Number(s), t)
  {
    NumberRunIs(s, t);
    assert (s + t)[0] == s[0] && s[0] in s;
    assert (s + t)[..|s|] == s && (s + t)[|s|..] == t;
    hide IsNumber;
  }

  lemma WordRoundTrip(t: string)
    ensures Decode("null" + t) == Good(Null, t)
    ensures Decode("true" + t) == Good(Bool(true), t)
    ensures Decode("false" + t) == Good(Bool(false), t)
  {
    assert ("null" + t)[4..] == t && ("true" + t)[4..] == t && ("false" + t)[5..] == t;
  }

  lemma TextRoundTrip(s: string, t: string)
    ensures Decode(Quote(s) + t) == Good(Text(s), t)
  {
    StringRoundTrip(s, t);
    assert (Quote(s) + t)[1..] == Escape(s) + "\"" + t;
    hide ReadString, Escape;
  }

  /** What was encoded reads back, and the reader stops right behind it. */
  lemma {:induction false} RoundTrip(v: Value, t: string)
    requires Encodable(v) && Delimited(t)
    ensures Decode(Encode(v) + t) == Good(v, t)
    decreases v, 0
  {
    hide Decode, Quote, EncodeItems, EncodeFields, IsNumber;
    match v
    case Null => WordRoundTrip(t);
    case Bool(_) => WordRoundTrip(t);
    case Number(literal) => NumberRoundTrip(literal, t);
    case Text(s) => TextRoundTrip(s, t);
    case Array(items) => ArrayRoundTrip(items, t);
    case Object(fields) => ObjectRoundTrip(fields, t);
  }

  lemma {:induction false} ArrayRoundTrip(items: seq<Value>, t: string)
    requires forall x :: x in items ==> Encodable(x)
    ensures Decode("[" + EncodeItems(items) + "]" + t) == Good(Array(items), t)
    decreases items, 1
  {
    var e := "[" + EncodeItems(items) + "]" + t;
    assert e[1..] == EncodeItems(items) + ("]" + t);
    assert ("]" + t)[1..] == t;
    if items != [] {
      ItemsRoundTrip(items, "]" + t);
      assert e[1] == Encode(items[0])[0];
    } else {
      assert e == "[]" + t && e[2..] == t;
    }
    hide EncodeItems, DecodeItems, Encode, Encodable;
  }

  /** What may follow an item of a list. */
  predicate Closes(t: string) {
    Delimited(t) && (t != "" ==> t[0] != ',')
  }

  lemma CommaCloses(t: string)
    ensures Delimited("," + t) && Closes("]" + t) && Closes("}" + t)
  {
  }

  lemma {:induction false} ItemsShape(items: seq<Value>, t: string)
    requires items != []
    ensures EncodeItems(items) + t
            == Encode(items[0]) + if |items| == 1 then t else "," + (EncodeItems(items[1..]) + t)
  {
    var head, rest := Encode(items[0]), EncodeItems(items[1..]);
    assert EncodeItems(items) == head + if |items| == 1 then "" else "," + rest;
    hide Encode, EncodeItems;
    assert head + ("," + rest) + t == head + ("," + (rest + t));
    assert head + "" + t == head + t;
  }

  lemma {:induction false} ItemsRoundTrip(items: seq<Value>, t: string)
    requires items != [] && (forall x :: x in items ==> Encodable(x)) && Closes(t)
    ensures DecodeItems(EncodeItems(items) + t) == Good(items, t)
    decreases items, 0
  {
    hide Encode, Decode, Encodable, EncodeItems, IsNumberChar;
    ItemsShape(items, t);
    CommaCloses(if |items| == 1 then "" else EncodeItems(items[1..]) + t);
    if |items| == 1 {
      RoundTrip(items[0], t);
      assert [items[0]] == items;
    } else {
      var tail := "," + (EncodeItems(items[1..]) + t);
      RoundTrip(items[0], tail);
      ItemsRoundTrip(items[1..], t);
      assert tail[1..] == EncodeItems(items[1..]) + t;
      assert [items[0]] + items[1..] == items;
    }
  }

  lemma ObjectShape(fields: seq<Field>, t: string)
    ensures var e := "{" + EncodeFields(fields) + "}" + t;
            && e[0] == '{' && e[1..] == EncodeFields(fields) + ("}" + t)
            && (if fields == [] then e[1] == '}' && e[2..] == t else e[1] == '"')
  {
    var e := "{" + EncodeFields(fields) + "}" + t;
    if fields == [] {
      assert e == "{}" + t;
    } else {
      FieldShape(fields[0], "");
      assert EncodeField(fields[0]) + "" == EncodeField(fields[0]);
      hide EncodeField, Encode, Escape;
      assert EncodeFields(fields)[0] == '"';
    }
  }

  lemma {:induction false} ObjectRoundTrip(fields: seq<Field>, t: string)
    requires forall f :: f in fields ==> Encodable(f.value)
    ensures Decode("{" + EncodeFields(fields) + "}" + t) == Good(Object(fields), t)
    decreases fields, 2
  {
    hide EncodeFields, DecodeFields, Encodable, IsNumberChar;
    CommaCloses(t);
    ObjectShape(fields, t);
    if fields != [] {
      FieldsRoundTrip(fields, "}" + t);
      assert ("}" + t)[1..] == t;
    }
  }

  lemma {:induction false} FieldsShape(fields: seq<Field>, t: string)
    requires fields != []
    ensures EncodeFields(fields) + t
            == EncodeField(fields[0]) + if |fields| == 1 then t else "," + (EncodeFields(fields[1..]) + t)
  {
    var head, rest := EncodeField(fields[0]), EncodeFields(fields[1..]);
    assert EncodeFields(fields) == head + if |fields| == 1 then "" else "," + rest;
    hide EncodeField, EncodeFields;
    assert head + ("," + rest) + t == head + ("," + (rest + t));
    assert head + "" + t == head + t;
  }

  lemma {:induction false} FieldsRoundTrip(fields: seq<Field>, t: string)
    requires fields != [] && (forall f :: f in fields ==> Encodable(f.value)) && Closes(t)
    ensures DecodeFields(EncodeFields(fields) + t) == Good(fields, t)
    decreases fields, 1
  {
    hide EncodeField, DecodeField, Encodable, EncodeFields, IsNumberChar;
    FieldsShape(fields, t);
    CommaCloses(if |fields| == 1 then "" else EncodeFields(fields[1..]) + t);
    if |fields| == 1 {
      FieldRoundTrip(fields[0], t);
      assert [fields[0]] == fields;
    } else {
      var tail := "," + (EncodeFields(fields[1..]) + t);
      FieldRoundTrip(fields[0], tail);
      FieldsRoundTrip(fields[1..], t);
      assert tail[1..] == EncodeFields(fields[1..]) + t;
      assert [fields[0]] + fields[1..] == fields;
    }
  }

  lemma FieldShape(f: Field, t: string)
    ensures EncodeField(f) + t == "\"" + (Escape(f.key) + "\"" + (":" + (Encode(f.value) + t)))
  {
    hide Escape, Encode;
  }

  lemma {:induction false} FieldRoundTrip(f: Field, t: string)
    requires Encodable(f.value) && Delimited(t)
    ensures DecodeField(EncodeField(f) + t) == Good(f, t)
    decreases f, 0
  {
    hide Encode, Decode, ReadString, Escape, Encodable, EncodeField;
    var tail := ":" + (Encode(f.value) + t);
    FieldShape(f, t);
    StringRoundTrip(f.key, tail);
    RoundTrip(f.value, t);
    assert (EncodeField(f) + t)[1..] == Escape(f.key) + "\"" + tail;
    assert tail[1..] == Encode(f.value) + t;
  }

  // ---------------------------------------------------------------- no raw line ends

  lemma {:induction false} EscapeHasNoNewline(s: string)
    ensures '\n' !in Escape(s)
  {
    if s != "" {
      EscapeHasNoNewline(s[1..]);
    }
  }

  /** An encoded value never contains a newline: it fits on one line. */
  lemma {:induction false} EncodeHasNoNewline(v: Value)
    requires Encodable(v)
    ensures '\n' !in Encode(v)
    decreases v, 0
  {
    match v
    case Text(s) => EscapeHasNoNewline(s);
    case Array(items) => ItemsHaveNoNewline(items);
    case Object(fields) => FieldsHaveNoNewline(fields);
    case _ =>
  }

  lemma {:induction false} ItemsHaveNoNewline(items: seq<Value>)
    requires forall x :: x in items ==> Encodable(x)
    ensures '\n' !in EncodeItems(items)
    decreases items, 0
  {
    if items != [] {
      EncodeHasNoNewline(items[0]);
      ItemsHaveNoNewline(items[1..]);
    }
  }

  lemma {:induction false} FieldsHaveNoNewline(fields: seq<Field>)
    requires forall f :: f in fields ==> Encodable(f.value)
    ensures '\n' !in EncodeFields(fields)
    decreases fields, 0
  {
    if fields != [] {
      EscapeHasNoNewline(fields[0].key);
      EncodeHasNoNewline(fields[0].value);
      FieldsHaveNoNewline(fields[1..]);
    }
  }
}
