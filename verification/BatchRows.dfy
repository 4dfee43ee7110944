/** The batch encoder: rows to newline-delimited JSON, one validated line at a time. */
module BatchRows {
  import opened Wrappers
  import opened Json

  /** A vertex or an edge. Properties are flattened beside the control keys. */
  datatype Row =
    | Vertex(cls: string, id: string, props: map<string, Value>)
    | Edge(cls: string, from: string, to: string, props: map<string, Value>)

  const CONTROL_KEYS: set<string> := {"@type", "@class", "@id", "@from", "@to"}

  /** Key and value texts, alternating, as the encoder lists them. */
  function Control(row: Row): seq<string> {
    match row
    case Vertex(cls, id, _) =>
      ["@type", "vertex", "@class", cls] + if id != "" then ["@id", id] else []
    case Edge(cls, from, to, _) => ["@type", "edge", "@class", cls, "@from", from, "@to", to]
  }

  function Pairs(texts: seq<string>): seq<Field>
    requires |texts| % 2 == 0
    decreases |texts|
  {
    if texts == [] then [] else [Field(texts[0], Text(texts[1]))] + Pairs(texts[2..])
  }

  // ---------------------------------------------------------------- key order

  predicate Before(a: string, b: string)
    decreases |a|
  {
    b != "" && (a == "" || a[0] < b[0] || (a[0] == b[0] && Before(a[1..], b[1..])))
  }

  lemma {:induction false} BeforeIsTotal(a: string, b: string)
    ensures a == b || Before(a, b) || Before(b, a)
    ensures !(Before(a, b) && Before(b, a)) && !Before(a, a)
    decreases |a|
  {
    if a != "" {
      BeforeIsTotal(a[1..], if b != "" then b[1..] else "");
      BeforeIsTotal(a[1..], a[1..]);
      if b != "" && a[0] == b[0] && a[1..] == b[1..] {
        assert a == [a[0]] + a[1..] == b;
      }
    }
  }

  lemma {:induction false} BeforeIsTransitive(a: string, b: string, c: string)
    requires Before(a, b) && Before(b, c)
    ensures Before(a, c)
    decreases |a|
  {
    if a != "" && a[0] == b[0] && b[0] == c[0] {
      BeforeIsTransitive(a[1..], b[1..], c[1..]);
    }
  }

  predicate Sorted(q: seq<string>) {
    forall i, j :: 0 <= i < j < |q| ==> Before(q[i], q[j])
  }

  /** `q` lists exactly the keys `s`, in order, each once. */
  ghost predicate Listing(q: seq<string>, s: set<string>) {
    Sorted(q) && (forall k :: k in q <==> k in s)
  }

  function Insert(k: string, q: seq<string>): seq<string> {
    if q == [] || Before(k, q[0]) then [k] + q else [q[0]] + Insert(k, q[1..])
  }

  /** slices.Sort. */
  function Sort(q: seq<string>): seq<string> {
    if q == [] then [] else Insert(q[0], Sort(q[1..]))
  }

  lemma {:induction false} InsertLists(k: string, q: seq<string>)
    requires Sorted(q) && k !in q
    ensures Sorted(Insert(k, q)) && forall x :: x in Insert(k, q) <==> x == k || x in q
  {
    hide Before;
    if q != [] {
      BeforeIsTotal(k, q[0]);
      if Before(k, q[0]) {
        forall j | 0 <= j < |q| ensures Before(k, q[j]) {
          if j > 0 {
            BeforeIsTransitive(k, q[0], q[j]);
          }
        }
      } else {
        InsertLists(k, q[1..]);
        forall x | x in Insert(k, q[1..]) ensures Before(q[0], x) {
          if x != k {
            var j :| 0 <= j < |q| - 1 && q[1..][j] == x;
            assert Before(q[0], q[j + 1]);
          }
        }
      }
    }
  }

  predicate Distinct(q: seq<string>) {
    forall i, j :: 0 <= i < j < |q| ==> q[i] != q[j]
  }

  lemma {:induction false} SortLists(q: seq<string>, s: set<string>)
    requires Distinct(q) && forall k :: k in q <==> k in s
    ensures Listing(Sort(q), s)
  {
    if q != [] {
      assert q[0] !in q[1..];
      SortLists(q[1..], s - {q[0]});
      InsertLists(q[0], Sort(q[1..]));
    }
  }

  /** There is only one listing, so the order the keys came in does not matter. */
  lemma {:induction false} ListingIsUnique(q: seq<string>, r: seq<string>, s: set<string>)
    requires Listing(q, s) && Listing(r, s)
    ensures q == r
    decreases |q|
  {
    hide Before;
    EmptyListing(q, s);
    EmptyListing(r, s);
    if q != [] {
      assert r[0] in s && q[0] in s;
      var i :| 0 <= i < |q| && q[i] == r[0];
      var j :| 0 <= j < |r| && r[j] == q[0];
      BeforeIsTotal(q[0], r[0]);
      assert q[0] == r[0];
      TailLists(q, s);
      TailLists(r, s);
      ListingIsUnique(q[1..], r[1..], s - {q[0]});
      assert q == [q[0]] + q[1..] && r == [r[0]] + r[1..];
    }
  }

  lemma EmptyListing(q: seq<string>, s: set<string>)
    requires Listing(q, s)
    ensures q == [] <==> s == {}
  {
    if q != [] {
      assert q[0] in s;
    }
  }

  lemma TailLists(q: seq<string>, s: set<string>)
    requires Listing(q, s) && q != []
    ensures Listing(q[1..], s - {q[0]})
  {
    hide Before;
    forall k ensures k in q[1..] <==> k in s - {q[0]} {
      if k in q[1..] {
        var j :| 0 <= j < |q| - 1 && q[1..][j] == k;
        assert Before(q[0], q[j + 1]);
        BeforeIsTotal(q[0], q[0]);
      }
    }
  }

  lemma {:induction false} ListingExists(s: set<string>)
    ensures exists q :: Listing(q, s)
    decreases |s|
  {
    if s == {} {
      assert Listing([], s);
    } else {
      var k :| k in s;
      ListingExists(s - {k});
      var q :| Listing(q, s - {k});
      InsertLists(k, q);
      assert Listing(Insert(k, q), s);
    }
  }

  ghost function KeyList(s: set<string>): (q: seq<string>)
    ensures Listing(q, s)
  {
    ListingExists(s);
    var q :| Listing(q, s);
    q
  }

  // ---------------------------------------------------------------- the text of a row

  function Props(keys: seq<string>, props: map<string, Value>): seq<Field>
    requires forall k :: k in keys ==> k in props
  {
    if keys == [] then [] else [Field(keys[0], props[keys[0]])] + Props(keys[1..], props)
  }

  /** A row that can be written: no property shadows a control key, every value encodes. */
  predicate Sound(row: Row) {
    row.props.Keys !! CONTROL_KEYS && forall k :: k in row.props ==> Encodable(row.props[k])
  }

  ghost function Fields(row: Row): seq<Field> {
    Pairs(Control(row)) + Props(KeyList(row.props.Keys), row.props)
  }

  ghost function RowText(row: Row): string {
    "{" + EncodeFields(Fields(row)) + "}"
  }

  ghost function Body(rows: seq<Row>): string {
    if rows == [] then "" else Body(rows[..|rows| - 1]) + RowText(rows[|rows| - 1]) + "\n"
  }

  // ---------------------------------------------------------------- the encoder

  /** An io.Writer: `fate(n)` says how many characters the n-th call lets through before it
      fails, or that it does not fail. */
  class Sink {
    var data: string
    var calls: nat
    const fate: nat -> Option<nat>

    constructor (fate: nat -> Option<nat>)
      ensures data == "" && calls == 0 && this.fate == fate
    {
      data, calls, this.fate := "", 0, fate;
    }

    method Write(s: string) returns (ok: bool)
      modifies this
      ensures ok ==> data == old(data) + s
      ensures !ok ==> old(data) <= data <= old(data) + s
      ensures ok <==> fate(old(calls)).None?
      ensures calls == old(calls) + 1
    {
      var f := fate(calls);
      calls := calls + 1;
      match f {
        case None =>
          data := data + s;
          return true;
        case Some(n) =>
          data := data + if n < |s| then s[..n] else s;
          return false;
      }
    }
  }

  datatype LineResult = Written | Shadowed(key: string) | Refused(key: string) | SinkFailed

  lemma {:induction false} EncodeFieldsAppend(fs: seq<Field>, f: Field)
    ensures EncodeFields(fs + [f]) == EncodeFields(fs) + (if fs == [] then "" else ",") + EncodeField(f)
    decreases |fs|
  {
    hide EncodeField;
    if fs != [] {
      EncodeFieldsAppend(fs[1..], f);
      assert (fs + [f])[1..] == fs[1..] + [f];
    }
  }

  lemma {:induction false} PairsPrefix(texts: seq<string>, i: nat)
    requires |texts| % 2 == 0 && i % 2 == 0 && i < |texts|
    ensures Pairs(texts[..i + 2]) == Pairs(texts[..i]) + [Field(texts[i], Text(texts[i + 1]))]
    ensures |Pairs(texts[..i])| == i / 2
    decreases i
  {
    if i > 0 {
      PairsPrefix(texts[2..], i - 2);
      assert texts[2..][..i] == texts[..i + 2][2..] && texts[2..][..i - 2] == texts[..i][2..];
    } else {
      assert texts[..2][2..] == [];
    }
  }

  lemma {:induction false} PropsPrefix(keys: seq<string>, props: map<string, Value>, i: nat)
    requires i < |keys| && forall k :: k in keys ==> k in props
    ensures Props(keys[..i + 1], props) == Props(keys[..i], props) + [Field(keys[i], props[keys[i]])]
    decreases i
  {
    if i > 0 {
      PropsPrefix(keys[1..], props, i - 1);
      assert keys[1..][..i] == keys[..i + 1][1..] && keys[1..][..i - 1] == keys[..i][1..];
    } else {
      assert keys[..1][1..] == [];
    }
  }

  class Encoder {
    const sink: Sink
    var buf: string

    constructor (sink: Sink)
      ensures this.sink == sink
    {
      this.sink, buf := sink, "";
    }

    /** Appends the value's JSON; json.Encoder ends it with a newline, which is cut off again. */
    method AddValue(v: Value) returns (ok: bool)
      modifies this
      ensures ok <==> Encodable(v)
      ensures buf == if ok then old(buf) + Encode(v) else old(buf)
    {
      ok := Encodable(v);
      if ok {
        buf := buf + Encode(v) + "\n";
        buf := buf[..|buf| - 1];
      }
    }

    method AddField(key: string, v: Value) returns (ok: bool)
      modifies this
      ensures ok <==> Encodable(v)
      ensures ok ==> buf == old(buf) + EncodeField(Field(key, v))
    {
      hide Encode, EncodeField, Encodable;
      TextEncodes(key);
      FieldEncodes(Field(key, v));
      var _ := AddValue(Text(key));
      buf := buf + ":";
      ok := AddValue(v);
    }

    /** The control keys, after the opening brace. */
    method AddControl(control: seq<string>)
      requires |control| % 2 == 0
      modifies this
      ensures buf == old(buf) + EncodeFields(Pairs(control))
    {
      hide EncodeFields, EncodeField, Encodable;
      ghost var start := buf;
      AddNothing();
      var i := 0;
      while i < |control|
        invariant 0 <= i <= |control| && i % 2 == 0
        invariant buf == start + EncodeFields(Pairs(control[..i]))
      {
        PairsPrefix(control, i);
        EncodeFieldsAppend(Pairs(control[..i]), Field(control[i], Text(control[i + 1])));
        if i > 0 {
          buf := buf + ",";
        }
        TextEncodes(control[i + 1]);
        var _ := AddField(control[i], Text(control[i + 1]));
        i := i + 2;
      }
      assert control[..|control|] == control;
    }

    /** The properties, each after a comma, until one does not encode. */
    method AddProps(ghost start: string, ghost fixed: seq<Field>, keys: seq<string>, props: map<string, Value>)
      returns (bad: Option<string>)
      requires fixed != [] && forall k :: k in keys ==> k in props
      requires buf == start + EncodeFields(fixed)
      modifies this
      ensures match bad
              case None =>
                buf == start + EncodeFields(fixed + Props(keys, props)) && forall k :: k in keys ==> Encodable(props[k])
              case Some(k) => k in keys && !Encodable(props[k])
    {
      hide EncodeFields, EncodeField, Encodable;
      assert fixed + Props(keys[..0], props) == fixed;
      for j := 0 to |keys|
        invariant buf == start + EncodeFields(fixed + Props(keys[..j], props))
        invariant forall k :: k in keys[..j] ==> Encodable(props[k])
      {
        var k := keys[j];
        ghost var done := fixed + Props(keys[..j], props);
        PropsPrefix(keys, props, j);
        EncodeFieldsAppend(done, Field(k, props[k]));
        assert done + [Field(k, props[k])] == fixed + Props(keys[..j + 1], props);
        buf := buf + ",";
        var ok := AddField(k, props[k]);
        if !ok {
          return Some(k);
        }
      }
      assert keys[..|keys|] == keys;
      return None;
    }

    /** Every exit before the one Write leaves the sink alone, so a refused row contributes nothing;
        and what is written does not depend on `order`, in which ranging over the property map
        delivers its keys, because their sorted listing is unique. */
    method Line(row: Row, order: seq<string>) returns (r: LineResult)
      requires Distinct(order) && forall k :: k in order <==> k in row.props
      modifies this, sink
      ensures match r
              case Written => Sound(row) && sink.data == old(sink.data) + RowText(row) + "\n"
              case SinkFailed => Sound(row) && old(sink.data) <= sink.data <= old(sink.data) + RowText(row) + "\n"
              case Shadowed(key) => key in row.props && key in CONTROL_KEYS && sink.data == old(sink.data)
              case Refused(key) =>
                key in row.props && !Encodable(row.props[key]) && row.props.Keys !! CONTROL_KEYS
                && sink.data == old(sink.data)
    {
      hide Listing, EncodeFields, Encodable, Pairs;
      for i := 0 to |order|
        invariant forall k :: k in order[..i] ==> k !in CONTROL_KEYS
      {
        if order[i] in CONTROL_KEYS {
          return Shadowed(order[i]);
        }
      }
      assert order[..|order|] == order;
      var keys := Sort(order);
      SortedKeys(order, row.props.Keys);
      buf := "{";
      AddControl(Control(row));
      ControlIsSome(row);
      var bad := AddProps("{", Pairs(Control(row)), keys, row.props);
      if bad.Some? {
        return Refused(bad.value);
      }
      buf := buf + "}\n";
      assert buf == RowText(row) + "\n";
      var ok := sink.Write(buf);
      assert old(sink.data) + (RowText(row) + "\n") == old(sink.data) + RowText(row) + "\n";
      r := if ok then Written else SinkFailed;
    }
  }

  /** Sorting gives the one listing of the keys, in whatever order they came. */
  lemma SortedKeys(order: seq<string>, s: set<string>)
    requires Distinct(order) && forall k :: k in order <==> k in s
    ensures Sort(order) == KeyList(s) && forall k :: k in Sort(order) <==> k in s
  {
    SortLists(order, s);
    ListingIsUnique(Sort(order), KeyList(s), s);
  }

  lemma ControlIsSome(row: Row)
    ensures Pairs(Control(row)) != []
  {
  }

  lemma AddNothing()
    ensures EncodeFields(Pairs([])) == ""
  {
  }

  lemma FieldEncodes(f: Field)
    ensures EncodeField(f) == Encode(Text(f.key)) + ":" + Encode(f.value)
  {
  }

  lemma TextEncodes(s: string)
    ensures Encodable(Text(s))
  {
  }

  // ---------------------------------------------------------------- Write

  datatype WriteResult =
    | Complete
    | BadRow(kind: string, index: nat, cause: LineResult)
    | WriterFailed

  /** The orders in which ranging over each row's properties delivers their keys. */
  predicate Orders(orders: seq<seq<string>>, rows: seq<Row>) {
    |orders| == |rows|
    && forall i :: 0 <= i < |rows| ==>
         Distinct(orders[i]) && (forall k :: k in orders[i] ==> k in rows[i].props)
         && forall k :: k in rows[i].props ==> k in orders[i]
  }

  predicate AllSound(rows: seq<Row>) {
    forall row :: row in rows ==> Sound(row)
  }

  lemma BodyStep(rows: seq<Row>, n: nat)
    requires n < |rows|
    ensures Body(rows[..n + 1]) == Body(rows[..n]) + RowText(rows[n]) + "\n"
    ensures AllSound(rows[..n]) && Sound(rows[n]) ==> AllSound(rows[..n + 1])
  {
    hide RowText, Sound;
    assert rows[..n + 1][..n] == rows[..n];
  }

  /** The key a refusal names is one of the row's, and is at fault. */
  predicate AtFault(row: Row, cause: LineResult) {
    match cause
    case Shadowed(key) => key in row.props && key in CONTROL_KEYS
    case Refused(key) => key in row.props && !Encodable(row.props[key]) && row.props.Keys !! CONTROL_KEYS
    case _ => false
  }

  /** What Write leaves behind when it stops at row n of all rows. */
  ghost predicate Stopped(r: WriteResult, rows: seq<Row>, n: nat, before: string, after: string) {
    && n <= |rows| && AllSound(rows[..n])
    && match r
       case Complete => n == |rows| && after == before + Body(rows)
       case BadRow(_, _, cause) => n < |rows| && AtFault(rows[n], cause) && after == before + Body(rows[..n])
       case WriterFailed =>
         n < |rows| && Sound(rows[n])
         && before + Body(rows[..n]) <= after <= before + Body(rows[..n + 1])
  }

  /** One sequence of rows, from row `first` on: the body of either loop of Write. */
  method WriteRows(e: Encoder, kind: string, rows: seq<Row>, first: nat, last: nat, orders: seq<seq<string>>,
                   ghost before: string)
    returns (r: WriteResult, n: nat)
    requires first <= last <= |rows| && Orders(orders, rows) && AllSound(rows[..first])
    requires e.sink.data == before + Body(rows[..first])
    modifies e, e.sink
    ensures n <= |rows| && AllSound(rows[..n])
    ensures r.Complete? ==> n == last && e.sink.data == before + Body(rows[..last])
    ensures !r.Complete? ==> first <= n < last && Stopped(r, rows, n, before, e.sink.data)
    ensures r.BadRow? ==> r.kind == kind && r.index == n - first
  {
    hide Body, RowText, Sound, Distinct;
    n := first;
    while n < last
      invariant first <= n <= last && AllSound(rows[..n])
      invariant e.sink.data == before + Body(rows[..n])
    {
      BodyStep(rows, n);
      var i := n - first;
      var line := e.Line(rows[first + i], orders[first + i]);
      match line {
        case Written =>
          assert before + Body(rows[..n]) + RowText(rows[n]) + "\n"
              == before + (Body(rows[..n]) + RowText(rows[n]) + "\n");
        case SinkFailed =>
          assert before + Body(rows[..n]) + RowText(rows[n]) + "\n"
              == before + (Body(rows[..n]) + RowText(rows[n]) + "\n");
          return WriterFailed, n;
        case _ =>
          return BadRow(kind, i, line), n;
      }
      n := n + 1;
    }
    r := Complete;
  }

  /** A row at fault is not sound, so a row is refused only when it should be. */
  lemma FaultIsUnsound(row: Row, cause: LineResult)
    requires AtFault(row, cause)
    ensures !Sound(row)
  {
  }

  /** Every vertex, then every edge. The first row that is not sound, or the first failure of the
      writer, ends it; a bad row contributes nothing and is named by its kind and its index. */
  method Write(sink: Sink, vertices: seq<Row>, edges: seq<Row>, orders: seq<seq<string>>)
    returns (r: WriteResult, n: nat)
    requires Orders(orders, vertices + edges)
    modifies sink
    ensures Stopped(r, vertices + edges, n, old(sink.data), sink.data)
    ensures r.BadRow? ==> !Sound((vertices + edges)[n])
    ensures r.BadRow? ==> r.kind in {"vertex", "edge"}
                          && n == (if r.kind == "vertex" then r.index else |vertices| + r.index)
                          && (r.kind == "vertex" <==> n < |vertices|)
  {
    var rows := vertices + edges;
    var e := new Encoder(sink);
    assert Body(rows[..0]) == "";
    assert sink.data + "" == sink.data;
    r, n := WriteRows(e, "vertex", rows, 0, |vertices|, orders, sink.data);
    if r.Complete? {
      r, n := WriteRows(e, "edge", rows, |vertices|, |rows|, orders, old(sink.data));
    }
    if r.BadRow? {
      FaultIsUnsound(rows[n], r.cause);
    }
    assert rows[..|rows|] == rows;
  }

  // ---------------------------------------------------------------- reading a row back

  function Lookup(fields: seq<Field>, key: string): Option<Value> {
    if fields == [] then None
    else if fields[0].key == key then Some(fields[0].value)
    else Lookup(fields[1..], key)
  }

  function TextAt(fields: seq<Field>, key: string): string {
    match Lookup(fields, key)
    case Some(Text(s)) => s
    case _ => ""
  }

  function PropsOf(fields: seq<Field>): map<string, Value> {
    if fields == [] then map[]
    else if fields[0].key in CONTROL_KEYS then PropsOf(fields[1..])
    else PropsOf(fields[1..])[fields[0].key := fields[0].value]
  }

  /** The row a JSON object stands for: control keys aside, everything is a property. */
  function RowOf(fields: seq<Field>): Option<Row> {
    var t := TextAt(fields, "@type");
    var cls := TextAt(fields, "@class");
    if t == "vertex" then Some(Vertex(cls, TextAt(fields, "@id"), PropsOf(fields)))
    else if t == "edge" then Some(Edge(cls, TextAt(fields, "@from"), TextAt(fields, "@to"), PropsOf(fields)))
    else None
  }

  lemma {:induction false} PropsTell(keys: seq<string>, props: map<string, Value>)
    requires Sorted(keys) && (forall k :: k in keys ==> k in props && k !in CONTROL_KEYS)
    ensures var m := PropsOf(Props(keys, props));
            (forall k :: k in m <==> k in keys) && forall k :: k in keys ==> m[k] == props[k]
  {
    hide Before;
    if keys != [] {
      PropsTell(keys[1..], props);
    }
  }

  lemma {:induction false} PropsList(keys: seq<string>, props: map<string, Value>)
    requires forall k :: k in keys ==> k in props
    ensures |Props(keys, props)| == |keys|
    ensures forall i :: 0 <= i < |keys| ==> Props(keys, props)[i] == Field(keys[i], props[keys[i]])
  {
    if keys != [] {
      PropsList(keys[1..], props);
    }
  }

  function Cons(key: string, text: string, rest: seq<Field>): seq<Field> {
    [Field(key, Text(text))] + rest
  }

  lemma ConsTells(key: string, text: string, rest: seq<Field>)
    ensures forall other :: TextAt(Cons(key, text, rest), other) == if key == other then text else TextAt(rest, other)
    ensures key in CONTROL_KEYS ==> PropsOf(Cons(key, text, rest)) == PropsOf(rest)
  {
    assert Cons(key, text, rest)[1..] == rest;
  }

  lemma {:induction false} PairsCons(key: string, text: string, more: seq<string>, rest: seq<Field>)
    requires |more| % 2 == 0
    ensures Pairs([key, text] + more) + rest == Cons(key, text, Pairs(more) + rest)
  {
    assert ([key, text] + more)[2..] == more;
  }

  lemma ControlShape(row: Row, rest: seq<Field>)
    ensures Pairs(Control(row)) + rest
            == match row
               case Vertex(cls, id, _) =>
                 Cons("@type", "vertex", Cons("@class", cls, if id != "" then Cons("@id", id, rest) else rest))
               case Edge(cls, from, to, _) =>
                 Cons("@type", "edge", Cons("@class", cls, Cons("@from", from, Cons("@to", to, rest))))
  {
    assert Pairs([]) + rest == rest;
    hide Pairs, Cons;
    match row
    case Vertex(cls, id, _) =>
      var last := if id != "" then ["@id", id] else [];
      PairsCons("@id", id, [], rest);
      PairsCons("@class", cls, last, rest);
      PairsCons("@type", "vertex", ["@class", cls] + last, rest);
      assert ["@id", id] + [] == ["@id", id];
      assert Control(row) == ["@type", "vertex"] + (["@class", cls] + last);
    case Edge(cls, from, to, _) =>
      PairsCons("@to", to, [], rest);
      PairsCons("@from", from, ["@to", to], rest);
      PairsCons("@class", cls, ["@from", from] + ["@to", to], rest);
      PairsCons("@type", "edge", ["@class", cls] + (["@from", from] + ["@to", to]), rest);
      assert ["@to", to] + [] == ["@to", to];
      assert Control(row) == ["@type", "edge"] + (["@class", cls] + (["@from", from] + ["@to", to]));
  }

  lemma KeysDiffer()
    ensures "@type" != "@class" && "@type" != "@id" && "@type" != "@from" && "@type" != "@to"
    ensures "@class" != "@id" && "@class" != "@from" && "@class" != "@to"
    ensures "@id" != "@from" && "@id" != "@to" && "@from" != "@to"
  {
    assert "@type"[1] != "@from"[1] && "@id"[1] != "@to"[1];
  }

  /** What comes after the control fields of a row cannot hide them. */
  lemma ControlTells(row: Row, rest: seq<Field>)
    ensures var fields := Pairs(Control(row)) + rest;
            && TextAt(fields, "@type") == (if row.Vertex? then "vertex" else "edge")
            && TextAt(fields, "@class") == row.cls
            && (row.Edge? ==> TextAt(fields, "@from") == row.from && TextAt(fields, "@to") == row.to)
            && (row.Vertex? ==> TextAt(fields, "@id") == if row.id != "" then row.id else TextAt(rest, "@id"))
            && PropsOf(fields) == PropsOf(rest)
  {
    ControlShape(row, rest);
    KeysDiffer();
    hide Pairs, Control, TextAt, PropsOf, Cons;
    match row
    case Vertex(cls, id, _) =>
      ConsTells("@id", id, rest);
      var r := if id != "" then Cons("@id", id, rest) else rest;
      ConsTells("@class", cls, r);
      ConsTells("@type", "vertex", Cons("@class", cls, r));
    case Edge(cls, from, to, _) =>
      ConsTells("@to", to, rest);
      var r := Cons("@to", to, rest);
      ConsTells("@from", from, r);
      ConsTells("@class", cls, Cons("@from", from, r));
      ConsTells("@type", "edge", Cons("@class", cls, Cons("@from", from, r)));
  }

  /** A property is never taken for a control key. */
  lemma {:induction false} NoControlKey(fields: seq<Field>, key: string)
    requires forall f :: f in fields ==> f.key != key
    ensures TextAt(fields, key) == ""
  {
    if fields != [] {
      NoControlKey(fields[1..], key);
    }
  }

  predicate DistinctKeys(fields: seq<Field>) {
    forall i, j :: 0 <= i < j < |fields| ==> fields[i].key != fields[j].key
  }

  /** A written row is one line of JSON with no key twice, and it reads back as the row. */
  lemma RowRoundTrip(row: Row)
    requires Sound(row)
    ensures Decode(RowText(row)) == Good(Object(Fields(row)), "")
    ensures RowOf(Fields(row)) == Some(row)
    ensures '\n' !in RowText(row)
  {
    var keys := KeyList(row.props.Keys);
    var rest := Props(keys, row.props);
    PropsTell(keys, row.props);
    PropKeys(row);
    ControlTells(row, rest);
    NoControlKey(rest, "@id");
    assert PropsOf(rest) == row.props;
    FieldsEncode(row);
    RoundTrip(Object(Fields(row)), "");
    EncodeHasNoNewline(Object(Fields(row)));
    assert Encode(Object(Fields(row))) == RowText(row);
    hide Encode, Decode, Pairs, Props, Encodable;
    assert RowText(row) + "" == RowText(row);
  }

  lemma FieldsEncode(row: Row)
    requires Sound(row)
    ensures Encodable(Object(Fields(row)))
  {
    var rest := Props(KeyList(row.props.Keys), row.props);
    PropsList(KeyList(row.props.Keys), row.props);
    PairsEncode(Control(row));
    forall f | f in Fields(row) ensures Encodable(f.value) {
      assert f in Pairs(Control(row)) || f in rest;
    }
  }

  lemma {:induction false} PairsEncode(texts: seq<string>)
    requires |texts| % 2 == 0
    ensures forall f :: f in Pairs(texts) ==> Encodable(f.value) && f.value.Text?
    decreases |texts|
  {
    if texts != [] {
      PairsEncode(texts[2..]);
    }
  }

  function KeysIn(fields: seq<Field>): set<string> {
    set f | f in fields :: f.key
  }

  lemma ConsDistinct(key: string, text: string, rest: seq<Field>)
    requires DistinctKeys(rest) && key !in KeysIn(rest)
    ensures DistinctKeys(Cons(key, text, rest)) && KeysIn(Cons(key, text, rest)) == {key} + KeysIn(rest)
  {
    var fields := Cons(key, text, rest);
    assert fields[0].key == key;
    forall f | f in rest ensures f in fields && f.key in KeysIn(rest) {
    }
  }

  lemma PropKeys(row: Row)
    ensures var rest := Props(KeyList(row.props.Keys), row.props);
            DistinctKeys(rest) && forall f :: f in rest ==> f.key in row.props
  {
    var keys := KeyList(row.props.Keys);
    PropsList(keys, row.props);
    forall i, j | 0 <= i < j < |keys| ensures keys[i] != keys[j] {
      BeforeIsTotal(keys[i], keys[j]);
    }
    hide Before, Props;
  }

  /** No key occurs twice in a written row. */
  lemma RowKeysAreDistinct(row: Row)
    requires Sound(row)
    ensures DistinctKeys(Fields(row))
  {
    var rest := Props(KeyList(row.props.Keys), row.props);
    PropKeys(row);
    assert KeysIn(rest) !! CONTROL_KEYS;
    ControlShape(row, rest);
    KeysDiffer();
    hide Props, Before, Encodable, Pairs, DistinctKeys, KeysIn, Cons;
    match row
    case Vertex(cls, id, _) =>
      var r := if id != "" then Cons("@id", id, rest) else rest;
      if id != "" {
        ConsDistinct("@id", id, rest);
      }
      ConsDistinct("@class", cls, r);
      ConsDistinct("@type", "vertex", Cons("@class", cls, r));
    case Edge(cls, from, to, _) =>
      var r := Cons("@from", from, Cons("@to", to, rest));
      ConsDistinct("@to", to, rest);
      ConsDistinct("@from", from, Cons("@to", to, rest));
      ConsDistinct("@class", cls, r);
      ConsDistinct("@type", "edge", Cons("@class", cls, r));
  }
}
