/** Where the language the code accepts and the grammar its doc comment gives part ways. */
module SpdxDivergence {
  import opened SpdxTokens
  import opened SpdxGrammar

  /** The grammar of the parser's doc comment: WITH takes two atoms. */
  datatype DocExpr = DocExpr(first: DocAnd, rest: DocOrRest)
  datatype DocOrRest = DocNoOr | DocOrMore(op: string, operand: DocAnd, more: DocOrRest)
  datatype DocAnd = DocAnd(first: DocWith, rest: DocAndRest)
  datatype DocAndRest = DocNoAnd | DocAndMore(op: string, operand: DocWith, more: DocAndRest)
  datatype DocWith = DocPlain(atom: DocAtom) | DocPair(left: DocAtom, op: string, right: DocAtom)
  datatype DocAtom = DocName(id: string) | DocGroup(inner: DocExpr)

  function DocYield(e: DocExpr): seq<string> {
    DocYieldAnd(e.first) + DocYieldOrRest(e.rest)
  }

  function DocYieldOrRest(r: DocOrRest): seq<string> {
    if r.DocNoOr? then [] else [r.op] + DocYieldAnd(r.operand) + DocYieldOrRest(r.more)
  }

  function DocYieldAnd(a: DocAnd): seq<string> {
    DocYieldWith(a.first) + DocYieldAndRest(a.rest)
  }

  function DocYieldAndRest(r: DocAndRest): seq<string> {
    if r.DocNoAnd? then [] else [r.op] + DocYieldWith(r.operand) + DocYieldAndRest(r.more)
  }

  function DocYieldWith(w: DocWith): seq<string> {
    match w
    case DocPlain(a) => DocYieldAtom(a)
    case DocPair(l, op, r) => DocYieldAtom(l) + [op] + DocYieldAtom(r)
  }

  function DocYieldAtom(a: DocAtom): (ts: seq<string>)
    ensures ts != []
  {
    if a.DocName? then [a.id] else ["("] + DocYield(a.inner) + [")"]
  }

  predicate DocLegal(e: DocExpr) {
    DocLegalAnd(e.first) && DocLegalOrRest(e.rest)
  }

  predicate DocLegalOrRest(r: DocOrRest) {
    r.DocOrMore? ==> IsOp(r.op, "OR") && DocLegalAnd(r.operand) && DocLegalOrRest(r.more)
  }

  predicate DocLegalAnd(a: DocAnd) {
    DocLegalWith(a.first) && DocLegalAndRest(a.rest)
  }

  predicate DocLegalAndRest(r: DocAndRest) {
    r.DocAndMore? ==> IsOp(r.op, "AND") && DocLegalWith(r.operand) && DocLegalAndRest(r.more)
  }

  predicate DocLegalWith(w: DocWith) {
    match w
    case DocPlain(a) => DocLegalAtom(a)
    case DocPair(l, op, r) => DocLegalAtom(l) && IsOp(op, "WITH") && DocLegalAtom(r)
  }

  predicate DocLegalAtom(a: DocAtom) {
    if a.DocName? then IsName(a.id) else DocLegal(a.inner)
  }

  // ---------------------------------------------------------------- the two conditions

  /** No operand of a WITH is parenthesised. */
  predicate Plain(e: DocExpr) {
    PlainAnd(e.first) && PlainOrRest(e.rest)
  }

  predicate PlainOrRest(r: DocOrRest) {
    r.DocOrMore? ==> PlainAnd(r.operand) && PlainOrRest(r.more)
  }

  predicate PlainAnd(a: DocAnd) {
    PlainWith(a.first) && PlainAndRest(a.rest)
  }

  predicate PlainAndRest(r: DocAndRest) {
    r.DocAndMore? ==> PlainWith(r.operand) && PlainAndRest(r.more)
  }

  predicate PlainWith(w: DocWith) {
    match w
    case DocPlain(a) => a.DocGroup? ==> Plain(a.inner)
    case DocPair(l, _, r) => l.DocName? && r.DocName?
  }

  /** Every token after a WITH names something. */
  predicate Sober(e: Expr) {
    SoberAnd(e.first) && SoberOrRest(e.rest)
  }

  predicate SoberOrRest(r: OrRest) {
    r.OrMore? ==> SoberAnd(r.operand) && SoberOrRest(r.more)
  }

  predicate SoberAnd(a: AndExpr) {
    SoberWith(a.first) && SoberAndRest(a.rest)
  }

  predicate SoberAndRest(r: AndRest) {
    r.AndMore? ==> SoberWith(r.operand) && SoberAndRest(r.more)
  }

  predicate SoberWith(w: WithExpr) {
    match w
    case Name(_) => true
    case NameWith(_, _, exc) => IsName(exc)
    case Group(inner) => Sober(inner)
  }

  // ---------------------------------------------------------------- translations

  function ToCode(e: DocExpr): (c: Expr)
    requires Plain(e)
    ensures Yield(c) == DocYield(e)
    ensures DocLegal(e) ==> Legal(c) && Sober(c)
  {
    Expr(ToCodeAnd(e.first), ToCodeOrRest(e.rest))
  }

  function ToCodeOrRest(r: DocOrRest): (c: OrRest)
    requires PlainOrRest(r)
    ensures YieldOrRest(c) == DocYieldOrRest(r)
    ensures DocLegalOrRest(r) ==> LegalOrRest(c) && SoberOrRest(c)
  {
    if r.DocNoOr? then NoOr else OrMore(r.op, ToCodeAnd(r.operand), ToCodeOrRest(r.more))
  }

  function ToCodeAnd(a: DocAnd): (c: AndExpr)
    requires PlainAnd(a)
    ensures YieldAnd(c) == DocYieldAnd(a)
    ensures DocLegalAnd(a) ==> LegalAnd(c) && SoberAnd(c)
  {
    AndExpr(ToCodeWith(a.first), ToCodeAndRest(a.rest))
  }

  function ToCodeAndRest(r: DocAndRest): (c: AndRest)
    requires PlainAndRest(r)
    ensures YieldAndRest(c) == DocYieldAndRest(r)
    ensures DocLegalAndRest(r) ==> LegalAndRest(c) && SoberAndRest(c)
  {
    if r.DocNoAnd? then NoAnd else AndMore(r.op, ToCodeWith(r.operand), ToCodeAndRest(r.more))
  }

  function ToCodeWith(w: DocWith): (c: WithExpr)
    requires PlainWith(w)
    ensures YieldWith(c) == DocYieldWith(w)
    ensures DocLegalWith(w) ==> LegalWith(c) && SoberWith(c)
  {
    match w
    case DocPlain(a) =>
      assert DocYieldWith(w) == DocYieldAtom(a);
      assert DocLegalWith(w) ==> DocLegalAtom(a);
      if a.DocName? then Name(a.id) else Group(ToCode(a.inner))
    case DocPair(l, op, r) =>
      assert DocYieldWith(w) == DocYieldAtom(l) + [op] + DocYieldAtom(r);
      assert DocLegalWith(w) ==> DocLegalAtom(l) && DocLegalAtom(r);
      NameWith(l.id, op, r.id)
  }

  function ToDoc(e: Expr): (d: DocExpr)
    ensures DocYield(d) == Yield(e)
    ensures Legal(e) && Sober(e) ==> DocLegal(d)
  {
    DocExpr(ToDocAnd(e.first), ToDocOrRest(e.rest))
  }

  function ToDocOrRest(r: OrRest): (d: DocOrRest)
    ensures DocYieldOrRest(d) == YieldOrRest(r)
    ensures LegalOrRest(r) && SoberOrRest(r) ==> DocLegalOrRest(d)
  {
    if r.NoOr? then DocNoOr else DocOrMore(r.op, ToDocAnd(r.operand), ToDocOrRest(r.more))
  }

  function ToDocAnd(a: AndExpr): (d: DocAnd)
    ensures DocYieldAnd(d) == YieldAnd(a)
    ensures LegalAnd(a) && SoberAnd(a) ==> DocLegalAnd(d)
  {
    DocAnd(ToDocWith(a.first), ToDocAndRest(a.rest))
  }

  function ToDocAndRest(r: AndRest): (d: DocAndRest)
    ensures DocYieldAndRest(d) == YieldAndRest(r)
    ensures LegalAndRest(r) && SoberAndRest(r) ==> DocLegalAndRest(d)
  {
    if r.NoAnd? then DocNoAnd else DocAndMore(r.op, ToDocWith(r.operand), ToDocAndRest(r.more))
  }

  function ToDocWith(w: WithExpr): (d: DocWith)
    ensures DocYieldWith(d) == YieldWith(w)
    ensures LegalWith(w) && SoberWith(w) ==> DocLegalWith(d)
  {
    match w
    case Name(id) => DocPlain(DocName(id))
    case NameWith(id, op, exc) => DocPair(DocName(id), op, DocName(exc))
    case Group(e) => DocPlain(DocGroup(ToDoc(e)))
  }

  // ---------------------------------------------------------------- parenthesised operands are refused

  /** A token no rule can go on from: the whole parse fails once it is reached. */
  predicate Stuck(ts: seq<string>) {
    ts != [] && ts[0] != ")" && !IsOp(ts[0], "AND") && !IsOp(ts[0], "OR")
  }

  predicate Refused<T>(p: Parse<T>) {
    p.Fail? || Stuck(p.rest)
  }

  lemma FirstToken(e: DocExpr)
    requires DocLegal(e)
    ensures DocYield(e) != [] && Stuck(DocYield(e))
    decreases e
  {
    hide Upper;
    var w := e.first.first;
    var a := if w.DocPlain? then w.atom else w.left;
    assert DocLegalAnd(e.first) && DocLegalWith(w) && DocLegalAtom(a);
    assert DocYield(e) == DocYieldAnd(e.first) + DocYieldOrRest(e.rest);
    assert DocYieldAnd(e.first) == DocYieldWith(w) + DocYieldAndRest(e.first.rest);
    assert DocYieldWith(w)[0] == DocYieldAtom(a)[0];
  }

  lemma {:induction false} BadExpr(e: DocExpr, r: seq<string>)
    requires DocLegal(e) && !Plain(e) && Ends(r)
    ensures Refused(ParseExpr(DocYield(e) + r))
    decreases e, 0
  {
    hide Upper, DocLegalAnd, DocLegalOrRest, PlainAnd, PlainOrRest, DocYieldAnd, DocYieldOrRest, ParseAnd;
    var tail := DocYieldOrRest(e.rest) + r;
    assert DocYield(e) + r == DocYieldAnd(e.first) + tail;
    DocOrRestStarts(e.rest, r);
    if PlainAnd(e.first) {
      ParseAndComplete(ToCodeAnd(e.first), tail);
      BadOrRest(e.rest, r);
    } else {
      BadAnd(e.first, tail);
    }
  }

  lemma DocOrRestStarts(o: DocOrRest, r: seq<string>)
    requires DocLegalOrRest(o) && Ends(r)
    ensures var ts := DocYieldOrRest(o) + r;
            !StartsWith(ts, "AND") && !StartsWith(ts, "WITH") && (StartsWith(ts, "OR") <==> o.DocOrMore?)
  {
    hide Upper, DocLegalAnd, DocYieldAnd;
  }

  lemma DocAndRestStarts(a: DocAndRest, r: seq<string>)
    requires DocLegalAndRest(a) && !StartsWith(r, "AND") && !StartsWith(r, "WITH")
    ensures var ts := DocYieldAndRest(a) + r; !StartsWith(ts, "WITH") && (StartsWith(ts, "AND") <==> a.DocAndMore?)
  {
    hide Upper, DocLegalWith, DocYieldWith;
  }

  lemma {:induction false} BadOrRest(o: DocOrRest, r: seq<string>)
    requires DocLegalOrRest(o) && !PlainOrRest(o) && Ends(r)
    ensures Refused(ParseOrRest(DocYieldOrRest(o) + r))
    decreases o, 0
  {
    hide Upper, DocLegalAnd, PlainAnd, DocYieldAnd, ParseAnd;
    var tail := DocYieldOrRest(o.more) + r;
    DocOrRestStarts(o, r);
    DocOrRestStarts(o.more, r);
    assert (DocYieldOrRest(o) + r)[1..] == DocYieldAnd(o.operand) + tail;
    if PlainAnd(o.operand) {
      ParseAndComplete(ToCodeAnd(o.operand), tail);
      BadOrRest(o.more, r);
    } else {
      BadAnd(o.operand, tail);
    }
  }

  lemma {:induction false} BadAnd(a: DocAnd, r: seq<string>)
    requires DocLegalAnd(a) && !PlainAnd(a) && !StartsWith(r, "AND") && !StartsWith(r, "WITH")
    ensures Refused(ParseAnd(DocYieldAnd(a) + r))
    decreases a, 0
  {
    hide Upper, DocLegalWith, DocLegalAndRest, PlainWith, PlainAndRest, DocYieldWith, DocYieldAndRest, ParseWith;
    var tail := DocYieldAndRest(a.rest) + r;
    assert DocYieldAnd(a) + r == DocYieldWith(a.first) + tail;
    DocAndRestStarts(a.rest, r);
    if PlainWith(a.first) {
      ParseWithComplete(ToCodeWith(a.first), tail);
      BadAndRest(a.rest, r);
    } else {
      BadWith(a.first, tail);
    }
  }

  lemma {:induction false} BadAndRest(a: DocAndRest, r: seq<string>)
    requires DocLegalAndRest(a) && !PlainAndRest(a) && !StartsWith(r, "AND") && !StartsWith(r, "WITH")
    ensures Refused(ParseAndRest(DocYieldAndRest(a) + r))
    decreases a, 0
  {
    hide Upper, DocLegalWith, PlainWith, DocYieldWith, ParseWith;
    var tail := DocYieldAndRest(a.more) + r;
    DocAndRestStarts(a, r);
    DocAndRestStarts(a.more, r);
    assert (DocYieldAndRest(a) + r)[1..] == DocYieldWith(a.operand) + tail;
    if PlainWith(a.operand) {
      ParseWithComplete(ToCodeWith(a.operand), tail);
      BadAndRest(a.more, r);
    } else {
      BadWith(a.operand, tail);
    }
  }

  lemma {:induction false} BadWith(w: DocWith, r: seq<string>)
    requires DocLegalWith(w) && !PlainWith(w) && !StartsWith(r, "WITH")
    ensures Refused(ParseWith(DocYieldWith(w) + r))
    decreases w, 1
  {
    hide Upper, DocLegal, DocYield, Plain, ParseExpr;
    var ts := DocYieldWith(w) + r;
    match w
    case DocPlain(a) =>
      assert DocYieldWith(w) == DocYieldAtom(a);
      assert ts[1..] == DocYield(a.inner) + [")"] + r;
      GroupedBad(a.inner, ts[1..], r);
    case DocPair(_, _, _) => BadPair(w, r);
  }

  lemma {:induction false} BadPair(w: DocWith, r: seq<string>)
    requires w.DocPair? && DocLegalWith(w) && !PlainWith(w)
    ensures Refused(ParseWith(DocYieldWith(w) + r))
    decreases w, 0
  {
    hide Upper, DocLegal, DocYield, Plain, ParseExpr;
    var ts := DocYieldWith(w) + r;
    var DocPair(l, op, right) := w;
    assert DocYieldWith(w) == DocYieldAtom(l) + [op] + DocYieldAtom(right);
    if l.DocGroup? {
      var after := [op] + DocYieldAtom(right) + r;
      assert ts[1..] == DocYield(l.inner) + [")"] + after;
      GroupedBad(l.inner, ts[1..], after);
      assert ([")"] + after)[1..] == after;
    } else {
      FirstToken(right.inner);
      assert ts == [l.id, op, "("] + (DocYield(right.inner) + [")"] + r);
      assert ts[1..][0] == op && ts[3..] == DocYield(right.inner) + [")"] + r;
    }
  }

  /** A group in a place where its closing parenthesis must be followed by r. */
  lemma {:induction false} GroupedBad(e: DocExpr, ts: seq<string>, r: seq<string>)
    requires DocLegal(e) && ts == DocYield(e) + [")"] + r
    ensures var p := ParseExpr(ts);
            if Plain(e) then p == Done(ToCode(e), [")"] + r) else p.Fail? || p.rest == [] || p.rest[0] != ")"
    decreases e, 1
  {
    assert ts == DocYield(e) + ([")"] + r);
    if Plain(e) {
      ParseExprComplete(ToCode(e), [")"] + r);
    } else {
      BadExpr(e, [")"] + r);
    }
  }

  // ---------------------------------------------------------------- the comparison

  /** A text of the documented grammar is accepted exactly if no WITH has a parenthesised
      operand; it then gets the tree the documentation gives it. */
  lemma DocumentedIsAccepted(d: DocExpr)
    requires DocLegal(d)
    ensures ParseAll(DocYield(d)).Done? <==> Plain(d)
    ensures Plain(d) ==> ParseAll(DocYield(d)) == Done(ToCode(d), [])
  {
    assert DocYield(d) + [] == DocYield(d);
    if Plain(d) {
      assert Legal(ToCode(d)) && Yield(ToCode(d)) == DocYield(d);
      ParserDecidesTheLanguage(DocYield(d));
    } else {
      BadExpr(d, []);
    }
  }

  /** A text the code accepts is one of the documented grammar exactly if every token after a
      WITH is a name. */
  lemma AcceptedIsDocumented(e: Expr)
    requires Legal(e)
    ensures (exists d :: DocLegal(d) && DocYield(d) == Yield(e)) <==> Sober(e)
  {
    hide Sober, Legal, Yield, DocLegal, DocYield, ParseAll, Plain;
    if Sober(e) {
      var d := ToDoc(e);
      assert DocLegal(d) && DocYield(d) == Yield(e);
    }
    if d :| DocLegal(d) && DocYield(d) == Yield(e) {
      ParserDecidesTheLanguage(Yield(e));
      DocumentedIsAccepted(d);
      TreesAreUnique(e, ToCode(d));
    }
  }

  /** "MIT WITH ( OR MIT" is accepted and is no text of the documented grammar. */
  lemma AcceptedButUndocumented()
    ensures var ts := ["MIT", "WITH", "(", "OR", "MIT"];
            ParseAll(ts).Done? && !exists d :: DocLegal(d) && DocYield(d) == ts
  {
    hide IsName;
    Spellings();
    hide Upper;
    var mit := AndExpr(Name("MIT"), NoAnd);
    var e := Expr(AndExpr(NameWith("MIT", "WITH", "("), NoAnd), OrMore("OR", mit, NoOr));
    assert Yield(e) == ["MIT", "WITH", "(", "OR", "MIT"];
    ParserDecidesTheLanguage(Yield(e));
    AcceptedIsDocumented(e);
  }

  /** "( MIT ) WITH x" is a text of the documented grammar and is refused. */
  lemma DocumentedButRefused()
    ensures var ts := ["(", "MIT", ")", "WITH", "x"];
            ParseAll(ts).Fail? && exists d :: DocLegal(d) && DocYield(d) == ts
  {
    hide IsName;
    Spellings();
    hide Upper;
    var inner := DocExpr(DocAnd(DocPlain(DocName("MIT")), DocNoAnd), DocNoOr);
    var d := DocExpr(DocAnd(DocPair(DocGroup(inner), "WITH", DocName("x")), DocNoAnd), DocNoOr);
    assert DocYield(inner) == ["MIT"];
    assert DocYield(d) == ["(", "MIT", ")", "WITH", "x"];
    DocumentedIsAccepted(d);
  }

  lemma Spellings()
    ensures IsOp("WITH", "WITH") && IsOp("OR", "OR") && IsName("MIT") && IsName("x") && !IsName("(")
  {
    UpperIs("WITH", "WITH");
    UpperIs("OR", "OR");
    UpperIs("MIT", "MIT");
    UpperIs("x", "X");
    hide Upper;
    assert "MIT"[0] != "AND"[0] && |"MIT"| != |"OR"| && |"MIT"| != |"WITH"| && |"MIT"| != |"("|;
    assert |"X"| != |"OR"| && |"X"| != |"AND"| && |"X"| != |"WITH"|;
    assert "x"[0] != "("[0] && "x"[0] != ")"[0];
  }
}
