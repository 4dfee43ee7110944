/** The expression language the licence engine accepts, as trees; the recursive descent that
    recognises it; and the proof that the two are one language with one tree per text. */
module SpdxGrammar {
  import opened SpdxTokens

  // ---------------------------------------------------------------- trees

  datatype Expr = Expr(first: AndExpr, rest: OrRest)
  datatype OrRest = NoOr | OrMore(op: string, operand: AndExpr, more: OrRest)
  datatype AndExpr = AndExpr(first: WithExpr, rest: AndRest)
  datatype AndRest = NoAnd | AndMore(op: string, operand: WithExpr, more: AndRest)
  datatype WithExpr =
    | Name(id: string)
    | NameWith(id: string, op: string, exc: string)
    | Group(inner: Expr)

  predicate IsOp(t: string, op: string) {
    Upper(t) == op
  }

  predicate IsOperator(t: string) {
    IsOp(t, "AND") || IsOp(t, "OR") || IsOp(t, "WITH")
  }

  /** A token that can stand for a licence. */
  predicate IsName(t: string) {
    t != "(" && t != ")" && !IsOperator(t)
  }

  /** The token spelling of a tree. */
  function Yield(e: Expr): seq<string> {
    YieldAnd(e.first) + YieldOrRest(e.rest)
  }

  function YieldOrRest(r: OrRest): seq<string> {
    if r.NoOr? then [] else [r.op] + YieldAnd(r.operand) + YieldOrRest(r.more)
  }

  function YieldAnd(a: AndExpr): seq<string> {
    YieldWith(a.first) + YieldAndRest(a.rest)
  }

  function YieldAndRest(r: AndRest): seq<string> {
    if r.NoAnd? then [] else [r.op] + YieldWith(r.operand) + YieldAndRest(r.more)
  }

  function YieldWith(w: WithExpr): seq<string> {
    match w
    case Name(id) => [id]
    case NameWith(id, op, exc) => [id, op, exc]
    case Group(inner) => ["("] + Yield(inner) + [")"]
  }

  /** Trees the code builds: any token at all may follow WITH. */
  predicate Legal(e: Expr) {
    LegalAnd(e.first) && LegalOrRest(e.rest)
  }

  predicate LegalOrRest(r: OrRest) {
    r.OrMore? ==> IsOp(r.op, "OR") && LegalAnd(r.operand) && LegalOrRest(r.more)
  }

  predicate LegalAnd(a: AndExpr) {
    LegalWith(a.first) && LegalAndRest(a.rest)
  }

  predicate LegalAndRest(r: AndRest) {
    r.AndMore? ==> IsOp(r.op, "AND") && LegalWith(r.operand) && LegalAndRest(r.more)
  }

  predicate LegalWith(w: WithExpr) {
    match w
    case Name(id) => IsName(id)
    case NameWith(id, op, _) => IsName(id) && IsOp(op, "WITH")
    case Group(inner) => Legal(inner)
  }

  // ---------------------------------------------------------------- recursive descent

  datatype Parse<+T> = Fail | Done(value: T, rest: seq<string>)

  predicate StartsWith(ts: seq<string>, op: string) {
    ts != [] && IsOp(ts[0], op)
  }

  function ParseExpr(ts: seq<string>): (p: Parse<Expr>)
    ensures p.Done? ==> |p.rest| < |ts|
    decreases |ts|, 4
  {
    match ParseAnd(ts)
    case Fail => Fail
    case Done(a, ts1) =>
      match ParseOrRest(ts1)
      case Fail => Fail
      case Done(r, ts2) => Done(Expr(a, r), ts2)
  }

  function ParseOrRest(ts: seq<string>): (p: Parse<OrRest>)
    ensures p.Done? ==> |p.rest| <= |ts|
    decreases |ts|, 3
  {
    if !StartsWith(ts, "OR") then Done(NoOr, ts)
    else
      match ParseAnd(ts[1..])
      case Fail => Fail
      case Done(a, ts1) =>
        match ParseOrRest(ts1)
        case Fail => Fail
        case Done(r, ts2) => Done(OrMore(ts[0], a, r), ts2)
  }

  function ParseAnd(ts: seq<string>): (p: Parse<AndExpr>)
    ensures p.Done? ==> |p.rest| < |ts|
    decreases |ts|, 2
  {
    match ParseWith(ts)
    case Fail => Fail
    case Done(w, ts1) =>
      match ParseAndRest(ts1)
      case Fail => Fail
      case Done(r, ts2) => Done(AndExpr(w, r), ts2)
  }

  function ParseAndRest(ts: seq<string>): (p: Parse<AndRest>)
    ensures p.Done? ==> |p.rest| <= |ts|
    decreases |ts|, 1
  {
    if !StartsWith(ts, "AND") then Done(NoAnd, ts)
    else
      match ParseWith(ts[1..])
      case Fail => Fail
      case Done(w, ts1) =>
        match ParseAndRest(ts1)
        case Fail => Fail
        case Done(r, ts2) => Done(AndMore(ts[0], w, r), ts2)
  }

  function ParseWith(ts: seq<string>): (p: Parse<WithExpr>)
    ensures p.Done? ==> |p.rest| < |ts|
    decreases |ts|, 0
  {
    if ts == [] then Fail
    else if ts[0] == "(" then
      match ParseExpr(ts[1..])
      case Fail => Fail
      case Done(e, ts1) => if ts1 == [] || ts1[0] != ")" then Fail else Done(Group(e), ts1[1..])
    else if !IsName(ts[0]) then Fail
    else if !StartsWith(ts[1..], "WITH") then Done(Name(ts[0]), ts[1..])
    else if |ts| < 3 then Fail
    else Done(NameWith(ts[0], ts[1], ts[2]), ts[3..])
  }

  /** parse(): the whole token list must be one expression. */
  function ParseAll(ts: seq<string>): Parse<Expr> {
    var p := ParseExpr(ts);
    if p.Done? && p.rest == [] then p else Fail
  }

  // ---------------------------------------------------------------- soundness

  lemma {:induction false} ParseExprSound(ts: seq<string>)
    ensures var p := ParseExpr(ts); p.Done? ==> Legal(p.value) && ts == Yield(p.value) + p.rest
    decreases |ts|, 4
  {
    hide IsOp, IsOperator, IsName, ParseAnd, ParseOrRest, YieldAnd, YieldOrRest, LegalAnd, LegalOrRest;
    ParseAndSound(ts);
    var p := ParseAnd(ts);
    if p.Done? {
      ParseOrRestSound(p.rest);
    }
  }

  lemma {:induction false} ParseOrRestSound(ts: seq<string>)
    ensures var p := ParseOrRest(ts); p.Done? ==> LegalOrRest(p.value) && ts == YieldOrRest(p.value) + p.rest
    decreases |ts|, 3
  {
    hide IsOp, IsOperator, IsName, ParseAnd, YieldAnd, LegalAnd;
    if StartsWith(ts, "OR") {
      ParseAndSound(ts[1..]);
      var p := ParseAnd(ts[1..]);
      if p.Done? {
        ParseOrRestSound(p.rest);
      }
    }
  }

  lemma {:induction false} ParseAndSound(ts: seq<string>)
    ensures var p := ParseAnd(ts); p.Done? ==> LegalAnd(p.value) && ts == YieldAnd(p.value) + p.rest
    decreases |ts|, 2
  {
    hide IsOp, IsOperator, IsName, ParseWith, ParseAndRest, YieldWith, YieldAndRest, LegalWith, LegalAndRest;
    ParseWithSound(ts);
    var p := ParseWith(ts);
    if p.Done? {
      ParseAndRestSound(p.rest);
    }
  }

  lemma {:induction false} ParseAndRestSound(ts: seq<string>)
    ensures var p := ParseAndRest(ts); p.Done? ==> LegalAndRest(p.value) && ts == YieldAndRest(p.value) + p.rest
    decreases |ts|, 1
  {
    hide IsOp, IsOperator, IsName, ParseWith, YieldWith, LegalWith;
    if StartsWith(ts, "AND") {
      ParseWithSound(ts[1..]);
      var p := ParseWith(ts[1..]);
      if p.Done? {
        ParseAndRestSound(p.rest);
      }
    }
  }

  lemma {:induction false} ParseWithSound(ts: seq<string>)
    ensures var p := ParseWith(ts); p.Done? ==> LegalWith(p.value) && ts == YieldWith(p.value) + p.rest
    decreases |ts|, 0
  {
    hide IsOp, IsOperator, IsName, ParseExpr, Yield, Legal;
    if ts != [] && ts[0] == "(" {
      ParseExprSound(ts[1..]);
    }
  }

  // ---------------------------------------------------------------- completeness

  predicate Ends(r: seq<string>) {
    r == [] || !IsOperator(r[0])
  }

  /** What follows a conjunction starts with OR or not with an operator. */
  lemma OrRestStarts(o: OrRest, r: seq<string>)
    requires LegalOrRest(o) && Ends(r)
    ensures var ts := YieldOrRest(o) + r;
            !StartsWith(ts, "AND") && !StartsWith(ts, "WITH") && (StartsWith(ts, "OR") <==> o.OrMore?)
  {
    hide Upper, LegalAnd, YieldAnd;
  }

  lemma AndRestStarts(a: AndRest, r: seq<string>)
    requires LegalAndRest(a) && !StartsWith(r, "AND") && !StartsWith(r, "WITH")
    ensures var ts := YieldAndRest(a) + r; !StartsWith(ts, "WITH") && (StartsWith(ts, "AND") <==> a.AndMore?)
  {
    hide Upper, LegalWith, YieldWith;
  }

  lemma {:induction false} ParseExprComplete(e: Expr, r: seq<string>)
    requires Legal(e) && Ends(r)
    ensures ParseExpr(Yield(e) + r) == Done(e, r)
    decreases e, 0
  {
    hide ParseAnd, ParseOrRest, YieldAnd, YieldOrRest, LegalAnd, LegalOrRest, StartsWith;
    OrRestStarts(e.rest, r);
    ParseAndComplete(e.first, YieldOrRest(e.rest) + r);
    ParseOrRestComplete(e.rest, r);
    assert Yield(e) + r == YieldAnd(e.first) + (YieldOrRest(e.rest) + r);
  }

  lemma {:induction false} ParseOrRestComplete(o: OrRest, r: seq<string>)
    requires LegalOrRest(o) && Ends(r)
    ensures ParseOrRest(YieldOrRest(o) + r) == Done(o, r)
    decreases o, 0
  {
    hide ParseAnd, YieldAnd, LegalAnd, StartsWith, Ends;
    OrRestStarts(o, r);
    if o.OrMore? {
      OrRestStarts(o.more, r);
      ParseAndComplete(o.operand, YieldOrRest(o.more) + r);
      ParseOrRestComplete(o.more, r);
      assert (YieldOrRest(o) + r)[1..] == YieldAnd(o.operand) + (YieldOrRest(o.more) + r);
    }
  }

  lemma {:induction false} ParseAndComplete(a: AndExpr, r: seq<string>)
    requires LegalAnd(a) && !StartsWith(r, "AND") && !StartsWith(r, "WITH")
    ensures ParseAnd(YieldAnd(a) + r) == Done(a, r)
    decreases a, 0
  {
    hide ParseWith, ParseAndRest, YieldWith, YieldAndRest, LegalWith, LegalAndRest, StartsWith;
    AndRestStarts(a.rest, r);
    ParseWithComplete(a.first, YieldAndRest(a.rest) + r);
    ParseAndRestComplete(a.rest, r);
    assert YieldAnd(a) + r == YieldWith(a.first) + (YieldAndRest(a.rest) + r);
  }

  lemma {:induction false} ParseAndRestComplete(a: AndRest, r: seq<string>)
    requires LegalAndRest(a) && !StartsWith(r, "AND") && !StartsWith(r, "WITH")
    ensures ParseAndRest(YieldAndRest(a) + r) == Done(a, r)
    decreases a, 0
  {
    hide ParseWith, YieldWith, LegalWith, StartsWith;
    AndRestStarts(a, r);
    if a.AndMore? {
      AndRestStarts(a.more, r);
      ParseWithComplete(a.operand, YieldAndRest(a.more) + r);
      ParseAndRestComplete(a.more, r);
      assert (YieldAndRest(a) + r)[1..] == YieldWith(a.operand) + (YieldAndRest(a.more) + r);
    }
  }

  lemma {:induction false} ParseWithComplete(w: WithExpr, r: seq<string>)
    requires LegalWith(w) && !StartsWith(r, "WITH")
    ensures ParseWith(YieldWith(w) + r) == Done(w, r)
    decreases w, 0
  {
    hide ParseExpr, Yield, Legal, Upper;
    var ts := YieldWith(w) + r;
    match w
    case Name(_) => assert ts[1..] == r;
    case NameWith(id, op, exc) => assert ts[3..] == r && ts[1..][0] == op;
    case Group(inner) =>
      ParseExprComplete(inner, [")"] + r);
      assert ts[1..] == Yield(inner) + ([")"] + r);
      assert ([")"] + r)[1..] == r;
  }

  // ---------------------------------------------------------------- the language

  /** The parser accepts exactly the spellings of legal trees and returns the tree. */
  lemma ParserDecidesTheLanguage(ts: seq<string>)
    ensures ParseAll(ts).Done? <==> exists e :: Legal(e) && Yield(e) == ts
    ensures forall e :: Legal(e) && Yield(e) == ts ==> ParseAll(ts) == Done(e, [])
    ensures ParseAll(ts).Done? ==> Legal(ParseAll(ts).value) && Yield(ParseAll(ts).value) == ts
  {
    ParseExprSound(ts);
    if ParseAll(ts).Done? {
      assert Legal(ParseAll(ts).value) && Yield(ParseAll(ts).value) == ts;
    }
    forall e | Legal(e) && Yield(e) == ts ensures ParseAll(ts) == Done(e, []) {
      ParseExprComplete(e, []);
      assert Yield(e) + [] == ts;
    }
  }

  /** A text has at most one tree. */
  lemma TreesAreUnique(d: Expr, e: Expr)
    requires Legal(d) && Legal(e) && Yield(d) == Yield(e)
    ensures d == e
  {
    ParserDecidesTheLanguage(Yield(d));
  }

  // ---------------------------------------------------------------- joining with OR

  function AppendOr(r: OrRest, op: string, e: Expr): OrRest {
    match r
    case NoOr => OrMore(op, e.first, e.rest)
    case OrMore(o, a, more) => OrMore(o, a, AppendOr(more, op, e))
  }

  /** The tree of "d OR e", whatever OR and AND the two contain at top level. */
  function OrTree(d: Expr, op: string, e: Expr): Expr {
    Expr(d.first, AppendOr(d.rest, op, e))
  }

  lemma {:induction false} AppendOrYield(r: OrRest, op: string, e: Expr)
    requires LegalOrRest(r) && IsOp(op, "OR") && Legal(e)
    ensures LegalOrRest(AppendOr(r, op, e))
    ensures YieldOrRest(AppendOr(r, op, e)) == YieldOrRest(r) + [op] + Yield(e)
  {
    if r.OrMore? {
      AppendOrYield(r.more, op, e);
    }
  }

  lemma OrTreeYield(d: Expr, op: string, e: Expr)
    requires Legal(d) && IsOp(op, "OR") && Legal(e)
    ensures Legal(OrTree(d, op, e))
    ensures Yield(OrTree(d, op, e)) == Yield(d) + [op] + Yield(e)
  {
    AppendOrYield(d.rest, op, e);
  }
}
