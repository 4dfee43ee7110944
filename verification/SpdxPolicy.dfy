/** What an expression means under a policy, and the decision `evaluate` takes. */
module SpdxPolicy {
  import opened SpdxTokens
  import opened SpdxGrammar

  /** The allow-lists (lower case) and the table of messy spellings. */
  datatype Policy = Policy(ids: set<string>, pairs: set<(string, string)>, normalise: map<string, string>)

  function Canonical(raw: string): string {
    var ident := Strip(raw);
    if ident != "" && ident[|ident| - 1] == '+' then ident[..|ident| - 1] + "-or-later" else ident
  }

  function Key(token: string): string {
    Lower(Canonical(token))
  }

  /** What a policy is asked about: one licence, or a licence with its exception, undivided. */
  datatype Operand = Licence(id: string) | Pair(id: string, exc: string)

  predicate Allowed(o: Operand, p: Policy) {
    match o
    case Licence(id) => Key(id) in p.ids
    case Pair(id, exc) => (Key(id), Key(exc)) in p.pairs
  }

  // ---------------------------------------------------------------- the value of a tree

  predicate Value(e: Expr, p: Policy) {
    ValueAnd(e.first, p) || ValueOrRest(e.rest, p)
  }

  predicate ValueOrRest(r: OrRest, p: Policy) {
    r.OrMore? && (ValueAnd(r.operand, p) || ValueOrRest(r.more, p))
  }

  predicate ValueAnd(a: AndExpr, p: Policy) {
    ValueWith(a.first, p) && ValueAndRest(a.rest, p)
  }

  predicate ValueAndRest(r: AndRest, p: Policy) {
    r.AndMore? ==> ValueWith(r.operand, p) && ValueAndRest(r.more, p)
  }

  predicate ValueWith(w: WithExpr, p: Policy) {
    match w
    case Name(id) => Allowed(Licence(id), p)
    case NameWith(id, _, exc) => Allowed(Pair(id, exc), p)
    case Group(inner) => Value(inner, p)
  }

  // ---------------------------------------------------------------- disjunctive normal form

  /** The choices a consumer has: each is the set of operands to comply with. */
  function Choices(e: Expr): set<set<Operand>> {
    ChoicesAnd(e.first) + ChoicesOrRest(e.rest)
  }

  function ChoicesOrRest(r: OrRest): set<set<Operand>> {
    if r.NoOr? then {} else ChoicesAnd(r.operand) + ChoicesOrRest(r.more)
  }

  function ChoicesAnd(a: AndExpr): set<set<Operand>> {
    Combine(ChoicesWith(a.first), ChoicesAndRest(a.rest))
  }

  function ChoicesAndRest(r: AndRest): set<set<Operand>> {
    if r.NoAnd? then {{}} else Combine(ChoicesWith(r.operand), ChoicesAndRest(r.more))
  }

  function ChoicesWith(w: WithExpr): set<set<Operand>> {
    match w
    case Name(id) => {{Licence(id)}}
    case NameWith(id, _, exc) => {{Pair(id, exc)}}
    case Group(inner) => Choices(inner)
  }

  function Combine(a: set<set<Operand>>, b: set<set<Operand>>): set<set<Operand>> {
    set x, y | x in a && y in b :: x + y
  }

  predicate AllAllowed(t: set<Operand>, p: Policy) {
    forall o :: o in t ==> Allowed(o, p)
  }

  predicate SomeChoice(ts: set<set<Operand>>, p: Policy) {
    exists t :: t in ts && AllAllowed(t, p)
  }

  lemma CombineChoices(a: set<set<Operand>>, b: set<set<Operand>>, p: Policy)
    ensures SomeChoice(Combine(a, b), p) <==> SomeChoice(a, p) && SomeChoice(b, p)
  {
    hide Allowed;
    if SomeChoice(a, p) && SomeChoice(b, p) {
      var x :| x in a && AllAllowed(x, p);
      var y :| y in b && AllAllowed(y, p);
      assert x + y in Combine(a, b) && AllAllowed(x + y, p);
    }
    if SomeChoice(Combine(a, b), p) {
      var t :| t in Combine(a, b) && AllAllowed(t, p);
      var x, y :| x in a && y in b && t == x + y;
      assert AllAllowed(x, p) && AllAllowed(y, p);
    }
  }

  lemma UnionChoices(a: set<set<Operand>>, b: set<set<Operand>>, p: Policy)
    ensures SomeChoice(a + b, p) <==> SomeChoice(a, p) || SomeChoice(b, p)
  {
    hide AllAllowed;
    if SomeChoice(a, p) || SomeChoice(b, p) {
      var t :| (t in a || t in b) && AllAllowed(t, p);
      assert t in a + b;
    }
  }

  lemma SingleChoice(o: Operand, p: Policy)
    ensures SomeChoice({{o}}, p) <==> Allowed(o, p)
  {
    hide Allowed;
    assert {o} in {{o}};
  }

  /** An expression is allowed exactly if some choice has every operand allowed. */
  lemma {:induction false} ValueIsSomeChoice(e: Expr, p: Policy)
    ensures Value(e, p) <==> SomeChoice(Choices(e), p)
    decreases e, 0
  {
    hide SomeChoice;
    ValueAndIsSomeChoice(e.first, p);
    ValueOrRestIsSomeChoice(e.rest, p);
    UnionChoices(ChoicesAnd(e.first), ChoicesOrRest(e.rest), p);
  }

  lemma {:induction false} ValueOrRestIsSomeChoice(r: OrRest, p: Policy)
    ensures ValueOrRest(r, p) <==> SomeChoice(ChoicesOrRest(r), p)
    decreases r, 0
  {
    if r.OrMore? {
      ValueAndIsSomeChoice(r.operand, p);
      ValueOrRestIsSomeChoice(r.more, p);
      UnionChoices(ChoicesAnd(r.operand), ChoicesOrRest(r.more), p);
    }
  }

  lemma {:induction false} ValueAndIsSomeChoice(a: AndExpr, p: Policy)
    ensures ValueAnd(a, p) <==> SomeChoice(ChoicesAnd(a), p)
    decreases a, 0
  {
    ValueWithIsSomeChoice(a.first, p);
    ValueAndRestIsSomeChoice(a.rest, p);
    CombineChoices(ChoicesWith(a.first), ChoicesAndRest(a.rest), p);
  }

  lemma {:induction false} ValueAndRestIsSomeChoice(r: AndRest, p: Policy)
    ensures ValueAndRest(r, p) <==> SomeChoice(ChoicesAndRest(r), p)
    decreases r, 0
  {
    if r.AndMore? {
      ValueWithIsSomeChoice(r.operand, p);
      ValueAndRestIsSomeChoice(r.more, p);
      CombineChoices(ChoicesWith(r.operand), ChoicesAndRest(r.more), p);
    } else {
      var none: set<Operand> := {};
      assert none in {none} && AllAllowed(none, p);
    }
  }

  lemma {:induction false} ValueWithIsSomeChoice(w: WithExpr, p: Policy)
    ensures ValueWith(w, p) <==> SomeChoice(ChoicesWith(w), p)
    decreases w, 0
  {
    match w
    case Name(id) => SingleChoice(Licence(id), p);
    case NameWith(id, _, exc) => SingleChoice(Pair(id, exc), p);
    case Group(inner) => ValueIsSomeChoice(inner, p);
  }

  // ---------------------------------------------------------------- evaluate

  datatype Decision = Yes | NoLicence | NotAllowed | NormalisedTo(id: string) | Unparseable

  function ParseValue(ts: seq<string>, p: Policy): Decision {
    match ParseAll(ts)
    case Fail => Unparseable
    case Done(e, _) => if Value(e, p) then Yes else NotAllowed
  }

  function Evaluate(signal: string, p: Policy): Decision {
    var text := Strip(signal);
    if text == "" then NoLicence
    else if Lower(text) in p.normalise then
      var mapped := p.normalise[Lower(text)];
      if Lower(mapped) in p.ids then Yes else NormalisedTo(mapped)
    else ParseValue(Tokens(text), p)
  }

  /** A signal that is not a messy spelling is allowed exactly if it spells an expression one of
      whose choices has every operand allowed. */
  lemma AllowedMeansSomeChoice(signal: string, p: Policy)
    requires Lower(Strip(signal)) !in p.normalise
    ensures Evaluate(signal, p) == Yes
            <==> exists e :: Legal(e) && Yield(e) == Tokens(signal) && SomeChoice(Choices(e), p)
  {
    TokensOfStrip(signal);
    var ts := Tokens(signal);
    ParserDecidesTheLanguage(ts);
    if Strip(signal) == "" {
      forall e | Legal(e) ensures Yield(e) != [] {
        NoEmptyYield(e);
      }
    } else if ParseAll(ts).Done? {
      ValueIsSomeChoice(ParseAll(ts).value, p);
    }
  }

  lemma NoEmptyYield(e: Expr)
    ensures Yield(e) != []
  {
    assert YieldWith(e.first.first) != [];
  }

  // ---------------------------------------------------------------- monotonicity

  predicate Extends(q: Policy, p: Policy) {
    p.ids <= q.ids && p.pairs <= q.pairs && p.normalise == q.normalise
  }

  /** Enlarging the allow-lists never turns allowed into refused, whatever the signal. */
  lemma EnlargingOnlyAllows(signal: string, p: Policy, q: Policy)
    requires Extends(q, p) && Evaluate(signal, p) == Yes
    ensures Evaluate(signal, q) == Yes
  {
    hide Allowed;
    if Lower(Strip(signal)) !in p.normalise {
      var e := ParseAll(Tokens(Strip(signal))).value;
      ValueIsSomeChoice(e, p);
      ValueIsSomeChoice(e, q);
      var t :| t in Choices(e) && AllAllowed(t, p);
      forall o | o in t ensures Allowed(o, q) {
        StillAllowed(o, p, q);
      }
      assert AllAllowed(t, q);
    }
  }

  lemma StillAllowed(o: Operand, p: Policy, q: Policy)
    requires Extends(q, p) && Allowed(o, p)
    ensures Allowed(o, q)
  {
  }

  // ---------------------------------------------------------------- expressions joined by OR

  lemma {:induction false} AppendOrValue(r: OrRest, op: string, e: Expr, p: Policy)
    ensures ValueOrRest(AppendOr(r, op, e), p) <==> ValueOrRest(r, p) || Value(e, p)
  {
    if r.OrMore? {
      AppendOrValue(r.more, op, e, p);
    }
  }

  /** Token lists that parse alone parse when joined by OR, to the disjunction of their values,
      whatever AND and OR they contain at top level. */
  lemma OrJoinsTwo(ts: seq<string>, us: seq<string>, p: Policy)
    requires ParseAll(ts).Done? && ParseAll(us).Done?
    ensures ParseAll(ts + ["OR"] + us).Done?
    ensures ParseValue(ts + ["OR"] + us, p) == Yes <==> ParseValue(ts, p) == Yes || ParseValue(us, p) == Yes
  {
    ParserDecidesTheLanguage(ts);
    ParserDecidesTheLanguage(us);
    var d, e := ParseAll(ts).value, ParseAll(us).value;
    assert IsOp("OR", "OR");
    OrTreeYield(d, "OR", e);
    AppendOrValue(d.rest, "OR", e, p);
    ParserDecidesTheLanguage(ts + ["OR"] + us);
  }
}
