/** Printing an expression with only the parentheses precedence needs, and reading it back. */
module SpdxPrinter {
  import opened SpdxTokens
  import opened SpdxGrammar
  import opened SpdxPolicy

  datatype Ast =
    | Id(id: string)
    | With(id: string, exc: string)
    | And(left: Ast, right: Ast)
    | Or(left: Ast, right: Ast)

  predicate Printable(a: Ast) {
    match a
    case Id(id) => IsName(id) && IsToken(id)
    case With(id, exc) => IsName(id) && IsToken(id) && IsToken(exc)
    case And(l, r) => Printable(l) && Printable(r)
    case Or(l, r) => Printable(l) && Printable(r)
  }

  predicate Meaning(a: Ast, p: Policy) {
    match a
    case Id(id) => Allowed(Licence(id), p)
    case With(id, exc) => Allowed(Pair(id, exc), p)
    case And(l, r) => Meaning(l, p) && Meaning(r, p)
    case Or(l, r) => Meaning(l, p) || Meaning(r, p)
  }

  /** In a place where OR is expected: no parentheses. */
  function Print(a: Ast): seq<string>
    decreases a, 1
  {
    if a.Or? then Print(a.left) + ["OR"] + Print(a.right) else PrintOperand(a)
  }

  /** In a place where AND is expected: an OR needs parentheses, nothing else does. */
  function PrintOperand(a: Ast): seq<string>
    decreases a, 0
  {
    match a
    case Id(id) => [id]
    case With(id, exc) => [id, "WITH", exc]
    case And(l, r) => PrintOperand(l) + ["AND"] + PrintOperand(r)
    case Or(l, r) => ["("] + Print(l) + ["OR"] + Print(r) + [")"]
  }

  function PrintText(a: Ast): string {
    Join(" ", Print(a))
  }

  // ---------------------------------------------------------------- the tree of a printed expression

  function AppendAnd(r: AndRest, op: string, a: AndExpr): AndRest {
    match r
    case NoAnd => AndMore(op, a.first, a.rest)
    case AndMore(o, w, more) => AndMore(o, w, AppendAnd(more, op, a))
  }

  lemma {:induction false} AppendAndTells(r: AndRest, a: AndExpr, p: Policy)
    requires LegalAndRest(r) && LegalAnd(a) && IsOp("AND", "AND")
    ensures LegalAndRest(AppendAnd(r, "AND", a))
    ensures YieldAndRest(AppendAnd(r, "AND", a)) == YieldAndRest(r) + ["AND"] + YieldAnd(a)
    ensures ValueAndRest(AppendAnd(r, "AND", a), p) <==> ValueAndRest(r, p) && ValueAnd(a, p)
  {
    hide IsOp;
    if r.AndMore? {
      AppendAndTells(r.more, a, p);
    }
  }

  function Tree(a: Ast): Expr
    decreases a, 1
  {
    if a.Or? then OrTree(Tree(a.left), "OR", Tree(a.right)) else Expr(TreeOperand(a), NoOr)
  }

  function TreeOperand(a: Ast): AndExpr
    decreases a, 0
  {
    match a
    case Id(id) => AndExpr(Name(id), NoAnd)
    case With(id, exc) => AndExpr(NameWith(id, "WITH", exc), NoAnd)
    case And(l, r) =>
      var t := TreeOperand(l);
      AndExpr(t.first, AppendAnd(t.rest, "AND", TreeOperand(r)))
    case Or(l, r) => AndExpr(Group(OrTree(Tree(l), "OR", Tree(r))), NoAnd)
  }

  lemma OperatorWords()
    ensures IsOp("OR", "OR") && IsOp("AND", "AND") && IsOp("WITH", "WITH")
    ensures IsToken("OR") && IsToken("AND") && IsToken("WITH") && IsToken("(") && IsToken(")")
  {
    UpperIs("OR", "OR");
    UpperIs("AND", "AND");
    UpperIs("WITH", "WITH");
    hide Upper;
  }

  lemma OrTreeTells(d: Expr, e: Expr, p: Policy)
    requires Legal(d) && Legal(e)
    ensures var t := OrTree(d, "OR", e);
            Legal(t) && Yield(t) == Yield(d) + ["OR"] + Yield(e) && (Value(t, p) <==> Value(d, p) || Value(e, p))
  {
    OperatorWords();
    OrTreeYield(d, "OR", e);
    AppendOrValue(d.rest, "OR", e, p);
  }

  /** The printed tokens are the spelling of a tree with the expression's meaning. */
  lemma {:induction false} TreeTells(a: Ast, p: Policy)
    requires Printable(a)
    ensures Legal(Tree(a)) && Yield(Tree(a)) == Print(a) && (Value(Tree(a), p) <==> Meaning(a, p))
    decreases a, 1
  {
    hide Allowed, IsOp, IsName, IsToken, TreeOperand, PrintOperand, OrTree;
    if a.Or? {
      TreeTells(a.left, p);
      TreeTells(a.right, p);
      OrTreeTells(Tree(a.left), Tree(a.right), p);
    } else {
      OperandTells(a, p);
    }
  }

  lemma {:induction false} OperandTells(a: Ast, p: Policy)
    requires Printable(a)
    ensures var t := TreeOperand(a);
            LegalAnd(t) && YieldAnd(t) == PrintOperand(a) && (ValueAnd(t, p) <==> Meaning(a, p))
    decreases a, 0
  {
    OperatorWords();
    hide Allowed, IsOp, IsName, IsToken, Tree, Print, OrTree;
    match a
    case And(l, r) =>
      OperandTells(l, p);
      OperandTells(r, p);
      AppendAndTells(TreeOperand(l).rest, TreeOperand(r), p);
    case Or(l, r) =>
      TreeTells(l, p);
      TreeTells(r, p);
      OrTreeTells(Tree(l), Tree(r), p);
    case _ =>
  }

  lemma {:induction false} PrintsTokens(a: Ast)
    requires Printable(a)
    ensures forall t :: t in Print(a) + PrintOperand(a) ==> IsToken(t)
  {
    OperatorWords();
    hide IsName, IsToken;
    if a.And? || a.Or? {
      PrintsTokens(a.left);
      PrintsTokens(a.right);
    }
  }

  /** Printing, tokenizing and parsing an expression gives its meaning. */
  lemma PrintThenParse(a: Ast, p: Policy)
    requires Printable(a)
    ensures Tokens(PrintText(a)) == Print(a)
    ensures ParseAll(Tokens(PrintText(a))) == Done(Tree(a), [])
    ensures ParseValue(Tokens(PrintText(a)), p) == if Meaning(a, p) then Yes else NotAllowed
  {
    PrintsTokens(a);
    TokensOfJoin(Print(a));
    TreeTells(a, p);
    ParserDecidesTheLanguage(Print(a));
  }
}
