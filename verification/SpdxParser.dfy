/** The parser object of check-licenses.py: one position moving over the tokens, values
    computed on the way. Each method is proved against the recursive descent on trees. */
module SpdxParser {
  import opened SpdxTokens
  import opened SpdxGrammar
  import opened SpdxPolicy

  datatype Outcome = Raised | Returned(value: bool)

  class Parser {
    const tokens: seq<string>
    const policy: Policy
    var pos: nat

    constructor (tokens: seq<string>, policy: Policy)
      ensures this.tokens == tokens && this.policy == policy && pos == 0
    {
      this.tokens := tokens;
      this.policy := policy;
      pos := 0;
    }

    ghost predicate Valid()
      reads this
    {
      pos <= |tokens|
    }

    /** The tokens not consumed yet. */
    ghost function Left(): seq<string>
      requires Valid()
      reads this
    {
      tokens[pos..]
    }

    method PeekIs(op: string) returns (b: bool)
      requires Valid()
      ensures b <==> StartsWith(Left(), op)
    {
      b := pos < |tokens| && Upper(tokens[pos]) == op;
    }

    method Next() returns (ok: bool, token: string)
      requires Valid()
      modifies this
      ensures Valid() && ok == (old(Left()) != [])
      ensures if ok then old(Left()) == [token] + Left() else pos == old(pos)
    {
      if pos == |tokens| {
        return false, "";
      }
      ok, token := true, tokens[pos];
      pos := pos + 1;
    }

    /** Whether the outcome and the tokens left are those of a parse with this value. */
    ghost predicate Agrees<T>(r: Outcome, p: Parse<T>, value: T -> bool)
      requires Valid()
      reads this
    {
      match p
      case Fail => r.Raised?
      case Done(t, rest) => r == Returned(value(t)) && Left() == rest
    }

    method Parse() returns (r: Outcome)
      requires pos == 0
      modifies this
      ensures match ParseAll(tokens)
              case Fail => r.Raised?
              case Done(e, _) => r == Returned(Value(e, policy))
    {
      assert tokens[0..] == tokens;
      r := OrExpr();
      if r.Returned? && pos < |tokens| {
        r := Raised;
      }
    }

    method OrExpr() returns (r: Outcome)
      requires Valid()
      modifies this
      ensures Valid() && Agrees(r, ParseExpr(old(Left())), e => Value(e, policy))
      decreases |tokens| - pos, 4
    {
      ghost var start := Left();
      r := AndExpr();
      if r.Raised? {
        return;
      }
      ghost var whole := ParseOrRest(Left());
      ghost var head := r.value;
      var value := r.value;
      var more := PeekIs("OR");
      while more
        invariant Valid() && old(pos) < pos
        invariant more <==> StartsWith(Left(), "OR")
        invariant match ParseOrRest(Left())
                  case Fail => whole.Fail?
                  case Done(o, rest) =>
                    whole.Done? && whole.rest == rest
                    && ((head || ValueOrRest(whole.value, policy)) <==> (value || ValueOrRest(o, policy)))
        decreases |tokens| - pos
      {
        ghost var here := Left();
        var _, _ := Next();
        assert Left() == here[1..];
        var right := AndExpr();
        if right.Raised? {
          return Raised;
        }
        value := value || right.value;
        more := PeekIs("OR");
      }
      r := Returned(value);
    }

    method AndExpr() returns (r: Outcome)
      requires Valid()
      modifies this
      ensures Valid() && Agrees(r, ParseAnd(old(Left())), a => ValueAnd(a, policy))
      ensures r.Returned? ==> old(pos) < pos
      decreases |tokens| - pos, 3
    {
      ghost var start := Left();
      r := WithExpr();
      if r.Raised? {
        return;
      }
      ghost var whole := ParseAndRest(Left());
      ghost var head := r.value;
      var value := r.value;
      var more := PeekIs("AND");
      while more
        invariant Valid() && old(pos) < pos
        invariant more <==> StartsWith(Left(), "AND")
        invariant match ParseAndRest(Left())
                  case Fail => whole.Fail?
                  case Done(o, rest) =>
                    whole.Done? && whole.rest == rest
                    && (head && ValueAndRest(whole.value, policy) <==> value && ValueAndRest(o, policy))
        decreases |tokens| - pos
      {
        ghost var here := Left();
        var _, _ := Next();
        assert Left() == here[1..];
        var right := WithExpr();
        if right.Raised? {
          return Raised;
        }
        value := value && right.value;
        more := PeekIs("AND");
      }
      r := Returned(value);
    }

    method WithExpr() returns (r: Outcome)
      requires Valid()
      modifies this
      ensures Valid() && Agrees(r, ParseWith(old(Left())), w => ValueWith(w, policy))
      ensures r.Returned? ==> old(pos) < pos
      decreases |tokens| - pos, 2
    {
      hide Key, Upper, ParseExpr, Value;
      ghost var start := Left();
      var ok, token := Next();
      if !ok {
        return Raised;
      }
      assert Left() == start[1..];
      if token == "(" {
        r := OrExpr();
        if r.Raised? {
          return;
        }
        var ok', closing := Next();
        if !ok' || closing != ")" {
          return Raised;
        }
      } else if token == ")" || Upper(token) in {"AND", "OR", "WITH"} {
        return Raised;
      } else {
        var with := PeekIs("WITH");
        if !with {
          return Returned(Key(token) in policy.ids);
        }
        var _, _ := Next();
        assert Left() == start[2..];
        var ok', exc := Next();
        if !ok' {
          return Raised;
        }
        assert Left() == start[3..];
        return Returned((Key(token), Key(exc)) in policy.pairs);
      }
    }
  }

  /** evaluate, through the tokenizer loop and the parser object. */
  method EvaluateSignal(signal: string, policy: Policy) returns (d: Decision)
    ensures d == Evaluate(signal, policy)
  {
    var text := Strip(signal);
    if text == "" {
      return NoLicence;
    }
    if Lower(text) in policy.normalise {
      var mapped := policy.normalise[Lower(text)];
      return if Lower(mapped) in policy.ids then Yes else NormalisedTo(mapped);
    }
    var tokens := Tokenize(text);
    var parser := new Parser(tokens, policy);
    var r := parser.Parse();
    d := if r.Raised? then Unparseable else if r.value then Yes else NotAllowed;
  }
}
