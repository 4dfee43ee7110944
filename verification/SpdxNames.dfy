/** Which names, pairs and operators the shipped policy knows: case folding, "+", the pairs with an
    exception, and the reasons of a refusal. */
module SpdxNames {
  import opened SpdxTokens
  import opened SpdxGrammar
  import opened SpdxPolicy
  import opened SpdxArrays
  import opened SpdxTables

  // ---------------------------------------------------------------- letters

  /** The same text, up to the case of ASCII letters. */
  predicate SameLetters(a: string, b: string) {
    |a| == |b| && forall i :: 0 <= i < |a| ==> SameLetter(a[i], b[i])
  }

  predicate SameLetter(c: char, d: char) {
    || c == d
    || ('A' <= c <= 'Z' && d as int == c as int + 32)
    || ('a' <= c <= 'z' && d as int == c as int - 32)
  }

  /** Lower case is the same for texts that differ in case only, and for no other ASCII texts. */
  lemma LowerFoldsCase(a: string, b: string)
    ensures SameLetters(a, b) ==> Lower(a) == Lower(b)
    ensures (forall c :: c in a + b ==> c < '\U{80}') && Lower(a) == Lower(b) ==> SameLetters(a, b)
  {
    if (forall c :: c in a + b ==> c < '\U{80}') && Lower(a) == Lower(b) {
      forall i | 0 <= i < |a| ensures SameLetter(a[i], b[i]) {
        assert a[i] in a + b && b[i] in a + b;
        assert Lower(a)[i] == Lower(b)[i];
      }
    }
  }

  /** The operator words, in any case. The dotless i has the upper case I too. */
  lemma OperatorsFoldCase(t: string)
    ensures IsOp(t, "OR") <==> |t| == 2 && t[0] in "oO" && t[1] in "rR"
    ensures IsOp(t, "AND") <==> |t| == 3 && t[0] in "aA" && t[1] in "nN" && t[2] in "dD"
    ensures IsOp(t, "WITH") <==>
              |t| == 4 && t[0] in "wW" && t[1] in "iI\U{131}" && t[2] in "tT" && t[3] in "hH"
  {
    if |t| == 2 { assert Upper(t) == "OR" <==> Upper(t)[0] == 'O' && Upper(t)[1] == 'R'; }
    if |t| == 3 {
      assert Upper(t) == "AND" <==> Upper(t)[0] == 'A' && Upper(t)[1] == 'N' && Upper(t)[2] == 'D';
    }
    if |t| == 4 {
      assert Upper(t) == "WITH" <==>
          Upper(t)[0] == 'W' && Upper(t)[1] == 'I' && Upper(t)[2] == 'T' && Upper(t)[3] == 'H';
    }
  }

  /** Stripping takes white space off both ends, all of it and nothing else. */
  lemma {:induction false} TrimLeftTells(s: string) returns (before: string)
    ensures s == before + TrimLeft(s) && forall c :: c in before ==> IsSpace(c)
    ensures TrimLeft(s) != "" ==> !IsSpace(TrimLeft(s)[0])
  {
    before := "";
    if s != "" && IsSpace(s[0]) {
      var more := TrimLeftTells(s[1..]);
      before := [s[0]] + more;
    }
  }

  lemma {:induction false} TrimRightTells(s: string) returns (after: string)
    ensures s == TrimRight(s) + after && forall c :: c in after ==> IsSpace(c)
    ensures TrimRight(s) != "" ==> !IsSpace(TrimRight(s)[|TrimRight(s)| - 1]) && TrimRight(s)[0] == s[0]
  {
    after := "";
    if s != "" && IsSpace(s[|s| - 1]) {
      var more := TrimRightTells(s[..|s| - 1]);
      after := more + [s[|s| - 1]];
    }
  }

  lemma StripTells(s: string)
    ensures exists before, after :: s == before + Strip(s) + after && forall c :: c in before + after ==> IsSpace(c)
    ensures Strip(s) != "" ==> !IsSpace(Strip(s)[0]) && !IsSpace(Strip(s)[|Strip(s)| - 1])
  {
    hide TrimLeft, TrimRight, IsSpace;
    var before := TrimLeftTells(s);
    var after := TrimRightTells(TrimLeft(s));
    assert s == before + Strip(s) + after;
  }

  // ---------------------------------------------------------------- names

  lemma WordIsStripped(t: string)
    requires IsToken(t)
    ensures Strip(t) == t && t != "" && Tokens(t) == [t]
  {
    assert t[0] in t && t[|t| - 1] in t;
    TightStrips(t);
    TokensOfToken(t);
  }

  /** A name with its "+", if it ends in one, spelled out. */
  function FullName(t: string): string {
    if t != "" && t[|t| - 1] == '+' then t[..|t| - 1] + "-or-later" else t
  }

  /** A name is allowed exactly if the table accepts it, or does not have it and its full name, in
      lower case, is on the allow-list. */
  lemma NameUnder(t: string, p: Policy)
    requires IsToken(t) && IsName(t)
    ensures Evaluate(t, p) == Yes <==> if Lower(t) in p.normalise then Lower(p.normalise[Lower(t)]) in p.ids
                                       else Lower(FullName(t)) in p.ids
  {
    WordIsStripped(t);
    NameMeans(t, p);
    assert Alone(t, p) <==> Evaluate(t, p) == Yes;
    AloneMeans(t, p);
    hide Strip, Tokens, Lower, IsToken, IsName, Evaluate, ParseValue;
    assert Allowed(Licence(t), p) <==> Lower(FullName(t)) in p.ids;
  }

  /** Under the shipped policy: exactly the allowed identifiers, in any case and with "+" for
      "-or-later", and the spellings of the table. */
  lemma NameIsAllowed(t: string)
    requires IsToken(t) && IsName(t)
    ensures Evaluate(t, SHIPPED) == Yes
            <==> Lower(t) in NORMALISE || exists id :: id in ALLOWED_IDS && Lower(id) == Lower(FullName(t))
  {
    NameUnder(t, SHIPPED);
    TableRefusesNothing();
    hide Evaluate, IsToken, IsName, Lower, ALLOWED_IDS, NORMALISE, FullName;
  }

  predicate AllWord(s: string) {
    forall c :: c in s ==> IsWordChar(c)
  }

  lemma LongIsName(t: string)
    requires AllWord(t) && |t| > 4
    ensures IsToken(t) && IsName(t)
  {
    assert |Upper(t)| > 4;
  }

  lemma PlusIsName(s: string)
    requires AllWord(s)
    ensures IsToken(s + "+") && IsName(s + "+")
  {
    var t := s + "+";
    OperatorsFoldCase(t);
    assert t[|t| - 1] == '+';
  }

  /** "+" means "or later": a name followed by it is allowed exactly if the name followed by
      "-or-later" is, when the table has neither. */
  lemma PlusUnder(s: string, p: Policy)
    requires AllWord(s) && Lower(s + "+") !in p.normalise && Lower(s + "-or-later") !in p.normalise
    ensures Evaluate(s + "+", p) == Yes <==> Evaluate(s + "-or-later", p) == Yes
  {
    var t, u := s + "+", s + "-or-later";
    PlusIsName(s);
    LongIsName(u);
    assert t[..|t| - 1] == s && FullName(t) == u && FullName(u) == u;
    hide IsToken, IsName, Lower, Evaluate;
    NameUnder(t, p);
    NameUnder(u, p);
  }

  lemma NoSuchKey(s: string)
    ensures Lower(s + "+") !in NORMALISE && Lower(s + "-or-later") !in NORMALISE
  {
    var t, u := s + "+", s + "-or-later";
    assert t[|t| - 1] == '+' && u[|u| - 1] == 'r';
    assert Lower(t)[|t| - 1] == '+' && Lower(u)[|u| - 1] == 'r';
    KeysEndOtherwise(Lower(t));
    KeysEndOtherwise(Lower(u));
  }

  lemma KeysEndOtherwise(key: string)
    ensures key in NORMALISE ==> key != "" && key[|key| - 1] != '+' && key[|key| - 1] != 'r'
  {
  }

  /** So under the shipped policy, for every name. */
  lemma PlusMeansOrLater(s: string)
    requires AllWord(s)
    ensures Evaluate(s + "+", SHIPPED) == Yes <==> Evaluate(s + "-or-later", SHIPPED) == Yes
  {
    NoSuchKey(s);
    PlusUnder(s, SHIPPED);
  }

  // ---------------------------------------------------------------- pairs

  lemma PairMeans(a: string, w: string, b: string, p: Policy)
    requires IsToken(a) && IsName(a) && IsOp(w, "WITH") && IsToken(w) && IsToken(b)
    ensures Tokens(a + " " + w + " " + b) == [a, w, b]
    ensures Spells(a + " " + w + " " + b, p) <==> Allowed(Pair(a, b), p)
  {
    hide IsToken, IsName, Tokens, IsOp, Allowed;
    var s := a + " " + w + " " + b;
    assert s == (a + [' '] + w) + [' '] + b;
    TokensSplit(a + [' '] + w, ' ', b);
    TokensSplit(a, ' ', w);
    TokensOfToken(a);
    TokensOfToken(w);
    TokensOfToken(b);
    assert Tokens(s) == [a] + [w] + [b] == [a, w, b];
    PairTree(a, w, b, p);
    var e := Expr(AndExpr(NameWith(a, w, b), NoAnd), NoOr);
    ParserDecidesTheLanguage([a, w, b]);
    hide Legal, Yield, Value, ParseAll;
    assert ParseAll(Tokens(s)) == Done(e, []);
  }

  lemma PairTree(a: string, w: string, b: string, p: Policy)
    requires IsName(a) && IsOp(w, "WITH")
    ensures var e := Expr(AndExpr(NameWith(a, w, b), NoAnd), NoOr);
            Legal(e) && Yield(e) == [a, w, b] && (Value(e, p) <==> Allowed(Pair(a, b), p))
  {
    hide IsName, IsOp, Allowed;
    var n, rest, more := NameWith(a, w, b), NoAnd, NoOr;
    var c := AndExpr(n, rest);
    assert YieldAndRest(rest) == [] && YieldOrRest(more) == [];
    assert YieldWith(n) == [a, w, b] && YieldAnd(c) == [a, w, b];
    assert LegalWith(n) && LegalAndRest(rest) && LegalOrRest(more);
    assert LegalAnd(c);
    assert ValueWith(n, p) <==> Allowed(Pair(a, b), p);
    assert ValueAndRest(rest, p) && !ValueOrRest(more, p);
    assert ValueAnd(c, p) <==> ValueWith(n, p);
  }

  /** A licence WITH an exception is allowed exactly if the two, in any case and with "+" for
      "-or-later", are one of the allowed pairs, or the table has the text. Neither counts alone. */
  lemma PairIsAllowed(a: string, w: string, b: string)
    requires IsToken(a) && IsName(a) && IsOp(w, "WITH") && IsToken(w) && IsToken(b)
    ensures Evaluate(a + " " + w + " " + b, SHIPPED) == Yes
            <==> InTable(a + " " + w + " " + b, SHIPPED)
                 || exists pair :: pair in ALLOWED_WITH
                      && Lower(pair.0) == Lower(FullName(a)) && Lower(pair.1) == Lower(FullName(b))
  {
    hide Strip, Tokens, Lower, IsToken, IsName, IsOp, Allowed, Spells, ALLOWED_WITH, ALLOWED_IDS, NORMALISE, InTable,
      Evaluate, Spelling, FullName;
    var s := a + " " + w + " " + b;
    PairMeans(a, w, b, SHIPPED);
    PairIsKnown(a, b);
    AloneMeans(s, SHIPPED);
    PairInTable(a, w, b);
    assert Alone(s, SHIPPED) <==> Evaluate(s, SHIPPED) == Yes;
  }

  lemma PairInTable(a: string, w: string, b: string)
    requires IsToken(a) && IsToken(b)
    ensures InTable(a + " " + w + " " + b, SHIPPED) <==> Spelling(a + " " + w + " " + b, SHIPPED)
  {
    hide Strip, Tokens, Lower, ALLOWED_IDS, NORMALISE;
    var s := a + " " + w + " " + b;
    assert s[0] == a[0] && a[0] in a && s[|s| - 1] == b[|b| - 1] && b[|b| - 1] in b;
    TightStrips(s);
    TableRefusesNothing();
  }

  lemma KeyOfWord(t: string)
    requires IsToken(t)
    ensures Key(t) == Lower(FullName(t))
  {
    hide Strip, Tokens, Lower, IsToken;
    WordIsStripped(t);
  }

  lemma PairIsKnown(a: string, b: string)
    requires IsToken(a) && IsToken(b)
    ensures Allowed(Pair(a, b), SHIPPED)
            <==> exists pair :: pair in ALLOWED_WITH
                   && Lower(pair.0) == Lower(FullName(a)) && Lower(pair.1) == Lower(FullName(b))
  {
    hide Strip, Tokens, Lower, IsToken, ALLOWED_IDS, ALLOWED_WITH, NORMALISE, Key, FullName;
    KeyOfWord(a);
    KeyOfWord(b);
    var known := (Key(a), Key(b));
    if Allowed(Pair(a, b), SHIPPED) {
      var pair :| pair in ALLOWED_WITH && LowerPair(pair) == known;
    }
    forall pair | pair in ALLOWED_WITH && Lower(pair.0) == Key(a) && Lower(pair.1) == Key(b)
      ensures known in SHIPPED.pairs
    {
      assert LowerPair(pair) == known;
    }
  }

  // ---------------------------------------------------------------- the shipped policy, by name

  /** The GPL alone is refused, in every version and case, though some pairs have it: no name that
      starts with a G is allowed. */
  lemma BareGplIsRefused(t: string)
    requires AllWord(t) && |t| > 4 && (t[0] == 'G' || t[0] == 'g')
    ensures Evaluate(t, SHIPPED) == NotAllowed
  {
    hide Strip, Tokens, IsToken, IsName, ALLOWED_IDS, NORMALISE, Value, Lower, AllWord;
    LongIsName(t);
    WordIsStripped(t);
    NameMeans(t, SHIPPED);
    LowerFront(t);
    LowerFront(FullName(t));
    assert FullName(t)[0] == t[0];
    forall id | id in ALLOWED_IDS ensures Lower(id) != Lower(FullName(t)) {
      NoIdWithG(id);
      LowerFront(id);
    }
    NoKeyWithG(Lower(t));
    NameIsAllowed(t);
  }

  lemma LowerFront(s: string)
    requires s != ""
    ensures Lower(s) != "" && Lower(s)[0] == LowerChar(s[0])
  {
  }

  lemma NoIdWithG(id: string)
    requires id in ALLOWED_IDS
    ensures id != "" && id[0] != 'G' && id[0] != 'g'
  {
  }

  lemma NoKeyWithG(key: string)
    ensures key in NORMALISE ==> key != "" && key[0] != 'g'
  {
  }

  /** Every allowed identifier is allowed in any case. */
  lemma IdentifiersAreAllowed(t: string, id: string)
    requires id in ALLOWED_IDS && SameLetters(t, id) && AllWord(t) && IsName(t)
    ensures Evaluate(t, SHIPPED) == Yes
  {
    IdIsWord(id);
    assert t != "" && t[|t| - 1] != '+' by {
      assert SameLetter(t[|t| - 1], id[|id| - 1]);
    }
    assert FullName(t) == t;
    LowerFoldsCase(t, id);
    hide Lower, ALLOWED_IDS, NORMALISE, Evaluate, IsName;
    NameIsAllowed(t);
  }

  lemma IdIsWord(id: string)
    requires id in ALLOWED_IDS
    ensures id != "" && id[|id| - 1] != '+'
  {
  }

  /** "MIT", "lgpl-2.1+" and the classpath pair, for instance. */
  lemma ShippedExamples()
    ensures Evaluate("MIT", SHIPPED) == Yes
    ensures Evaluate("lgpl-2.1" + "+", SHIPPED) == Yes
    ensures Evaluate("GPL-2.0" + " " + "WITH" + " " + "Classpath-exception-2.0", SHIPPED) == Yes
  {
    hide Evaluate, AllWord, IsName, IsToken, IsOp, SameLetters, FullName, InTable, Lower, SHIPPED, ALLOWED_IDS,
      ALLOWED_WITH;
    MitIsName();
    IdentifiersAreAllowed("MIT", "MIT");
    LgplIsName();
    PlusMeansOrLater("lgpl-2.1");
    IdentifiersAreAllowed("lgpl-2.1" + "-or-later", "LGPL-2.1-or-later");
    ClasspathIsPair();
    PairIsAllowed("GPL-2.0", "WITH", "Classpath-exception-2.0");
    var pair := ("GPL-2.0", "Classpath-exception-2.0");
    assert pair in ALLOWED_WITH && Lower(pair.0) == Lower(FullName("GPL-2.0"));
  }

  lemma MitIsName()
    ensures AllWord("MIT") && IsName("MIT") && "MIT" in ALLOWED_IDS && SameLetters("MIT", "MIT")
  {
    assert |Upper("MIT")| == 3 && Upper("MIT")[0] == 'M';
  }

  lemma LgplIsName()
    ensures AllWord("lgpl-2.1") && AllWord("lgpl-2.1" + "-or-later") && IsName("lgpl-2.1" + "-or-later")
    ensures SameLetters("lgpl-2.1" + "-or-later", "LGPL-2.1-or-later") && "LGPL-2.1-or-later" in ALLOWED_IDS
  {
    assert |"lgpl-2.1" + "-or-later"| == |"LGPL-2.1-or-later"| == 17;
    assert AllWord("lgpl-2.1" + "-or-later");
    LongIsName("lgpl-2.1" + "-or-later");
  }

  lemma ClasspathIsPair()
    ensures IsToken("GPL-2.0") && IsName("GPL-2.0") && IsToken("WITH") && IsOp("WITH", "WITH")
    ensures IsToken("Classpath-exception-2.0") && ("GPL-2.0", "Classpath-exception-2.0") in ALLOWED_WITH
    ensures FullName("GPL-2.0") == "GPL-2.0" && FullName("Classpath-exception-2.0") == "Classpath-exception-2.0"
  {
    hide IsToken, IsName, AllWord, IsOp;
    GplIsName();
    ExceptionIsWord();
    WithIsOp();
  }

  lemma GplIsName()
    ensures IsToken("GPL-2.0") && IsName("GPL-2.0")
  {
    LongIsName("GPL-2.0");
  }

  lemma ExceptionIsWord()
    ensures IsToken("Classpath-exception-2.0")
  {
  }

  lemma WithIsOp()
    ensures IsToken("WITH") && IsOp("WITH", "WITH")
  {
    OperatorsFoldCase("WITH");
  }

  // ---------------------------------------------------------------- why a signal is refused

  /** The reason of every refusal outside the table: nothing declared exactly for white space, a
      parse error exactly for texts that spell no expression, and otherwise a name or pair that is
      not allowed. A table spelling is refused with what it stands for. */
  lemma RefusalsTell(signal: string, p: Policy)
    ensures Evaluate(signal, p) == NoLicence <==> forall c :: c in signal ==> IsSpace(c)
    ensures Evaluate(signal, p) == Unparseable <==>
              && Strip(signal) != "" && !InTable(signal, p)
              && !exists e :: Legal(e) && Yield(e) == Tokens(signal)
    ensures Evaluate(signal, p).NormalisedTo? ==>
              InTable(signal, p) && Evaluate(signal, p).id == p.normalise[Lower(Strip(signal))]
  {
    TokensOfStrip(signal);
    ParserDecidesTheLanguage(Tokens(signal));
    StripsToNothing(signal);
  }

  lemma StripsToNothing(s: string)
    ensures Strip(s) == "" <==> forall c :: c in s ==> IsSpace(c)
  {
    StripTells(s);
    var before, after :| s == before + Strip(s) + after && forall c :: c in before + after ==> IsSpace(c);
    if Strip(s) != "" {
      assert s[|before|] == Strip(s)[0] && s[|before|] in s;
    } else {
      assert s == before + after;
    }
  }

  /** The array drops empty entries and nothing else, and keeps their order. */
  lemma {:induction false} NonEmptyTells(a: seq<string>, b: seq<string>)
    ensures NonEmpty(a + b) == NonEmpty(a) + NonEmpty(b)
    decreases |a|
  {
    if a == [] {
      assert a + b == b;
      assert [] + NonEmpty(b) == NonEmpty(b);
    } else {
      assert (a + b)[0] == a[0] && (a + b)[1..] == a[1..] + b;
      NonEmptyTells(a[1..], b);
      var first := if a[0] == "" then [] else [a[0]];
      assert first + (NonEmpty(a[1..]) + NonEmpty(b)) == first + NonEmpty(a[1..]) + NonEmpty(b);
    }
  }

  lemma NonEmptyOne(e: string)
    ensures NonEmpty([e]) == if e == "" then [] else [e]
  {
    assert [e][1..] == [] && NonEmpty([]) == [];
  }
}
