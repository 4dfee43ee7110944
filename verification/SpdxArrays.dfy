/** The legacy licenses array of npm: what joining its entries by OR keeps, and what it loses. */
module SpdxArrays {
  import opened SpdxTokens
  import opened SpdxGrammar
  import opened SpdxPolicy

  const OR_SEPARATOR := " OR "

  /** The signal _npm_signal makes of a legacy licenses array; empty entries are dropped. */
  function NpmSignal(entries: seq<string>): string {
    Join(OR_SEPARATOR, NonEmpty(entries))
  }

  function NonEmpty(entries: seq<string>): seq<string> {
    if entries == [] then []
    else (if entries[0] == "" then [] else [entries[0]]) + NonEmpty(entries[1..])
  }

  predicate Parses(text: string) {
    ParseAll(Tokens(text)).Done?
  }

  lemma {:induction false} OrJoinsAll(parts: seq<string>, p: Policy)
    requires parts != [] && forall part :: part in parts ==> Parses(part)
    ensures Parses(Join(OR_SEPARATOR, parts))
    ensures ParseValue(Tokens(Join(OR_SEPARATOR, parts)), p) == Yes
            <==> exists part :: part in parts && ParseValue(Tokens(part), p) == Yes
    decreases |parts|
  {
    hide Tokens, ParseAll, Value;
    if |parts| > 1 {
      assert parts[0] in parts;
      var a, b := parts[0], Join(OR_SEPARATOR, parts[1..]);
      OrJoinsAll(parts[1..], p);
      SeparatorSplits(a, b);
      OrJoinsTwo(Tokens(a), Tokens(b), p);
      assert forall part :: part in parts <==> part == a || part in parts[1..];
    }
  }

  lemma SeparatorSplits(a: string, b: string)
    ensures Tokens(a + OR_SEPARATOR + b) == Tokens(a) + ["OR"] + Tokens(b)
  {
    assert a + OR_SEPARATOR + b == (a + [' '] + "OR") + [' '] + b;
    TokensSplit(a + [' '] + "OR", ' ', b);
    TokensSplit(a, ' ', "OR");
    TokensOfToken("OR");
  }

  /** A licenses array whose entries each parse is allowed exactly if the expression one of its
      entries spells is. */
  lemma ArrayMeansAnyOf(entries: seq<string>, p: Policy)
    requires NonEmpty(entries) != [] && forall part :: part in NonEmpty(entries) ==> Parses(part)
    requires Lower(Strip(NpmSignal(entries))) !in p.normalise
    ensures Evaluate(NpmSignal(entries), p) == Yes
            <==> exists part :: part in NonEmpty(entries) && ParseValue(Tokens(part), p) == Yes
  {
    var signal := NpmSignal(entries);
    OrJoinsAll(NonEmpty(entries), p);
    TokensOfStrip(signal);
  }

  // ---------------------------------------------------------------- the table and the array

  /** A spelling the table accepts. */
  predicate Spelling(signal: string, p: Policy) {
    var text := Strip(signal);
    text != "" && Lower(text) in p.normalise && Lower(p.normalise[Lower(text)]) in p.ids
  }

  predicate InTable(signal: string, p: Policy) {
    Lower(Strip(signal)) in p.normalise
  }

  /** No spelling of the table is refused. */
  predicate TableAccepts(p: Policy) {
    forall k :: k in p.normalise ==> Lower(p.normalise[k]) in p.ids
  }

  predicate Spells(signal: string, p: Policy) {
    ParseValue(Tokens(signal), p) == Yes
  }

  predicate Alone(signal: string, p: Policy) {
    Evaluate(signal, p) == Yes
  }

  /** A signal is allowed alone as a spelling the table accepts, or outside the table as an
      allowed expression. */
  lemma AloneMeans(signal: string, p: Policy)
    ensures Alone(signal, p) <==> Spelling(signal, p) || (!InTable(signal, p) && Spells(signal, p))
    ensures Spells(signal, p) ==> Strip(signal) != ""
  {
    TokensOfStrip(signal);
  }

  predicate SomeAlone(entries: seq<string>, p: Policy) {
    exists part :: part in NonEmpty(entries) && Alone(part, p)
  }

  predicate SomeSpelling(entries: seq<string>, p: Policy) {
    exists part :: part in NonEmpty(entries) && Spelling(part, p)
  }

  predicate SomeSpells(entries: seq<string>, p: Policy) {
    exists part :: part in NonEmpty(entries) && Spells(part, p)
  }

  predicate Joinable(entries: seq<string>, p: Policy) {
    && NonEmpty(entries) != []
    && (forall part :: part in NonEmpty(entries) ==> Parses(part))
    && !InTable(NpmSignal(entries), p)
  }

  /** When no entry is in the table, an array is allowed exactly if one of its entries alone is. */
  lemma ArrayOutsideTheTable(entries: seq<string>, p: Policy)
    requires Joinable(entries, p) && forall part :: part in NonEmpty(entries) ==> !InTable(part, p)
    ensures Alone(NpmSignal(entries), p) <==> SomeAlone(entries, p)
  {
    hide Evaluate, Strip, Lower, ParseValue, Parses, NpmSignal;
    ArrayIsSpelled(entries, p);
    forall part | part in NonEmpty(entries) ensures Alone(part, p) <==> Spells(part, p) {
      AloneMeans(part, p);
    }
  }

  lemma ArrayIsSpelled(entries: seq<string>, p: Policy)
    requires Joinable(entries, p)
    ensures Alone(NpmSignal(entries), p) <==> SomeSpells(entries, p)
  {
    hide Evaluate, ParseValue, Parses, NpmSignal;
    ArrayMeansAnyOf(entries, p);
    if Alone(NpmSignal(entries), p) {
      var part :| part in NonEmpty(entries) && ParseValue(Tokens(part), p) == Yes;
      assert Spells(part, p);
    }
  }

  /** Exactly when an entry allowed alone is lost: when some entry is a spelling the table accepts
      and no entry spells an allowed expression. */
  lemma AllowedEntryIsLost(entries: seq<string>, p: Policy)
    requires Joinable(entries, p)
    ensures SomeAlone(entries, p) && !Alone(NpmSignal(entries), p)
            <==> SomeSpelling(entries, p) && !SomeSpells(entries, p)
  {
    hide Evaluate, Spelling, InTable, ParseValue, Parses, NpmSignal;
    ArrayIsSpelled(entries, p);
    forall part | part in NonEmpty(entries)
      ensures Alone(part, p) <==> Spelling(part, p) || (!InTable(part, p) && Spells(part, p))
    {
      AloneMeans(part, p);
    }
  }

  /** Under a table that refuses nothing that is the only way to differ: array and entries agree
      exactly when no accepted spelling stands there without an allowed expression. */
  lemma ArrayAgreesExactly(entries: seq<string>, p: Policy)
    requires Joinable(entries, p) && TableAccepts(p)
    ensures (Alone(NpmSignal(entries), p) <==> SomeAlone(entries, p))
            <==> (SomeSpelling(entries, p) ==> SomeSpells(entries, p))
  {
    hide Evaluate, ParseValue, Parses, NpmSignal, Strip, Lower;
    AllowedEntryIsLost(entries, p);
    ArrayIsSpelled(entries, p);
    if SomeSpells(entries, p) {
      var part :| part in NonEmpty(entries) && Spells(part, p);
      AloneMeans(part, p);
      assert Alone(part, p);
    }
  }

  /** A licence name alone. */
  lemma NameMeans(t: string, p: Policy)
    requires IsToken(t) && IsName(t)
    ensures Parses(t) && (Spells(t, p) <==> Allowed(Licence(t), p))
  {
    hide IsToken, IsName, Tokens;
    TokensOfToken(t);
    var e := Expr(AndExpr(Name(t), NoAnd), NoOr);
    assert YieldWith(Name(t)) == [t] && YieldAnd(AndExpr(Name(t), NoAnd)) == [t];
    assert Yield(e) == [t];
    assert LegalAnd(AndExpr(Name(t), NoAnd));
    assert ValueAnd(AndExpr(Name(t), NoAnd), p) <==> ValueWith(Name(t), p);
    assert Value(e, p) <==> Allowed(Licence(t), p);
    ParserDecidesTheLanguage([t]);
    assert Legal(e);
    assert ParseAll(Tokens(t)) == Done(e, []);
  }

  lemma TwoEntries(x: string, y: string)
    requires x != "" && y != ""
    ensures NonEmpty([x, y]) == [x, y] && NpmSignal([x, y]) == x + OR_SEPARATOR + y
  {
    assert NonEmpty([y]) == [y] && [x, y][1..] == [y];
    assert NonEmpty([x, y]) == [x] + NonEmpty([y]);
    assert Join(OR_SEPARATOR, [y]) == y;
  }

  lemma StripOfJoin(a: string, b: string)
    requires IsToken(a) && IsToken(b)
    ensures Strip(a + OR_SEPARATOR + b) == a + OR_SEPARATOR + b
  {
    var s := a + OR_SEPARATOR + b;
    assert s[0] == a[0] && a[0] in a && s[|s| - 1] == b[|b| - 1] && b[|b| - 1] in b;
    TightStrips(s);
  }

  lemma TightStrips(s: string)
    requires s != "" && !IsSpace(s[0]) && !IsSpace(s[|s| - 1])
    ensures Strip(s) == s
  {
    assert TrimLeft(s) == s && TrimRight(s) == s;
  }

  /** A one-word spelling is lost beside a name that is not allowed. */
  lemma SpellingBesideName(a: string, b: string, p: Policy)
    requires IsToken(a) && IsName(a) && IsToken(b) && IsName(b)
    requires Spelling(a, p) && !Allowed(Licence(a), p) && !Allowed(Licence(b), p)
    requires !InTable(a + OR_SEPARATOR + b, p)
    ensures Joinable([a, b], p) && Alone(a, p) && !Alone(NpmSignal([a, b]), p)
  {
    hide IsToken, IsName, Tokens, Evaluate, Spelling, InTable, Parses, Spells, Allowed, NpmSignal, NonEmpty;
    NameMeans(a, p);
    NameMeans(b, p);
    TokenIsSome(a);
    TokenIsSome(b);
    TwoEntries(a, b);
    AloneMeans(a, p);
    var parts := NonEmpty([a, b]);
    assert parts[0] == a && forall part :: part in parts ==> part == a || part == b;
    assert SomeSpelling([a, b], p);
    assert SomeAlone([a, b], p);
    AllowedEntryIsLost([a, b], p);
  }

  lemma TokenIsSome(t: string)
    requires IsToken(t)
    ensures t != ""
  {
  }

  // ---------------------------------------------------------------- spellings of several words

  /** Two names in a row, as in a spelling of several words. */
  predicate TwoNames(ts: seq<string>) {
    exists i :: 0 <= i && i + 1 < |ts| && IsName(ts[i]) && IsName(ts[i + 1])
  }

  lemma NamesBetween(ts: seq<string>, op: string, us: seq<string>)
    requires !IsName(op) && !TwoNames(ts) && !TwoNames(us)
    ensures !TwoNames(ts + [op] + us)
  {
    hide IsName;
    var all := ts + [op] + us;
    forall i | 0 <= i && i + 1 < |all| ensures !(IsName(all[i]) && IsName(all[i + 1])) {
      if i + 1 < |ts| {
        assert all[i] == ts[i] && all[i + 1] == ts[i + 1];
      } else if i > |ts| {
        assert all[i] == us[i - |ts| - 1] && all[i + 1] == us[i - |ts|];
      } else {
        assert all[|ts|] == op;
      }
    }
  }

  /** No expression has two names in a row. */
  lemma {:induction false} NamesStandApart(e: Expr)
    requires Legal(e)
    ensures !TwoNames(Yield(e))
    decreases e, 1
  {
    hide TwoNames, IsName;
    NamesStandApartAnd(e.first);
    NamesStandApartOrRest(YieldAnd(e.first), e.rest);
  }

  lemma {:induction false} NamesStandApartOrRest(ts: seq<string>, r: OrRest)
    requires LegalOrRest(r) && !TwoNames(ts)
    ensures !TwoNames(ts + YieldOrRest(r))
    decreases r, 1
  {
    hide TwoNames, IsName;
    if r.OrMore? {
      OperatorIsNoName(r.op, "OR");
      NamesStandApartAnd(r.operand);
      NamesBetween(ts, r.op, YieldAnd(r.operand));
      NamesStandApartOrRest(ts + [r.op] + YieldAnd(r.operand), r.more);
      assert ts + YieldOrRest(r) == ts + [r.op] + YieldAnd(r.operand) + YieldOrRest(r.more);
    } else {
      assert ts + YieldOrRest(r) == ts;
    }
  }

  lemma {:induction false} NamesStandApartAnd(a: AndExpr)
    requires LegalAnd(a)
    ensures !TwoNames(YieldAnd(a))
    decreases a, 1
  {
    hide TwoNames, IsName;
    NamesStandApartWith(a.first);
    NamesStandApartAndRest(YieldWith(a.first), a.rest);
  }

  lemma {:induction false} NamesStandApartAndRest(ts: seq<string>, r: AndRest)
    requires LegalAndRest(r) && !TwoNames(ts)
    ensures !TwoNames(ts + YieldAndRest(r))
    decreases r, 1
  {
    hide TwoNames, IsName;
    if r.AndMore? {
      OperatorIsNoName(r.op, "AND");
      NamesStandApartWith(r.operand);
      NamesBetween(ts, r.op, YieldWith(r.operand));
      NamesStandApartAndRest(ts + [r.op] + YieldWith(r.operand), r.more);
      assert ts + YieldAndRest(r) == ts + [r.op] + YieldWith(r.operand) + YieldAndRest(r.more);
    } else {
      assert ts + YieldAndRest(r) == ts;
    }
  }

  lemma {:induction false} NamesStandApartWith(w: WithExpr)
    requires LegalWith(w)
    ensures !TwoNames(YieldWith(w))
    decreases w, 1
  {
    if w.Group? {
      NamesStandApart(w.inner);
      OperatorIsNoName("OR", "OR");
      NamesBetween([], "(", Yield(w.inner));
      NamesBetween([] + ["("] + Yield(w.inner), ")", []);
      assert YieldWith(w) == [] + ["("] + Yield(w.inner) + [")"] + [];
    } else if w.NameWith? {
      OperatorIsNoName(w.op, "WITH");
    }
  }

  lemma OperatorIsNoName(t: string, op: string)
    requires IsOp(t, op) && op in {"AND", "OR", "WITH"}
    ensures !IsName(t) && !IsName("(") && !IsName(")")
  {
    hide Upper;
  }

  lemma TwoNamesAround(a: seq<string>, ts: seq<string>, b: seq<string>)
    requires TwoNames(ts)
    ensures TwoNames(a + ts + b)
  {
    hide IsName;
    var i :| 0 <= i && i + 1 < |ts| && IsName(ts[i]) && IsName(ts[i + 1]);
    var all := a + ts + b;
    assert all[|a| + i] == ts[i] && all[|a| + i + 1] == ts[i + 1];
  }

  lemma {:induction false} JoinKeepsNames(parts: seq<string>, part: string)
    requires part in parts && TwoNames(Tokens(part))
    ensures TwoNames(Tokens(Join(OR_SEPARATOR, parts)))
  {
    hide Tokens, TwoNames;
    if |parts| > 1 {
      var a, b := parts[0], Join(OR_SEPARATOR, parts[1..]);
      SeparatorSplits(a, b);
      if part == a {
        TwoNamesAround([], Tokens(a), ["OR"] + Tokens(b));
        assert [] + Tokens(a) + (["OR"] + Tokens(b)) == Tokens(a) + ["OR"] + Tokens(b);
      } else {
        JoinKeepsNames(parts[1..], part);
        TwoNamesAround(Tokens(a) + ["OR"], Tokens(b), []);
        assert Tokens(a) + ["OR"] + Tokens(b) + [] == Tokens(a) + ["OR"] + Tokens(b);
      }
    }
  }

  /** A spelling of several words that the table accepts makes every array it stands in
      unparseable, whatever else the array holds, unless the table has the joined text too. */
  lemma SpellingsAreLostInArrays(entries: seq<string>, part: string, p: Policy)
    requires part in NonEmpty(entries) && Spelling(part, p) && TwoNames(Tokens(part))
    requires !InTable(NpmSignal(entries), p)
    ensures Alone(part, p)
    ensures Evaluate(NpmSignal(entries), p) == Unparseable
  {
    hide TwoNames, ParseAll, Strip, Lower;
    var signal := NpmSignal(entries);
    JoinKeepsNames(NonEmpty(entries), part);
    TokensOfStrip(signal);
    var ts := Tokens(signal);
    ParserDecidesTheLanguage(ts);
    if ParseAll(ts).Done? {
      NamesStandApart(ParseAll(ts).value);
    }
    assert Strip(signal) != "" by {
      if Strip(signal) == "" {
        TokensOfNothing();
        NothingHasNoNames();
      }
    }
  }

  lemma NothingHasNoNames()
    ensures !TwoNames([])
  {
  }

  /** The two-word case, spelled out. */
  lemma TwoWordsAreTwoNames(a: string, b: string)
    requires IsToken(a) && IsToken(b) && IsName(a) && IsName(b)
    ensures Tokens(a + " " + b) == [a, b] && TwoNames(Tokens(a + " " + b))
  {
    hide IsName, Tokens, IsToken;
    TokensSplit(a, ' ', b);
    assert a + [' '] + b == a + " " + b;
    TokensOfToken(a);
    TokensOfToken(b);
    var ts := Tokens(a + " " + b);
    assert ts[0] == a && ts[1] == b;
  }

  // ---------------------------------------------------------------- entries that do not parse

  /** How many groups are open after some tokens, and whether a WITH still waits for its operand,
      which may be any token. */
  function Scan(ts: seq<string>, depth: int, waits: bool): (int, bool) {
    if ts == [] then (depth, waits)
    else
      var (d, w) := After(ts[0], depth, waits);
      Scan(ts[1..], d, w)
  }

  function After(t: string, depth: int, waits: bool): (int, bool) {
    if waits then (depth, false)
    else if t == "(" then (depth + 1, false)
    else if t == ")" then (depth - 1, false)
    else (depth, IsOp(t, "WITH"))
  }

  lemma ScanOne(t: string, depth: int, waits: bool)
    ensures Scan([t], depth, waits) == After(t, depth, waits)
  {
    hide After;
    assert [t][1..] == [];
    var (d, w) := After(t, depth, waits);
    assert Scan([], d, w) == (d, w);
  }

  lemma {:induction false} ScanAppend(a: seq<string>, b: seq<string>, depth: int, waits: bool)
    ensures Scan(a + b, depth, waits) == Scan(b, Scan(a, depth, waits).0, Scan(a, depth, waits).1)
    decreases |a|
  {
    hide After;
    if a == [] {
      assert a + b == b;
    } else {
      assert (a + b)[0] == a[0] && (a + b)[1..] == a[1..] + b;
      var (d, w) := After(a[0], depth, waits);
      ScanAppend(a[1..], b, d, w);
    }
  }

  /** A token list that a following OR cannot be drawn into: no group is open, no WITH waits. */
  predicate Closed(ts: seq<string>) {
    Scan(ts, 0, false).0 <= 0 && !Scan(ts, 0, false).1
  }

  /** Tokens that open and close their groups: the depth is the same after them, and nowhere less. */
  ghost predicate Even(ts: seq<string>, depth: int) {
    Scan(ts, depth, false) == (depth, false) && forall k :: 0 <= k <= |ts| ==> Scan(ts[..k], depth, false).0 >= depth
  }

  lemma EvenCat(a: seq<string>, b: seq<string>, depth: int)
    requires Even(a, depth) && Even(b, depth)
    ensures Even(a + b, depth)
  {
    hide Scan;
    ScanAppend(a, b, depth, false);
    forall k | 0 <= k <= |a + b| ensures Scan((a + b)[..k], depth, false).0 >= depth {
      if k <= |a| {
        assert (a + b)[..k] == a[..k];
      } else {
        assert (a + b)[..k] == a + b[..k - |a|];
        ScanAppend(a, b[..k - |a|], depth, false);
      }
    }
  }

  lemma EvenToken(t: string, depth: int)
    requires t != "(" && t != ")" && !IsOp(t, "WITH")
    ensures Even([t], depth)
  {
    ScanOne(t, depth, false);
    assert [t][..0] == [] && [t][..1] == [t];
  }

  lemma EvenPair(id: string, op: string, exc: string, depth: int)
    requires IsName(id) && IsOp(op, "WITH")
    ensures Even([id, op, exc], depth)
  {
    PairScans(id, op, exc, depth);
    var ts := [id, op, exc];
    assert ts[..0] == [] && ts[..1] == [id] && ts[..2] == [id, op] && ts[..3] == ts;
    ScanNothing(depth);
  }

  lemma PairScans(id: string, op: string, exc: string, depth: int)
    requires IsName(id) && IsOp(op, "WITH")
    ensures Scan([id], depth, false) == (depth, false) && Scan([id, op], depth, false) == (depth, true)
    ensures Scan([id, op, exc], depth, false) == (depth, false)
  {
    assert |Upper(op)| == 4;
    assert After(id, depth, false) == (depth, false) && After(op, depth, false) == (depth, true);
    assert After(exc, depth, true) == (depth, false);
    hide After;
    ScanOne(id, depth, false);
    ScanOne(op, depth, false);
    ScanOne(exc, depth, true);
    ScanAppend([id], [op], depth, false);
    ScanAppend([id] + [op], [exc], depth, false);
    assert [id] + [op] == [id, op] && [id, op] + [exc] == [id, op, exc];
  }

  lemma EvenGroup(ts: seq<string>, depth: int)
    requires Even(ts, depth + 1)
    ensures Even(["("] + ts + [")"], depth)
    ensures forall k :: 0 < k <= 1 + |ts| ==> Scan((["("] + ts + [")"])[..k], depth, false).0 > depth
  {
    var all := ["("] + ts + [")"];
    ScanOne("(", depth, false);
    ScanOne(")", depth + 1, false);
    hide Scan;
    ScanAppend(["("], ts, depth, false);
    ScanAppend(["("] + ts, [")"], depth, false);
    forall k | 0 < k <= 1 + |ts| ensures Scan(all[..k], depth, false).0 > depth {
      assert all[..k] == ["("] + ts[..k - 1];
      ScanAppend(["("], ts[..k - 1], depth, false);
    }
    forall k | 0 <= k <= |all| ensures Scan(all[..k], depth, false).0 >= depth {
      if k == 0 {
        ScanNothing(depth);
        assert all[..0] == [];
      } else if k == |all| {
        assert all[..k] == all;
      }
    }
  }

  lemma ScanNothing(depth: int)
    ensures Scan([], depth, false) == (depth, false)
  {
  }

  lemma {:induction false} EvenExpr(e: Expr, depth: int)
    requires Legal(e)
    ensures Even(Yield(e), depth)
    decreases e, 1
  {
    hide Even, IsOp;
    EvenAnd(e.first, depth);
    EvenOrRest(e.rest, depth);
    EvenCat(YieldAnd(e.first), YieldOrRest(e.rest), depth);
  }

  lemma {:induction false} EvenOrRest(r: OrRest, depth: int)
    requires LegalOrRest(r)
    ensures Even(YieldOrRest(r), depth)
    decreases r, 1
  {
    if r.OrMore? {
      OtherWord(r.op, "OR");
      EvenToken(r.op, depth);
      hide Even, IsOp;
      EvenAnd(r.operand, depth);
      EvenOrRest(r.more, depth);
      EvenCat([r.op], YieldAnd(r.operand), depth);
      EvenCat([r.op] + YieldAnd(r.operand), YieldOrRest(r.more), depth);
    }
  }

  lemma {:induction false} EvenAnd(a: AndExpr, depth: int)
    requires LegalAnd(a)
    ensures Even(YieldAnd(a), depth)
    decreases a, 1
  {
    hide Even, IsOp;
    EvenWith(a.first, depth);
    EvenAndRest(a.rest, depth);
    EvenCat(YieldWith(a.first), YieldAndRest(a.rest), depth);
  }

  lemma {:induction false} EvenAndRest(r: AndRest, depth: int)
    requires LegalAndRest(r)
    ensures Even(YieldAndRest(r), depth)
    decreases r, 1
  {
    if r.AndMore? {
      OtherWord(r.op, "AND");
      EvenToken(r.op, depth);
      hide Even, IsOp;
      EvenWith(r.operand, depth);
      EvenAndRest(r.more, depth);
      EvenCat([r.op], YieldWith(r.operand), depth);
      EvenCat([r.op] + YieldWith(r.operand), YieldAndRest(r.more), depth);
    }
  }

  lemma {:induction false} EvenWith(w: WithExpr, depth: int)
    requires LegalWith(w)
    ensures Even(YieldWith(w), depth)
    decreases w, 1
  {
    hide Even;
    match w
    case Name(id) => EvenToken(id, depth);
    case NameWith(id, op, exc) => EvenPair(id, op, exc, depth);
    case Group(inner) =>
      EvenExpr(inner, depth + 1);
      EvenGroup(Yield(inner), depth);
  }

  lemma OtherWord(t: string, op: string)
    requires IsOp(t, op) && op in {"AND", "OR"}
    ensures t != "(" && t != ")" && !IsOp(t, "WITH")
  {
    assert |Upper(t)| >= 2;
    hide Upper;
  }

  /** Token k of some tokens is inside a group, or is the operand of a WITH. */
  predicate Drawn(ts: seq<string>, k: nat)
    requires k <= |ts|
  {
    !Closed(ts[..k])
  }

  lemma DrawnBehind(a: seq<string>, ts: seq<string>, b: seq<string>, k: nat)
    requires k < |ts| && Even(a, 0) && Drawn(ts, k)
    ensures Drawn(a + ts + b, |a| + k)
  {
    hide Scan;
    assert (a + ts + b)[..|a| + k] == a + ts[..k];
    ScanAppend(a, ts[..k], 0, false);
  }

  /** In a conjunction, an OR stands in a group or after a WITH. */
  lemma {:induction false} OrInAnd(a: AndExpr, k: nat)
    requires LegalAnd(a) && k < |YieldAnd(a)| && IsOp(YieldAnd(a)[k], "OR")
    ensures Drawn(YieldAnd(a), k)
  {
    var w, r := YieldWith(a.first), YieldAndRest(a.rest);
    NothingIsEven();
    hide Drawn, IsOp, Even;
    EvenWith(a.first, 0);
    if k < |w| {
      OrInWith(a.first, k);
      DrawnBehind([], w, r, k);
      assert [] + w + r == YieldAnd(a);
    } else {
      OrInAndRest(a.rest, k - |w|);
      DrawnBehind(w, r, [], k - |w|);
      assert w + r + [] == YieldAnd(a);
    }
  }

  lemma NothingIsEven()
    ensures Even([], 0)
  {
  }

  lemma {:induction false} OrInAndRest(r: AndRest, k: nat)
    requires LegalAndRest(r) && k < |YieldAndRest(r)| && IsOp(YieldAndRest(r)[k], "OR")
    ensures Drawn(YieldAndRest(r), k)
  {
    hide Drawn, Even;
    if r.AndMore? {
      var w, more := YieldWith(r.operand), YieldAndRest(r.more);
      assert YieldAndRest(r) == [r.op] + w + more;
      assert k > 0;
      OtherWord(r.op, "AND");
      EvenToken(r.op, 0);
      hide IsOp;
      if k <= |w| {
        OrInWith(r.operand, k - 1);
        DrawnBehind([r.op], w, more, k - 1);
      } else {
        EvenWith(r.operand, 0);
        EvenCat([r.op], w, 0);
        OrInAndRest(r.more, k - 1 - |w|);
        DrawnBehind([r.op] + w, more, [], k - 1 - |w|);
        assert [r.op] + w + more + [] == YieldAndRest(r);
      }
    }
  }

  lemma OrInWith(w: WithExpr, k: nat)
    requires LegalWith(w) && k < |YieldWith(w)| && IsOp(YieldWith(w)[k], "OR")
    ensures Drawn(YieldWith(w), k)
  {
    match w
    case Name(id) =>
    case NameWith(id, op, exc) =>
      assert k == 2;
      PairWaits(id, op, exc);
    case Group(inner) =>
      ParensAreNoWords();
      hide Scan, Even, IsOp;
      EvenExpr(inner, 1);
      EvenGroup(Yield(inner), 0);
  }

  lemma ParensAreNoWords()
    ensures !IsOp("(", "OR") && !IsOp(")", "OR")
  {
    assert |Upper("(")| == 1 && |Upper(")")| == 1;
  }

  lemma PairWaits(id: string, op: string, exc: string)
    requires IsName(id) && IsOp(op, "WITH")
    ensures Drawn([id, op, exc], 2)
  {
    PairScans(id, op, exc, 0);
    assert [id, op, exc][..2] == [id, op];
  }

  lemma FrontReaches(e: Expr, front: seq<string>, op: string, back: seq<string>)
    requires Legal(e) && Yield(e) == front + [op] + back && IsOp(op, "OR") && Closed(front)
    ensures |YieldAnd(e.first)| <= |front|
  {
    hide IsOp, Closed;
    var a, all := YieldAnd(e.first), Yield(e);
    assert all == a + YieldOrRest(e.rest);
    if |front| < |a| {
      assert a[|front|] == all[|front|] == op;
      assert a[..|front|] == all[..|front|] == front;
      OrInAnd(e.first, |front|);
    }
  }

  lemma SplitBehind(front: seq<string>, op: string, back: seq<string>, a: seq<string>, t: string, n: seq<string>)
    requires front + [op] + back == a + ([t] + n) && |a| <= |front|
    ensures |front| == |a| ==> front == a && n == back
    ensures |front| > |a| ==>
              var rest := front[|a| + 1..];
              front == a + ([t] + rest) && n == rest + [op] + back
  {
    var all := front + [op] + back;
    assert all[..|a|] == a && all[..|front|] == front && all[|a| + 1..] == n && all[|a|] == t;
    if |front| == |a| {
      assert all[|front| + 1..] == back;
    } else {
      var rest := front[|a| + 1..];
      assert front[..|a|] == a && front[|a|] == t;
      assert all[|a| + 1..] == rest + [op] + back;
    }
  }

  lemma YieldParts(e: Expr)
    requires Legal(e)
    ensures e.rest.NoOr? ==> Yield(e) == YieldAnd(e.first)
    ensures e.rest.OrMore? ==>
              var next := Expr(e.rest.operand, e.rest.more);
              Legal(next) && IsOp(e.rest.op, "OR") && Yield(e) == YieldAnd(e.first) + ([e.rest.op] + Yield(next))
  {
    hide IsOp;
  }

  lemma ClosedRest(a: seq<string>, t: string, rest: seq<string>)
    requires Even(a, 0) && IsOp(t, "OR") && Closed(a + ([t] + rest))
    ensures Closed(rest)
  {
    OtherWord(t, "OR");
    ScanOne(t, 0, false);
    hide Scan, IsOp;
    ScanAppend(a, [t] + rest, 0, false);
    ScanAppend([t], rest, 0, false);
  }

  /** An expression with an OR behind a closed front is two expressions joined by it. */
  lemma {:induction false} OrSplits(e: Expr, front: seq<string>, op: string, back: seq<string>)
    returns (d: Expr, f: Expr)
    requires Legal(e) && Yield(e) == front + [op] + back && IsOp(op, "OR") && Closed(front)
    ensures Legal(d) && Yield(d) == front && Legal(f) && Yield(f) == back
    decreases e.rest
  {
    hide IsOp, Closed, Even, Yield, YieldAnd;
    FrontReaches(e, front, op, back);
    YieldParts(e);
    var a := YieldAnd(e.first);
    assert |Yield(e)| == |front| + 1 + |back|;
    assert e.rest.OrMore?;
    var next := Expr(e.rest.operand, e.rest.more);
    SplitBehind(front, op, back, a, e.rest.op, Yield(next));
    if |front| == |a| {
      d, f := Expr(e.first, NoOr), next;
    } else {
      var rest := front[|a| + 1..];
      EvenAnd(e.first, 0);
      ClosedRest(a, e.rest.op, rest);
      var g;
      g, f := OrSplits(next, rest, op, back);
      d := Expr(e.first, OrMore(e.rest.op, g.first, g.rest));
      assert Expr(d.rest.operand, d.rest.more) == g;
    }
    assert Legal(d);
    YieldParts(d);
  }

  lemma OrJoinsOnlyExpressions(front: seq<string>, back: seq<string>)
    requires Closed(front) && ParseAll(front + ["OR"] + back).Done?
    ensures ParseAll(front).Done? && ParseAll(back).Done?
  {
    hide Closed;
    var ts := front + ["OR"] + back;
    ParserDecidesTheLanguage(ts);
    assert IsOp("OR", "OR");
    var d, f := OrSplits(ParseAll(ts).value, front, "OR", back);
    ParserDecidesTheLanguage(front);
    ParserDecidesTheLanguage(back);
  }

  /** What parses is closed. */
  lemma ParsedIsClosed(ts: seq<string>)
    requires ParseAll(ts).Done?
    ensures Closed(ts)
  {
    ParserDecidesTheLanguage(ts);
    EvenExpr(ParseAll(ts).value, 0);
  }

  // ---------------------------------------------------------------- any array at all

  /** The entries as the parser takes them: one that leaves a group open, or a WITH waiting, draws
      the next one in. */
  function Pieces(parts: seq<string>): (r: seq<string>)
    ensures parts != [] ==> r != []
    decreases |parts|
  {
    if |parts| <= 1 then parts
    else if Closed(Tokens(parts[0])) then [parts[0]] + Pieces(parts[1..])
    else Pieces([parts[0] + OR_SEPARATOR + parts[1]] + parts[2..])
  }

  lemma JoinFront(a: string, parts: seq<string>)
    requires parts != []
    ensures Join(OR_SEPARATOR, [a] + parts) == a + OR_SEPARATOR + Join(OR_SEPARATOR, parts)
  {
    assert ([a] + parts)[1..] == parts;
  }

  /** The pieces join to the same text. */
  lemma {:induction false} PiecesJoin(parts: seq<string>)
    ensures Join(OR_SEPARATOR, Pieces(parts)) == Join(OR_SEPARATOR, parts)
    decreases |parts|
  {
    hide Join, Closed, Tokens;
    if |parts| > 1 {
      assert parts == [parts[0]] + parts[1..];
      JoinFront(parts[0], parts[1..]);
      if Closed(Tokens(parts[0])) {
        PiecesJoin(parts[1..]);
        JoinFront(parts[0], Pieces(parts[1..]));
      } else {
        DrawnJoins(parts);
        PiecesJoin([parts[0] + OR_SEPARATOR + parts[1]] + parts[2..]);
      }
    }
  }

  lemma JoinOne(a: string)
    ensures Join(OR_SEPARATOR, [a]) == a
  {
  }

  /** The join parses only if every piece does. */
  lemma {:induction false} PiecesParse(parts: seq<string>)
    requires parts != [] && Parses(Join(OR_SEPARATOR, parts))
    ensures forall piece :: piece in Pieces(parts) ==> Parses(piece)
    decreases |parts|
  {
    hide Join, Closed, Tokens, ParseAll;
    if |parts| == 1 {
      assert parts == [parts[0]];
      JoinOne(parts[0]);
    } else if Closed(Tokens(parts[0])) {
      assert parts == [parts[0]] + parts[1..];
      JoinFront(parts[0], parts[1..]);
      SeparatorSplits(parts[0], Join(OR_SEPARATOR, parts[1..]));
      OrJoinsOnlyExpressions(Tokens(parts[0]), Tokens(Join(OR_SEPARATOR, parts[1..])));
      PiecesParse(parts[1..]);
    } else {
      var drawn := [parts[0] + OR_SEPARATOR + parts[1]] + parts[2..];
      DrawnJoins(parts);
      PiecesParse(drawn);
    }
  }

  lemma DrawnJoins(parts: seq<string>)
    requires |parts| > 1
    ensures Join(OR_SEPARATOR, [parts[0] + OR_SEPARATOR + parts[1]] + parts[2..]) == Join(OR_SEPARATOR, parts)
  {
    hide Join;
    var drawn := parts[0] + OR_SEPARATOR + parts[1];
    assert parts == [parts[0]] + parts[1..];
    JoinFront(parts[0], parts[1..]);
    if |parts| > 2 {
      assert parts[1..] == [parts[1]] + parts[2..];
      JoinFront(parts[1], parts[2..]);
      JoinFront(drawn, parts[2..]);
      assert drawn + OR_SEPARATOR + Join(OR_SEPARATOR, parts[2..])
          == parts[0] + OR_SEPARATOR + (parts[1] + OR_SEPARATOR + Join(OR_SEPARATOR, parts[2..]));
    } else {
      assert parts[1..] == [parts[1]] && [drawn] + parts[2..] == [drawn];
      JoinOne(parts[1]);
      JoinOne(drawn);
    }
  }

  /** Every array, whatever its entries: a joined text the table has is decided by the table; any
      other is allowed exactly if every piece parses and one spells an allowed expression. */
  lemma ArrayMeans(entries: seq<string>, p: Policy)
    ensures var signal, pieces := NpmSignal(entries), Pieces(NonEmpty(entries));
            Alone(signal, p)
            <==> if InTable(signal, p) then Spelling(signal, p)
                 else (forall piece :: piece in pieces ==> Parses(piece))
                      && (exists piece :: piece in pieces && Spells(piece, p))
  {
    hide Tokens, ParseAll, Closed, Strip, Lower, Value;
    var signal, parts := NpmSignal(entries), NonEmpty(entries);
    var pieces := Pieces(parts);
    AloneMeans(signal, p);
    if parts == [] {
      NothingJoins(p);
    } else {
      PiecesJoin(parts);
      if Parses(signal) {
        PiecesParse(parts);
      }
      if forall piece :: piece in pieces ==> Parses(piece) {
        OrJoinsAll(pieces, p);
        assert forall piece :: Spells(piece, p) <==> ParseValue(Tokens(piece), p) == Yes;
      }
    }
  }

  lemma NothingJoins(p: Policy)
    ensures Join(OR_SEPARATOR, []) == "" && Strip("") == ""
  {
  }

  predicate AllParse(entries: seq<string>) {
    forall part :: part in NonEmpty(entries) ==> Parses(part)
  }

  predicate AllClosed(entries: seq<string>) {
    forall part :: part in NonEmpty(entries) ==> Parses(part) || Closed(Tokens(part))
  }

  lemma {:induction false} ClosedPieces(parts: seq<string>)
    requires forall part :: part in parts ==> Parses(part) || Closed(Tokens(part))
    ensures Pieces(parts) == parts
    decreases |parts|
  {
    hide Closed, Tokens, ParseAll;
    if |parts| > 1 {
      assert parts[0] in parts && parts == [parts[0]] + parts[1..];
      if Parses(parts[0]) {
        ParsedIsClosed(Tokens(parts[0]));
      }
      ClosedPieces(parts[1..]);
    }
  }

  /** When no entry leaves a group open or a WITH waiting, the array is allowed exactly if every
      entry parses and one spells an allowed expression. */
  lemma ClosedArrayMeans(entries: seq<string>, p: Policy)
    requires AllClosed(entries) && !InTable(NpmSignal(entries), p)
    ensures Alone(NpmSignal(entries), p) <==> AllParse(entries) && SomeSpells(entries, p)
  {
    hide Alone, InTable, Spelling, Parses, Spells, Closed;
    ArrayMeans(entries, p);
    ClosedPieces(NonEmpty(entries));
  }

  /** So in any array an entry allowed alone is lost exactly when the table does not accept the joined
      text and, unless the table has it, some piece does not parse or none is allowed. */
  lemma EntryIsLost(entries: seq<string>, p: Policy)
    ensures var signal, pieces := NpmSignal(entries), Pieces(NonEmpty(entries));
            SomeAlone(entries, p) && !Alone(signal, p)
            <==> && SomeAlone(entries, p)
                 && if InTable(signal, p) then !Spelling(signal, p)
                    else (exists piece :: piece in pieces && !Parses(piece))
                         || forall piece :: piece in pieces ==> !Spells(piece, p)
  {
    hide Alone, InTable, Spelling, Parses, Spells, Closed;
    ArrayMeans(entries, p);
  }

  /** With no entry that leaves a group open or a WITH waiting, it is lost exactly when some
      entry does not parse, or none spells an allowed expression and the allowed one was a spelling
      of the table. */
  lemma ClosedEntryIsLost(entries: seq<string>, p: Policy)
    requires AllClosed(entries) && !InTable(NpmSignal(entries), p)
    ensures SomeAlone(entries, p) && !Alone(NpmSignal(entries), p)
            <==> SomeAlone(entries, p) && (!AllParse(entries) || (SomeSpelling(entries, p) && !SomeSpells(entries, p)))
  {
    hide Tokens, ParseAll, Closed, Strip, Lower, Evaluate, Spelling, Parses, Spells;
    ClosedArrayMeans(entries, p);
    if AllParse(entries) && SomeAlone(entries, p) {
      AllowedEntryIsLost(entries, p);
    }
  }
}
