/** What a version writer and its reader owe each other: the written version is read back, a
    later write wins, writing what is there changes nothing, and two entries of one lockfile do
    not disturb each other. */
module VersionLaws {
  import opened Wrappers
  import opened VersionTexts

  predicate Quoteless(v: string) {
    '"' !in v
  }

  // ---------------------------------------------------------------- the only matching line

  lemma {:induction false} NoMatches(form: Form, lines: seq<string>)
    ensures Matches(form, lines) == 0 <==> forall i :: 0 <= i < |lines| ==> Recognize(form, lines[i]).None?
  {
    if lines != [] {
      NoMatches(form, lines[1..]);
      if forall i :: 0 <= i < |lines[1..]| ==> Recognize(form, lines[1..][i]).None? {
        forall i | 1 <= i < |lines| ensures Recognize(form, lines[i]).None? {
          assert lines[1..][i - 1] == lines[i];
        }
      }
    }
  }

  /** A form's only line is the one index recognized. */
  lemma {:induction false} OnlyIs(form: Form, lines: seq<string>, n: nat)
    ensures Only(form, lines) == Some(n) <==>
              n < |lines| && forall i :: 0 <= i < |lines| ==> (Recognize(form, lines[i]).Some? <==> i == n)
    decreases |lines|
  {
    hide Recognize;
    if lines != [] {
      var rest := lines[1..];
      assert forall i :: 1 <= i < |lines| ==> lines[i] == rest[i - 1];
      NoMatches(form, rest);
      if n > 0 {
        OnlyIs(form, rest, n - 1);
        assert forall i :: 0 <= i < |rest| ==> rest[i] == lines[i + 1];
      }
    }
  }

  // ---------------------------------------------------------------- what a rewritten line still is

  lemma LockIsKey(line: string)
    requires StartsWith(line, LOCK_PREFIX)
    ensures KeyLength(line) == Some(|LOCK_PREFIX|)
  {
    assert line[..7] == LOCK_PREFIX[..7] == "version";
    assert line[7] == LOCK_PREFIX[7] == ' ' && line[8] == LOCK_PREFIX[8] == '=';
    assert line[9] == LOCK_PREFIX[9] == ' ' && line[10] == LOCK_PREFIX[10] == '"';
    assert Skip(line, 8) == 8 && Skip(line, 7) == 8;
    assert Skip(line, 10) == 10 && Skip(line, 9) == 10;
  }

  /** Rewriting a version line keeps it of its form, and it was and stays no name line and no
      table header. */
  lemma RewrittenLine(form: Form, line: string, v: string)
    requires Recognize(form, line).Some? && Quoteless(v)
    ensures var s := Recognize(form, line).value;
            var after := Rewritten(s, v);
            && Recognize(form, after) == Some(Split(s.head, v, s.tail))
            && Rewritten(s, s.value) == line && Quoteless(s.value)
            && Plain(line) && Plain(after)
            && (form.LockVersion? ==> Recognize(VersionKey, after) == Recognize(form, after)
                                      && Recognize(VersionKey, line) == Recognize(form, line))
  {
    RecognizeRewritten(form, line, v);
    var after := Rewritten(Recognize(form, line).value, v);
    PlainLine(form, line);
    PlainLine(form, after);
    if form.LockVersion? {
      LockIsKey(line);
      LockIsKey(after);
    }
  }

  predicate Plain(line: string) {
    line != "" && line[0] in "vc"
  }

  lemma PlainLine(form: Form, line: string)
    requires Recognize(form, line).Some?
    ensures Plain(line)
  {
    match form
    case ConstLine => assert line[..|CONST_PREFIX|][0] == 'c';
    case LockVersion => assert line[..|LOCK_PREFIX|][0] == 'v';
    case VersionKey => assert line[..7][0] == 'v';
  }

  lemma PlainIsNoHeader(line: string, name: string)
    requires Plain(line)
    ensures !Opens(line) && !ProjectHeader(line) && line != NameLine(name) && line != "[[package]]"
  {
    assert |line| >= 9 ==> line[..9][0] == line[0];
    assert NameLine(name)[0] == 'n';
  }

  // ---------------------------------------------------------------- the spot stays

  function PutLine(t: Target, lines: seq<string>, v: string): seq<string>
    requires Spot(t, lines).Some?
  {
    var i := Spot(t, lines).value;
    lines[i := Rewritten(Recognize(TargetForm(t), lines[i]).value, v)]
  }

  lemma WriteIsPut(t: Target, lines: seq<string>, v: string)
    requires !t.NpmManifest? && !t.NpmLock?
    ensures WriteText(t, LineText(lines), v)
            == if Spot(t, lines).None? then None else Some(LineText(PutLine(t, lines, v)))
  {
  }

  lemma {:induction false} SameHeader(a: seq<string>, b: seq<string>, n: nat)
    requires n < |a| == |b| && HeaderAt(a) == n && b[..n + 1] == a[..n + 1]
    ensures HeaderAt(b) == n
  {
    assert a[0] == a[..n + 1][0] == b[..n + 1][0] == b[0];
    if n > 0 {
      assert a[1..][..n] == a[..n + 1][1..] && b[1..][..n] == b[..n + 1][1..];
      SameHeader(a[1..], b[1..], n - 1);
    }
  }

  lemma {:induction false} SameTable(a: seq<string>, b: seq<string>)
    requires |a| == |b| && forall i :: 0 <= i < |a| ==> (Opens(a[i]) <==> Opens(b[i]))
    ensures TableLength(a) == TableLength(b)
  {
    if a != [] && !Opens(a[0]) {
      forall i | 0 <= i < |a[1..]| ensures Opens(a[1..][i]) <==> Opens(b[1..][i]) {
        assert a[1..][i] == a[i + 1] && b[1..][i] == b[i + 1];
      }
      SameTable(a[1..], b[1..]);
    }
  }

  lemma {:induction false} SamePairs(name: string, a: seq<string>, b: seq<string>, from: nat)
    requires from <= |a| == |b| && forall i :: 0 <= i < |a| ==> (LockPair(name, a, i) <==> LockPair(name, b, i))
    ensures FirstPair(name, a, from) == FirstPair(name, b, from)
    decreases |a| - from
  {
    if from < |a| {
      SamePairs(name, a, b, from + 1);
    }
  }

  /** Rewriting any lockfile version line leaves every name's pairs where they were. */
  lemma PairsStay(name: string, lines: seq<string>, i: nat, v: string)
    requires i < |lines| && Recognize(LockVersion, lines[i]).Some? && Quoteless(v)
    ensures var b := lines[i := Rewritten(Recognize(LockVersion, lines[i]).value, v)];
            forall k :: 0 <= k < |lines| ==> (LockPair(name, lines, k) <==> LockPair(name, b, k))
  {
    hide Recognize, Rewritten, NameLine, Plain, Opens, ProjectHeader, Quoteless;
    RewrittenLine(LockVersion, lines[i], v);
    PlainIsNoHeader(lines[i], name);
    PlainIsNoHeader(Rewritten(Recognize(LockVersion, lines[i]).value, v), name);
  }

  lemma GoSpotStays(lines: seq<string>, v: string)
    requires Spot(GoConst, lines).Some? && Quoteless(v)
    ensures Spot(GoConst, PutLine(GoConst, lines, v)) == Spot(GoConst, lines)
  {
    var i := Spot(GoConst, lines).value;
    RewrittenLine(ConstLine, lines[i], v);
    OnlyIs(ConstLine, lines, i);
    OnlyIs(ConstLine, PutLine(GoConst, lines, v), i);
  }

  lemma {:induction false} ManifestSpot(lines: seq<string>, k: nat)
    requires HeaderAt(lines) < |lines|
    ensures Spot(PypiManifest, lines) == Some(HeaderAt(lines) + 1 + k)
            <==> Only(VersionKey, Table(lines[HeaderAt(lines) + 1..])) == Some(k)
  {
    hide Recognize, Only;
  }

  /** Rewriting a line of a table rewrites that line of the table and moves no boundary. */
  lemma TableRewritten(lines: seq<string>, k: nat, line: string)
    requires k < TableLength(lines) && !Opens(line)
    ensures Table(lines[k := line]) == Table(lines)[k := line]
  {
    hide Opens;
    var b := lines[k := line];
    SameTable(lines, b);
  }

  lemma OnlyStays(form: Form, table: seq<string>, k: nat, line: string)
    requires Only(form, table) == Some(k) && Recognize(form, line).Some?
    ensures k < |table| && Only(form, table[k := line]) == Some(k)
  {
    hide Recognize, Only;
    OnlyIs(form, table, k);
    OnlyIs(form, table[k := line], k);
  }

  lemma ManifestStays(lines: seq<string>, h: nat, k: nat, line: string)
    requires HeaderAt(lines) == h < |lines| && Only(VersionKey, Table(lines[h + 1..])) == Some(k)
    requires Recognize(VersionKey, line).Some? && !Opens(line)
    ensures h + 1 + k < |lines| && HeaderAt(lines[h + 1 + k := line]) == h
    ensures Only(VersionKey, Table(lines[h + 1 + k := line][h + 1..])) == Some(k)
  {
    hide Recognize, Only, Table, TableLength, HeaderAt, Opens;
    OnlyStays(VersionKey, Table(lines[h + 1..]), k, line);
    TableOf(lines[h + 1..]);
    TableRewritten(lines[h + 1..], k, line);
    var b := lines[h + 1 + k := line];
    assert b[h + 1..] == lines[h + 1..][k := line];
    assert b[..h + 1] == lines[..h + 1];
    SameHeader(lines, b, h);
  }

  lemma ManifestSpotStays(lines: seq<string>, v: string)
    requires Spot(PypiManifest, lines).Some? && Quoteless(v)
    ensures Spot(PypiManifest, PutLine(PypiManifest, lines, v)) == Spot(PypiManifest, lines)
  {
    hide Recognize, Rewritten, Plain, Spot, Only, Table, TableLength, HeaderAt, Opens, ProjectHeader, NameLine,
        Quoteless;
    SpotIsBelow(lines);
    var i := Spot(PypiManifest, lines).value;
    var k := i - HeaderAt(lines) - 1;
    RewrittenLine(VersionKey, lines[i], v);
    var line := Rewritten(Recognize(VersionKey, lines[i]).value, v);
    PlainIsNoHeader(line, "");
    ManifestSpot(lines, k);
    ManifestStays(lines, HeaderAt(lines), k, line);
    assert PutLine(PypiManifest, lines, v) == lines[i := line];
    ManifestSpot(lines[i := line], k);
  }

  lemma SpotIsBelow(lines: seq<string>)
    requires Spot(PypiManifest, lines).Some?
    ensures HeaderAt(lines) < Spot(PypiManifest, lines).value
  {
    hide Recognize, Only;
  }

  lemma TableOf(lines: seq<string>)
    ensures |Table(lines)| == TableLength(lines) <= |lines|
            && forall k :: 0 <= k < |Table(lines)| ==> Table(lines)[k] == lines[k]
  {
  }

  lemma SpotStays(t: Target, lines: seq<string>, v: string)
    requires Spot(t, lines).Some? && Quoteless(v)
    ensures Spot(t, PutLine(t, lines, v)) == Spot(t, lines)
  {
    match t
    case GoConst => GoSpotStays(lines, v);
    case PypiManifest => ManifestSpotStays(lines, v);
    case PypiLock(name) => LockSpotStays(t.name, name, lines, v);
    case _ =>
  }

  /** Neither entry of a lockfile moves when the other, or itself, is rewritten. */
  lemma LockSpotStays(name: string, other: string, lines: seq<string>, v: string)
    requires Spot(PypiLock(name), lines).Some? && Quoteless(v)
    ensures Spot(PypiLock(other), PutLine(PypiLock(name), lines, v)) == Spot(PypiLock(other), lines)
  {
    hide Recognize, Rewritten, LockPair, Quoteless, Spot, FirstPair;
    var i := Spot(PypiLock(name), lines).value;
    var b := lines[i := Rewritten(Recognize(LockVersion, lines[i]).value, v)];
    PairsStay(other, lines, i, v);
    SamePairs(other, lines, b, 0);
    var p := FirstPair(other, lines, 0);
    if p < |lines| {
      SamePairs(other, lines, b, p + 1);
    }
    SamePairsSpot(other, lines, b);
    assert PutLine(PypiLock(name), lines, v) == b;
  }

  lemma SamePairsSpot(name: string, a: seq<string>, b: seq<string>)
    requires |a| == |b| && FirstPair(name, a, 0) == FirstPair(name, b, 0)
    requires FirstPair(name, a, 0) < |a| ==>
             FirstPair(name, a, FirstPair(name, a, 0) + 1) == FirstPair(name, b, FirstPair(name, a, 0) + 1)
    ensures Spot(PypiLock(name), a) == Spot(PypiLock(name), b)
  {
    hide Recognize, LockPair, FirstPair;
  }

  lemma LockSpotsDiffer(name: string, other: string, lines: seq<string>)
    requires Spot(PypiLock(name), lines).Some? && Spot(PypiLock(other), lines).Some? && name != other
    ensures Spot(PypiLock(name), lines) != Spot(PypiLock(other), lines)
  {
    var a, b := NameLine(name), NameLine(other);
    assert a[8..|a| - 1] == name && b[8..|b| - 1] == other;
  }

  // ---------------------------------------------------------------- reading what stands at the spot

  lemma LockLine(line: string)
    requires Recognize(LockVersion, line).Some?
    ensures Recognize(VersionKey, line) == Recognize(LockVersion, line)
  {
    LockIsKey(line);
  }

  /** Two lines that a lockfile's reader takes alike, up to the version value. */
  predicate Alike(name: string, a: string, b: string) {
    && (a == "[[package]]" <==> b == "[[package]]")
    && (a == NameLine(name) <==> b == NameLine(name))
    && (Opens(a) <==> Opens(b))
    && (Recognize(VersionKey, a).Some? <==> Recognize(VersionKey, b).Some?)
  }

  predicate AllAlike(name: string, a: seq<string>, b: seq<string>) {
    |a| == |b| && forall k :: 0 <= k < |a| ==> Alike(name, a[k], b[k])
  }

  lemma AlikeMatch(name: string, a: seq<string>, b: seq<string>)
    requires AllAlike(name, a, b)
    ensures FirstMatch(VersionKey, a) == FirstMatch(VersionKey, b)
  {
    hide Recognize, NameLine, Opens;
    var m, n := FirstMatch(VersionKey, a), FirstMatch(VersionKey, b);
    assert m < |a| ==> Alike(name, a[m], b[m]);
    assert n < |a| ==> Alike(name, a[n], b[n]);
  }

  lemma AlikeTable(name: string, a: seq<string>, b: seq<string>)
    requires AllAlike(name, a, b)
    ensures AllAlike(name, Table(a), Table(b)) && (NameLine(name) in Table(a) <==> NameLine(name) in Table(b))
  {
    hide Recognize, NameLine, Opens, Alike;
    forall k | 0 <= k < |a| ensures (Opens(a[k]) <==> Opens(b[k]))
        && (a[k] == NameLine(name) <==> b[k] == NameLine(name)) {
      AlikeTells(name, a[k], b[k]);
    }
    SameTable(a, b);
    TableOf(a);
    TableOf(b);
    var s, t := Table(a), Table(b);
    forall k | 0 <= k < |s| ensures s[k] == NameLine(name) <==> t[k] == NameLine(name) {
      assert s[k] == a[k] && t[k] == b[k];
    }
  }

  lemma AlikeTells(name: string, a: string, b: string)
    requires Alike(name, a, b)
    ensures (Opens(a) <==> Opens(b)) && (a == NameLine(name) <==> b == NameLine(name))
  {
  }

  lemma {:induction false} AlikeSpot(name: string, a: seq<string>, b: seq<string>, from: nat)
    requires from <= |a| && AllAlike(name, a, b)
    ensures LockSpot(name, a, from) == LockSpot(name, b, from)
    decreases |a| - from
  {
    hide Recognize, NameLine, Opens, FirstMatch, Table, TableLength;
    if from < |a| {
      var s, t := a[from + 1..], b[from + 1..];
      assert Alike(name, a[from], b[from]);
      forall k | 0 <= k < |s| ensures Alike(name, s[k], t[k]) {
        assert s[k] == a[from + 1 + k] && t[k] == b[from + 1 + k];
      }
      AlikeTable(name, s, t);
      AlikeMatch(name, Table(s), Table(t));
      AlikeSpot(name, a, b, from + 1);
    }
  }

  /** Rewriting a lockfile's version line does not move what the reader reads. */
  lemma ReadSpotStays(name: string, lines: seq<string>, i: nat, v: string)
    requires i < |lines| && Recognize(LockVersion, lines[i]).Some? && Quoteless(v)
    ensures var b := lines[i := Rewritten(Recognize(LockVersion, lines[i]).value, v)];
            LockSpot(name, b, 0) == LockSpot(name, lines, 0)
  {
    hide Recognize, Rewritten, NameLine, Plain, Opens, ProjectHeader, Quoteless, LockSpot;
    RewrittenLine(LockVersion, lines[i], v);
    var line := Rewritten(Recognize(LockVersion, lines[i]).value, v);
    PlainIsNoHeader(lines[i], name);
    PlainIsNoHeader(line, name);
    assert Alike(name, lines[i], line);
    AlikeSpot(name, lines, lines[i := line], 0);
  }

  /** The lockfile's reader reads the line its writer edits. Other files' readers always do. */
  predicate GoodShape(t: Target, text: Text) {
    t.PypiLock? && text.LineText? && Spot(t, text.lines).Some? ==>
        LockSpot(t.name, text.lines, 0) == Spot(t, text.lines)
  }

  /** That condition is exact: after a successful write the reader returns the new version if
      and only if it holds, or the reader already returned that version from elsewhere. */
  lemma ReadsBackExactly(name: string, lines: seq<string>, v: string)
    requires Spot(PypiLock(name), lines).Some? && Quoteless(v)
    ensures var x := LineText(lines);
            WriteText(PypiLock(name), x, v).Some?
            && (ReadText(PypiLock(name), WriteText(PypiLock(name), x, v).value) == Some(v)
                <==> GoodShape(PypiLock(name), x) || ReadText(PypiLock(name), x) == Some(v))
  {
    hide Recognize, Rewritten, NameLine, Quoteless, Spot, LockSpot;
    var i := Spot(PypiLock(name), lines).value;
    WriteIsPut(PypiLock(name), lines, v);
    RewrittenLine(LockVersion, lines[i], v);
    ReadSpotStays(name, lines, i, v);
    LockLine(lines[i]);
  }

  const SOURCE_LINE := "source = \"x\""
  const VERSION_LINE := "version = \"1.0.0\""

  lemma LineKinds(name: string)
    ensures Recognize(LockVersion, VERSION_LINE).Some? && Recognize(LockVersion, SOURCE_LINE).None?
    ensures Recognize(VersionKey, VERSION_LINE).Some? && Recognize(VersionKey, SOURCE_LINE).None?
            && Recognize(VersionKey, NameLine(name)).None?
    ensures Opens("[[package]]") && !Opens(VERSION_LINE) && !Opens(SOURCE_LINE) && !Opens(NameLine(name))
    ensures NameLine(name) != VERSION_LINE && NameLine(name) != SOURCE_LINE && NameLine(name) != "[[package]]"
  {
    NameIsPlain(name);
    assert NameLine(name)[0] == 'n' && VERSION_LINE[0] == 'v' && SOURCE_LINE[0] == 's';
    assert VERSION_LINE[..|LOCK_PREFIX|] == LOCK_PREFIX;
    assert VERSION_LINE[|LOCK_PREFIX|..][5] == '"';
    LockIsKey(VERSION_LINE);
    assert SOURCE_LINE[..7][0] == 's' && SOURCE_LINE[..|LOCK_PREFIX|][0] == 's';
  }

  /** A lockfile that does not: the first block of the name has its source before its version,
      so the second block is edited and the first one read. */
  lemma AnotherBlockIsRead(name: string)
    ensures var lines := ["[[package]]", NameLine(name), SOURCE_LINE, VERSION_LINE, "[[package]]", NameLine(name),
            VERSION_LINE];
            Spot(PypiLock(name), lines) == Some(6) && LockSpot(name, lines, 0) == Some(3)
  {
    hide Recognize, Opens, NameLine, SOURCE_LINE, VERSION_LINE;
    LineKinds(name);
    var lines := ["[[package]]", NameLine(name), SOURCE_LINE, VERSION_LINE, "[[package]]", NameLine(name),
        VERSION_LINE];
    assert LockPair(name, lines, 5) && !LockPair(name, lines, 1);
    assert FirstPair(name, lines, 0) == 5 && FirstPair(name, lines, 6) == 7;
    var rest := lines[1..];
    assert !Opens(rest[0]) && !Opens(rest[1]) && !Opens(rest[2]) && Opens(rest[3]);
    assert TableLength(rest) == 3;
    var table := Table(rest);
    assert table == [NameLine(name), SOURCE_LINE, VERSION_LINE];
    assert NameLine(name) == table[0] && NameLine(name) in table;
    assert Recognize(VersionKey, table[0]).None? && Recognize(VersionKey, table[1]).None?
        && Recognize(VersionKey, table[2]).Some?;
    assert FirstMatch(VersionKey, table) == 2;
  }

  /** The shape uv gives a lockfile: a package's name opens its block and its version follows. */
  predicate Shaped(name: string, lines: seq<string>) {
    forall i :: 0 <= i < |lines| && lines[i] == NameLine(name) ==> InBlock(lines, i)
  }

  predicate InBlock(lines: seq<string>, i: nat) {
    0 < i && i + 1 < |lines| && lines[i - 1] == "[[package]]" && Recognize(LockVersion, lines[i + 1]).Some?
  }

  lemma NoOtherName(name: string, lines: seq<string>, k: nat)
    requires Spot(PypiLock(name), lines).Some? && Shaped(name, lines) && k < |lines|
    ensures var i := Spot(PypiLock(name), lines).value;
            && i > 0 && lines[i - 1] == NameLine(name) && InBlock(lines, i - 1)
            && (lines[k] == NameLine(name) ==> k == i - 1)
  {
    hide Recognize, NameLine;
    assert lines[k] == NameLine(name) ==> LockPair(name, lines, k);
  }

  lemma BlockSpot(name: string, lines: seq<string>, from: nat)
    requires from + 2 < |lines| && lines[from] == "[[package]]" && lines[from + 1] == NameLine(name)
    requires Recognize(LockVersion, lines[from + 2]).Some?
    ensures LockSpot(name, lines, from) == Some(from + 2)
  {
    var rest := lines[from + 1..];
    assert rest[0] == NameLine(name) && rest[1] == lines[from + 2];
    NameIsPlain(name);
    PlainLine(LockVersion, lines[from + 2]);
    PlainIsNoHeader(lines[from + 2], name);
    LockLine(lines[from + 2]);
    hide Recognize, NameLine, Opens, Plain;
    TableFront(rest);
    assert Table(rest)[0] == NameLine(name);
    SecondMatch(VersionKey, Table(rest));
  }

  lemma NameIsPlain(name: string)
    ensures !Opens(NameLine(name)) && Recognize(VersionKey, NameLine(name)).None?
  {
    assert NameLine(name)[..7][0] == 'n';
  }

  lemma TableFront(lines: seq<string>)
    requires |lines| > 1 && !Opens(lines[0]) && !Opens(lines[1])
    ensures |Table(lines)| > 1 && Table(lines)[0] == lines[0] && Table(lines)[1] == lines[1]
  {
    hide Opens;
    assert lines[1..][0] == lines[1];
  }

  lemma SecondMatch(form: Form, table: seq<string>)
    requires |table| > 1 && Recognize(form, table[0]).None? && Recognize(form, table[1]).Some?
    ensures FirstMatch(form, table) == 1
  {
    hide Recognize;
    assert table[1..][0] == table[1];
  }

  /** A lockfile uv wrote meets the condition. */
  lemma {:induction false} ShapedIsGood(name: string, lines: seq<string>, from: nat)
    requires Spot(PypiLock(name), lines).Some? && Shaped(name, lines) && from + 2 <= Spot(PypiLock(name), lines).value
    ensures LockSpot(name, lines, from) == Spot(PypiLock(name), lines)
    decreases |lines| - from
  {
    hide Recognize, NameLine, Spot, LockSpot, HoldsName, Table, TableLength;
    var i := Spot(PypiLock(name), lines).value;
    NoOtherName(name, lines, 0);
    if from == i - 2 {
      BlockSpot(name, lines, from);
    } else {
      var rest := lines[from + 1..];
      TableEndsBefore(rest, i - 3 - from);
      TableOf(rest);
      forall k | 0 <= k < |Table(rest)| ensures Table(rest)[k] != NameLine(name) {
        assert Table(rest)[k] == lines[from + 1 + k];
        NoOtherName(name, lines, from + 1 + k);
      }
      SpotSkips(name, lines, from);
      ShapedIsGood(name, lines, from + 1);
    }
  }

  lemma SpotSkips(name: string, lines: seq<string>, from: nat)
    requires from < |lines| && NameLine(name) !in Table(lines[from + 1..])
    ensures LockSpot(name, lines, from) == LockSpot(name, lines, from + 1)
  {
    hide NameLine, Table, Recognize;
  }

  lemma TableEndsBefore(lines: seq<string>, n: nat)
    requires n < |lines| && lines[n] == "[[package]]"
    ensures TableLength(lines) <= n
  {
    assert Opens(lines[n]);
  }

  /** The reader of a file finds the value its writer would replace. */
  lemma SpotReads(t: Target, lines: seq<string>)
    requires Spot(t, lines).Some? && GoodShape(t, LineText(lines))
    ensures ReadText(t, LineText(lines)) == Some(Recognize(TargetForm(t), lines[Spot(t, lines).value]).value.value)
  {
    match t
    case GoConst =>
    case PypiManifest => ManifestReads(lines);
    case PypiLock(name) => LockLine(lines[Spot(t, lines).value]);
    case _ =>
  }

  lemma ManifestReads(lines: seq<string>)
    requires Spot(PypiManifest, lines).Some?
    ensures ReadText(PypiManifest, LineText(lines))
            == Some(Recognize(VersionKey, lines[Spot(PypiManifest, lines).value]).value.value)
  {
    hide Recognize, Matches, FirstMatch, HeaderAt, TableLength;
    var h := HeaderAt(lines);
    TableOf(lines[h + 1..]);
  }

  lemma PutTells(t: Target, lines: seq<string>, v: string)
    requires Spot(t, lines).Some? && Quoteless(v)
    ensures var i, b := Spot(t, lines).value, PutLine(t, lines, v);
            var s := Recognize(TargetForm(t), lines[i]).value;
            && Spot(t, b) == Some(i)
            && Recognize(TargetForm(t), b[i]) == Some(Split(s.head, v, s.tail))
            && PutLine(t, lines, s.value) == lines
            && (GoodShape(t, LineText(lines)) ==> GoodShape(t, LineText(b)))
  {
    hide Recognize, Spot, LockSpot, Quoteless, Rewritten;
    SpotStays(t, lines, v);
    var i := Spot(t, lines).value;
    RewrittenLine(TargetForm(t), lines[i], v);
    if t.PypiLock? {
      ReadSpotStays(t.name, lines, i, v);
    }
  }

  // ---------------------------------------------------------------- the laws

  /** The written version is what the registry's reader returns. */
  lemma WriteThenRead(t: Target, x: Text, v: string)
    requires WriteText(t, x, v).Some? && GoodShape(t, x) && Quoteless(v)
    ensures var y := WriteText(t, x, v).value; ReadText(t, y) == Some(v) && GoodShape(t, y)
  {
    hide Recognize, Spot, LockSpot, Quoteless, Rewritten;
    if x.LineText? {
      WriteIsPut(t, x.lines, v);
      PutTells(t, x.lines, v);
      SpotReads(t, PutLine(t, x.lines, v));
    }
  }

  /** Only the version changes: whatever was written, a later write of another version gives
      what writing that one at once would have given. */
  lemma WriteOver(t: Target, x: Text, v: string, w: string)
    requires WriteText(t, x, v).Some? && Quoteless(v)
    ensures WriteText(t, WriteText(t, x, v).value, w) == WriteText(t, x, w)
  {
    hide Recognize, Spot, LockSpot, Quoteless;
    if x.LineText? {
      WriteIsPut(t, x.lines, v);
      WriteIsPut(t, x.lines, w);
      PutTells(t, x.lines, v);
      WriteIsPut(t, PutLine(t, x.lines, v), w);
      PutOver(t, x.lines, v, w);
    } else {
      DocOver(t, x.doc, v, w);
    }
  }

  lemma PutOver(t: Target, lines: seq<string>, v: string, w: string)
    requires Spot(t, lines).Some? && Quoteless(v)
    ensures var b := PutLine(t, lines, v); Spot(t, b).Some? && PutLine(t, b, w) == PutLine(t, lines, w)
  {
    hide Recognize, Spot, Quoteless;
    PutTells(t, lines, v);
  }

  lemma DocOver(t: Target, doc: Doc, v: string, w: string)
    requires WriteText(t, JsonText(doc), v).Some?
    ensures WriteText(t, WriteText(t, JsonText(doc), v).value, w) == WriteText(t, JsonText(doc), w)
  {
    match t
    case NpmManifest =>
      assert doc.members["version" := Str(v)]["version" := Str(w)] == doc.members["version" := Str(w)];
    case NpmLock(key) =>
      var entry, packages := LockEntry(doc, key).value, doc.members["packages"].members;
      var once, other := entry["version" := Str(v)], entry["version" := Str(w)];
      assert once["version" := Str(w)] == other;
      assert packages[key := Obj(once)][key := Obj(other)] == packages[key := Obj(other)];
      var p, q := Obj(packages[key := Obj(once)]), Obj(packages[key := Obj(other)]);
      assert doc.members["packages" := p]["packages" := q] == doc.members["packages" := q];
    case _ =>
  }

  /** Writing the version that is there changes nothing. */
  lemma WriteBack(t: Target, x: Text, v: string)
    requires WriteText(t, x, v).Some? && GoodShape(t, x) && ReadText(t, x) == Some(v)
    ensures WriteText(t, x, v) == Some(x)
  {
    hide Recognize, Spot, LockSpot, Rewritten;
    if x.LineText? {
      WriteIsPut(t, x.lines, v);
      SpotReads(t, x.lines);
      RewrittenLine(TargetForm(t), x.lines[Spot(t, x.lines).value], "");
      PutTells(t, x.lines, v);
    } else {
      DocBack(t, x.doc, v);
    }
  }

  lemma DocBack(t: Target, doc: Doc, v: string)
    requires WriteText(t, JsonText(doc), v).Some? && ReadText(t, JsonText(doc)) == Some(v)
    ensures WriteText(t, JsonText(doc), v) == Some(JsonText(doc))
  {
    match t
    case NpmManifest => assert doc.members["version" := Str(v)] == doc.members;
    case NpmLock(key) =>
      var entry, packages := LockEntry(doc, key).value, doc.members["packages"].members;
      assert entry["version" := Str(v)] == entry;
      assert packages[key := Obj(entry)] == packages;
      assert doc.members["packages" := Obj(packages)] == doc.members;
    case _ =>
  }

  /** Two different entries of one lockfile. */
  predicate Beside(t: Target, u: Target) {
    || (t.NpmLock? && u.NpmLock? && t.key != u.key)
    || (t.PypiLock? && u.PypiLock? && t.name != u.name)
  }

  /** Writing one entry of a lockfile neither moves nor changes another, and the order of the
      two writes does not matter. */
  lemma WriteBeside(t: Target, u: Target, x: Text, v: string, w: string)
    requires Beside(t, u) && WriteText(t, x, v).Some? && Quoteless(v) && Quoteless(w)
    ensures var y := WriteText(t, x, v).value;
            && (WriteText(u, y, w).Some? <==> WriteText(u, x, w).Some?)
            && (GoodShape(u, x) ==> GoodShape(u, y))
            && (WriteText(u, x, w).Some? && GoodShape(u, x) ==> ReadText(u, y) == ReadText(u, x))
            && (WriteText(u, x, w).Some? ==> WriteText(t, WriteText(u, x, w).value, v) == WriteText(u, y, w))
  {
    if x.LineText? && t.PypiLock? {
      LinesBeside(t.name, u.name, x.lines, v, w);
    } else if x.JsonText? && t.NpmLock? {
      DocBeside(t.key, u.key, x.doc, v, w);
    }
  }

  lemma LinesBeside(a: string, c: string, lines: seq<string>, v: string, w: string)
    requires a != c && Spot(PypiLock(a), lines).Some? && Quoteless(v) && Quoteless(w)
    ensures var t, u := PypiLock(a), PypiLock(c);
            var y := LineText(PutLine(t, lines, v));
            var x := LineText(lines);
            && WriteText(t, x, v) == Some(y)
            && (WriteText(u, y, w).Some? <==> WriteText(u, x, w).Some?)
            && (GoodShape(u, x) ==> GoodShape(u, y))
            && (WriteText(u, x, w).Some? && GoodShape(u, x) ==> ReadText(u, y) == ReadText(u, x))
            && (WriteText(u, x, w).Some? ==> WriteText(t, WriteText(u, x, w).value, v) == WriteText(u, y, w))
  {
    hide Recognize, Spot, LockSpot, Rewritten, Quoteless, ReadText;
    var t, u := PypiLock(a), PypiLock(c);
    var b := PutLine(t, lines, v);
    var i := Spot(t, lines).value;
    LockSpotStays(a, c, lines, v);
    WriteIsPut(t, lines, v);
    WriteIsPut(u, lines, w);
    WriteIsPut(u, b, w);
    ReadSpotStays(c, lines, i, v);
    if Spot(u, lines).Some? {
      LockSpotsDiffer(a, c, lines);
      LockSpotStays(c, a, lines, w);
      WriteIsPut(t, PutLine(u, lines, w), v);
      assert PutLine(t, PutLine(u, lines, w), v) == PutLine(u, b, w);
      if GoodShape(u, LineText(lines)) {
        SpotReads(u, lines);
        SpotReads(u, b);
      }
    }
  }

  lemma DocBeside(a: string, c: string, doc: Doc, v: string, w: string)
    requires a != c && LockEntry(doc, a).Some?
    ensures var t, u := NpmLock(a), NpmLock(c);
            var x := JsonText(doc);
            var y := JsonText(WithEntry(doc, a, v));
            && (WriteText(u, y, w).Some? <==> WriteText(u, x, w).Some?)
            && ReadText(u, y) == ReadText(u, x)
            && (WriteText(u, x, w).Some? ==> WriteText(t, WriteText(u, x, w).value, v) == WriteText(u, y, w))
  {
    var packages := doc.members["packages"].members;
    if LockEntry(doc, c).Some? {
      var ea, ec := Obj(LockEntry(doc, a).value["version" := Str(v)]),
          Obj(LockEntry(doc, c).value["version" := Str(w)]);
      assert packages[a := ea][c := ec] == packages[c := ec][a := ea];
      var p, q, both := Obj(packages[a := ea]), Obj(packages[c := ec]), Obj(packages[a := ea][c := ec]);
      assert doc.members["packages" := p]["packages" := both] == doc.members["packages" := both];
      assert doc.members["packages" := q]["packages" := both] == doc.members["packages" := both];
    }
  }

  /** Writing entry `t` rewrites the very value the reader of `u` reads. */
  predicate Hits(u: Target, t: Target, text: Text) {
    if u.PypiLock? && t.PypiLock? && text.LineText? then
      Spot(t, text.lines).Some? && LockSpot(u.name, text.lines, 0) == Spot(t, text.lines)
    else u == t
  }

  /** What any reader of a file reads after one entry was written: the new version if that entry is
      the one it reads, and what it read before otherwise. Nor does the write change which it is. */
  lemma WriteHits(u: Target, w: Target, t: Target, x: Text, v: string)
    requires WriteText(t, x, v).Some? && Quoteless(v) && (u == t || Beside(u, t)) && (w == t || Beside(w, t))
    ensures var y := WriteText(t, x, v).value;
            && ReadText(u, y) == (if Hits(u, t, x) then Some(v) else ReadText(u, x))
            && (Hits(u, w, y) <==> Hits(u, w, x))
  {
    if x.LineText? && t.PypiLock? {
      LockHits(u.name, w.name, t.name, x.lines, v);
    } else if u == t {
      WriteThenRead(t, x, v);
    } else if x.JsonText? && t.NpmLock? {
      DocBeside(t.key, u.key, x.doc, v, v);
    }
  }

  lemma LockHits(u: string, w: string, t: string, lines: seq<string>, v: string)
    requires Spot(PypiLock(t), lines).Some? && Quoteless(v)
    ensures var x, y := LineText(lines), LineText(PutLine(PypiLock(t), lines, v));
            && WriteText(PypiLock(t), x, v) == Some(y)
            && ReadText(PypiLock(u), y)
               == (if Hits(PypiLock(u), PypiLock(t), x) then Some(v) else ReadText(PypiLock(u), x))
            && (Hits(PypiLock(u), PypiLock(w), y) <==> Hits(PypiLock(u), PypiLock(w), x))
  {
    hide Recognize, Rewritten, NameLine, Quoteless, Spot, LockSpot;
    var i := Spot(PypiLock(t), lines).value;
    WriteIsPut(PypiLock(t), lines, v);
    RewrittenLine(LockVersion, lines[i], v);
    ReadSpotStays(u, lines, i, v);
    LockSpotStays(t, w, lines, v);
  }

  /** A writer never produces an empty text. */
  lemma WrittenIsNotEmpty(t: Target, x: Text, v: string)
    requires WriteText(t, x, v).Some? && Quoteless(v)
    ensures !IsEmpty(WriteText(t, x, v).value)
  {
    hide Recognize, Spot, Quoteless, Rewritten;
    if x.LineText? {
      WriteIsPut(t, x.lines, v);
      var i := Spot(t, x.lines).value;
      RewrittenLine(TargetForm(t), x.lines[i], v);
      assert PutLine(t, x.lines, v)[i] != "";
    }
  }
}
