/** Which line a version writer edits, and what it leaves of it, in terms of the text alone. */
module VersionPlaces {
  import opened Wrappers
  import opened VersionTexts
  import opened VersionLaws
  import opened Versions

  predicate Blanks(s: string) {
    forall c :: c in s ==> Blank(c)
  }

  /** What stands before the value, up to its opening quote. */
  ghost predicate Head(form: Form, head: string) {
    match form
    case ConstLine => head == "const Version = \""
    case LockVersion => head == "version = \""
    case VersionKey => exists b, c :: Blanks(b) && Blanks(c) && head == "version" + b + "=" + c + "\""
  }

  ghost predicate Shape(form: Form, line: string) {
    exists head, was, rest :: Shaped3(form, line, head, was, rest)
  }

  ghost predicate Shaped3(form: Form, line: string, head: string, was: string, rest: string) {
    Head(form, head) && '"' !in was && line == head + (was + ("\"" + rest))
  }

  // ---------------------------------------------------------------- the heads

  lemma {:induction false} SkipTells(s: string, i: nat)
    requires i <= |s|
    ensures forall k :: i <= k < Skip(s, i) ==> Blank(s[k])
    ensures Skip(s, i) < |s| ==> !Blank(s[Skip(s, i)])
    decreases |s| - i
  {
    if i < |s| && Blank(s[i]) {
      SkipTells(s, i + 1);
    }
  }

  lemma {:induction false} SkipIs(s: string, i: nat, n: nat)
    requires i <= n < |s| && (forall k :: i <= k < n ==> Blank(s[k])) && !Blank(s[n])
    ensures Skip(s, i) == n
    decreases n - i
  {
    if i < n {
      SkipIs(s, i + 1, n);
    }
  }

  lemma KeyHasHead(line: string)
    requires KeyLength(line).Some?
    ensures Head(VersionKey, line[..KeyLength(line).value])
  {
    var i := Skip(line, 7);
    var j := Skip(line, i + 1);
    SkipTells(line, 7);
    SkipTells(line, i + 1);
    hide Skip, Blank;
    var b, c := line[7..i], line[i + 1..j];
    forall x | x in b ensures Blank(x) {
      var k :| 0 <= k < |b| && b[k] == x;
      assert line[7 + k] == x;
    }
    forall x | x in c ensures Blank(x) {
      var k :| 0 <= k < |c| && c[k] == x;
      assert line[i + 1 + k] == x;
    }
    FiveParts(line, i, j);
    assert [line[i]] == "=" && [line[j]] == "\"";
    assert Blanks(b) && Blanks(c) && line[..j + 1] == "version" + b + "=" + c + "\"";
  }

  lemma FiveParts(line: string, i: nat, j: nat)
    requires 7 <= i < j < |line| && StartsWith(line, "version")
    ensures line[..j + 1] == "version" + line[7..i] + [line[i]] + line[i + 1..j] + [line[j]]
  {
    assert line[..7] == "version";
    assert line[..j + 1] == line[..7] + line[7..i] + [line[i]] + line[i + 1..j] + [line[j]];
  }

  lemma HeadIsKey(b: string, c: string, rest: string)
    requires Blanks(b) && Blanks(c)
    ensures var head := "version" + b + "=" + c + "\"";
            KeyLength(head + rest) == Some(|head|)
  {
    var head := "version" + b + "=" + c + "\"";
    var line := head + rest;
    var i := 7 + |b|;
    var j := i + 1 + |c|;
    assert line[..7] == "version";
    assert line[i] == '=' && line[j] == '"';
    forall k | 7 <= k < i ensures Blank(line[k]) {
      assert line[k] == b[k - 7] && b[k - 7] in b;
    }
    forall k | i + 1 <= k < j ensures Blank(line[k]) {
      assert line[k] == c[k - i - 1] && c[k - i - 1] in c;
    }
    SkipIs(line, 7, i);
    SkipIs(line, i + 1, j);
  }

  lemma LengthIsHead(form: Form, line: string)
    requires FormLength(form, line).Some?
    ensures Head(form, line[..FormLength(form, line).value])
  {
    if form.VersionKey? {
      KeyHasHead(line);
    }
  }

  lemma HeadIsLength(form: Form, head: string, rest: string)
    requires Head(form, head)
    ensures FormLength(form, head + rest) == Some(|head|)
  {
    if form.VersionKey? {
      var b, c :| Blanks(b) && Blanks(c) && head == "version" + b + "=" + c + "\"";
      HeadIsKey(b, c, rest);
    } else {
      assert (head + rest)[..|head|] == head;
    }
  }

  /** A line is recognized exactly if it has the shape, and rewriting it keeps all of it but the
      value. */
  lemma RecognizedShape(form: Form, line: string)
    ensures Recognize(form, line).Some? <==> Shape(form, line)
    ensures Recognize(form, line).Some? ==>
              var s := Recognize(form, line).value;
              && s.tail != "" && s.tail[0] == '"'
              && Shaped3(form, line, s.head, s.value, s.tail[1..])
              && forall v :: Rewritten(s, v) == s.head + (v + ("\"" + s.tail[1..]))
  {
    if Recognize(form, line).Some? {
      ShapeOfRecognized(form, line);
      var s := Recognize(form, line).value;
      assert Shaped3(form, line, s.head, s.value, s.tail[1..]);
    }
    if Shape(form, line) {
      var head, was, rest :| Shaped3(form, line, head, was, rest);
      HeadIsLength(form, head, was + ("\"" + rest));
      hide FormLength, Head;
      var after := was + ("\"" + rest);
      assert line[|head|..] == after;
      QuoteAfter(was, "\"" + rest);
      assert QuoteAt(after) == |was| < |after|;
    }
  }

  lemma ShapeOfRecognized(form: Form, line: string)
    requires Recognize(form, line).Some?
    ensures var s := Recognize(form, line).value;
            && s.tail != "" && s.tail[0] == '"'
            && Shaped3(form, line, s.head, s.value, s.tail[1..])
            && forall v :: Rewritten(s, v) == s.head + (v + ("\"" + s.tail[1..]))
  {
    hide FormLength, Head, SplitAt;
    LengthIsHead(form, line);
    SplitTells(line, FormLength(form, line).value);
    var s := Recognize(form, line).value;
    forall v ensures Rewritten(s, v) == s.head + (v + ("\"" + s.tail[1..])) {
      assert s.head + v + s.tail == s.head + (v + s.tail);
    }
  }

  lemma SplitTells(line: string, n: nat)
    requires n <= |line| && SplitAt(line, n).Some?
    ensures var s := SplitAt(line, n).value;
            && s.head == line[..n] && '"' !in s.value
            && s.tail != "" && s.tail[0] == '"' && s.tail == "\"" + s.tail[1..]
            && line == s.head + (s.value + ("\"" + s.tail[1..]))
  {
    hide QuoteAt;
    var s := SplitAt(line, n).value;
    var rest := line[n..];
    assert s.tail[0] == rest[QuoteAt(rest)];
    assert s.tail == [s.tail[0]] + s.tail[1..];
    assert rest == s.value + s.tail && line == line[..n] + rest;
  }

  // ---------------------------------------------------------------- the places

  /** The lines that may hold the version of a target. */
  ghost predicate Place(t: Target, lines: seq<string>, i: nat) {
    i < |lines| && match t
      case GoConst => Shape(ConstLine, lines[i])
      case PypiManifest => Shape(VersionKey, lines[i]) && exists h :: InProject(lines, h, i)
      case PypiLock(name) => i > 0 && lines[i - 1] == "name = \"" + name + "\"" && Shape(LockVersion, lines[i])
      case _ => false
  }

  /** Line i is in the table of the first [project] header, which is line h. */
  predicate InProject(lines: seq<string>, h: nat, i: nat) {
    && h < i < |lines| && ProjectHeader(lines[h])
    && (forall k :: 0 <= k < h ==> !ProjectHeader(lines[k]))
    && (forall k :: h < k <= i ==> !Opens(lines[k]))
  }

  /** A writer edits a line exactly if it is the one place there is: none, or two, and it refuses. */
  lemma SpotIsThePlace(t: Target, lines: seq<string>, i: nat)
    requires t.GoConst? || t.PypiManifest? || t.PypiLock?
    ensures Spot(t, lines) == Some(i) <==> i < |lines| && forall k: nat :: Place(t, lines, k) <==> k == i
  {
    match t
    case GoConst => GoPlace(lines, i);
    case PypiManifest => ManifestPlace(lines, i);
    case PypiLock(name) => LockPlace(name, lines, i);
  }

  lemma GoPlace(lines: seq<string>, i: nat)
    ensures Spot(GoConst, lines) == Some(i) <==> i < |lines| && forall k: nat :: Place(GoConst, lines, k) <==> k == i
  {
    OnlyIs(ConstLine, lines, i);
    forall k: nat ensures Place(GoConst, lines, k) <==> k < |lines| && Recognize(ConstLine, lines[k]).Some? {
      if k < |lines| {
        RecognizedShape(ConstLine, lines[k]);
      }
    }
    hide Recognize, Shape, Only, Place;
    assert Spot(GoConst, lines) == Only(ConstLine, lines);
    if forall k: nat :: Place(GoConst, lines, k) <==> k == i {
      assert Place(GoConst, lines, i);
    }
  }

  lemma LockPlace(name: string, lines: seq<string>, i: nat)
    ensures Spot(PypiLock(name), lines) == Some(i)
            <==> i < |lines| && forall k: nat :: Place(PypiLock(name), lines, k) <==> k == i
  {
    forall k: nat
      ensures Place(PypiLock(name), lines, k) <==> 0 < k < |lines| && LockPair(name, lines, k - 1)
    {
      if 0 < k < |lines| {
        RecognizedShape(LockVersion, lines[k]);
      }
    }
    hide Recognize, Shape, Place, LockPair, NameLine;
    var p := FirstPair(name, lines, 0);
    PairIsNotLast(name, lines);
    assert p < |lines| ==> Place(PypiLock(name), lines, p + 1);
    if p < |lines| {
      var q := FirstPair(name, lines, p + 1);
      assert q < |lines| ==> Place(PypiLock(name), lines, q + 1);
    }
    if forall k: nat :: Place(PypiLock(name), lines, k) <==> k == i {
      assert Place(PypiLock(name), lines, i);
    }
  }

  lemma PairIsNotLast(name: string, lines: seq<string>)
    ensures forall k: nat :: k < |lines| && LockPair(name, lines, k) ==> k + 1 < |lines|
  {
  }

  lemma TableReaches(lines: seq<string>, h: nat, k: nat)
    requires h < |lines| && h < k < |lines|
    ensures k - h - 1 < |Table(lines[h + 1..])| <==> forall m :: h < m <= k ==> !Opens(lines[m])
    ensures k - h - 1 < |Table(lines[h + 1..])| ==> Table(lines[h + 1..])[k - h - 1] == lines[k]
  {
    hide Opens;
    var rest := lines[h + 1..];
    var n := TableLength(rest);
    if n < |rest| && n <= k - h - 1 {
      assert Opens(rest[n]) && rest[n] == lines[h + 1 + n];
    }
    if k - h - 1 < n {
      forall m | h < m <= k ensures !Opens(lines[m]) {
        assert lines[m] == rest[m - h - 1];
      }
    }
  }

  lemma ManifestPlaces(lines: seq<string>, k: nat)
    requires HeaderAt(lines) < |lines|
    ensures var h := HeaderAt(lines);
            var table := Table(lines[h + 1..]);
            Place(PypiManifest, lines, k)
            <==> h < k && k - h - 1 < |table| && Recognize(VersionKey, table[k - h - 1]).Some?
  {
    var h := HeaderAt(lines);
    TableOf(lines[h + 1..]);
    if h < k < |lines| {
      RecognizedShape(VersionKey, lines[k]);
      TableReaches(lines, h, k);
      HeaderIsFirst(lines, h, k);
    } else if k < |lines| {
      assert forall g: nat :: g < k ==> !ProjectHeader(lines[g]);
    }
    hide Recognize, Shape, Table, TableLength, HeaderAt, Opens, ProjectHeader;
  }

  lemma HeaderIsFirst(lines: seq<string>, h: nat, k: nat)
    requires h == HeaderAt(lines) && h < k < |lines|
    ensures (exists g :: InProject(lines, g, k)) <==> forall m :: h < m <= k ==> !Opens(lines[m])
  {
    hide Opens, ProjectHeader;
    if g :| InProject(lines, g, k) {
      assert g == h;
    }
    if forall m :: h < m <= k ==> !Opens(lines[m]) {
      assert InProject(lines, h, k);
    }
  }

  lemma ManifestPlace(lines: seq<string>, i: nat)
    ensures Spot(PypiManifest, lines) == Some(i)
            <==> i < |lines| && forall k: nat :: Place(PypiManifest, lines, k) <==> k == i
  {
    hide Recognize, Shape, Table, TableLength, Opens, ProjectHeader, Only, Place;
    var h := HeaderAt(lines);
    if h == |lines| {
      NoProject(lines);
      assert !Place(PypiManifest, lines, i);
    } else {
      var table := Table(lines[h + 1..]);
      TableOf(lines[h + 1..]);
      forall k: nat
        ensures Place(PypiManifest, lines, k)
                <==> h < k && k - h - 1 < |table| && Recognize(VersionKey, table[k - h - 1]).Some?
      {
        ManifestPlaces(lines, k);
      }
      if i > h {
        ManifestSpot(lines, i - h - 1);
        OnlyIs(VersionKey, table, i - h - 1);
        ShiftedOnly(lines, table, h, i);
      } else {
        BelowHeader(lines, i);
        assert !Place(PypiManifest, lines, i);
      }
    }
  }

  lemma ShiftedOnly(lines: seq<string>, table: seq<string>, h: nat, i: nat)
    requires h < i && h + 1 + |table| <= |lines|
    requires forall k: nat :: Place(PypiManifest, lines, k)
               <==> h < k && k - h - 1 < |table| && Recognize(VersionKey, table[k - h - 1]).Some?
    ensures (i < |lines| && forall k: nat :: Place(PypiManifest, lines, k) <==> k == i)
            <==> && i - h - 1 < |table|
                 && forall m :: 0 <= m < |table| ==> (Recognize(VersionKey, table[m]).Some? <==> m == i - h - 1)
  {
    hide Recognize, Place;
    if forall k: nat :: Place(PypiManifest, lines, k) <==> k == i {
      assert Place(PypiManifest, lines, i);
      forall m | 0 <= m < |table| ensures Recognize(VersionKey, table[m]).Some? <==> m == i - h - 1 {
        assert Place(PypiManifest, lines, m + h + 1) <==> m + h + 1 == i;
      }
    }
  }

  lemma BelowHeader(lines: seq<string>, i: nat)
    requires i <= HeaderAt(lines) < |lines|
    ensures Spot(PypiManifest, lines) != Some(i)
  {
    hide Recognize, Only, HeaderAt, Table, TableLength;
  }

  lemma NoProject(lines: seq<string>)
    requires HeaderAt(lines) == |lines|
    ensures Spot(PypiManifest, lines) == None && forall k: nat :: !Place(PypiManifest, lines, k)
  {
    hide ProjectHeader, Shape;
  }

  /** A written file is the old one with that line's value replaced, and every other character,
      before and behind the quotes and on every other line, where it was. */
  lemma WriteTells(t: Target, lines: seq<string>, v: string)
    requires t.GoConst? || t.PypiManifest? || t.PypiLock?
    ensures WriteText(t, LineText(lines), v).Some? <==> exists i: nat :: Spot(t, lines) == Some(i)
    ensures WriteText(t, LineText(lines), v).Some? ==>
              exists i: nat, head: string, was: string, rest: string ::
                && Place(t, lines, i) && Head(TargetForm(t), head) && '"' !in was
                && lines[i] == head + (was + ("\"" + rest))
                && WriteText(t, LineText(lines), v).value == LineText(lines[i := head + (v + ("\"" + rest))])
  {
    hide Recognize, Rewritten, Shape, Head, Place;
    WriteIsPut(t, lines, v);
    if Spot(t, lines).Some? {
      var i := Spot(t, lines).value;
      SpotIsThePlace(t, lines, i);
      RecognizedShape(TargetForm(t), lines[i]);
      var s := Recognize(TargetForm(t), lines[i]).value;
      assert Shaped3(TargetForm(t), lines[i], s.head, s.value, s.tail[1..]);
      var head, was, rest := s.head, s.value, s.tail[1..];
      assert Place(t, lines, i) && Head(TargetForm(t), head);
      assert lines[i] == head + (was + ("\"" + rest));
      assert PutLine(t, lines, v) == lines[i := head + (v + ("\"" + rest))];
    }
  }

  /** In a package.json the member "version" is set and no other; in a lockfile that of the entry
      packages[key], and no other member of it, of packages or of the document. */
  lemma DocTells(doc: Doc, key: string, v: string)
    ensures doc.Obj? ==>
              var y := WriteText(NpmManifest, JsonText(doc), v);
              && y.Some? && y.value.JsonText? && y.value.doc.Obj?
              && var m := y.value.doc.members;
                 && m.Keys == doc.members.Keys + {"version"} && m["version"] == Str(v)
                 && forall k :: k in doc.members && k != "version" ==> m[k] == doc.members[k]
    ensures LockEntry(doc, key).Some? ==>
              var y := WriteText(NpmLock(key), JsonText(doc), v);
              && y.Some? && y.value.JsonText? && y.value.doc.Obj? && "packages" in y.value.doc.members
              && var m, packages := y.value.doc.members, doc.members["packages"].members;
                 && m.Keys == doc.members.Keys
                 && (forall k :: k in m && k != "packages" ==> m[k] == doc.members[k])
                 && m["packages"].Obj? && m["packages"].members.Keys == packages.Keys
                 && (forall k :: k in packages && k != key ==> m["packages"].members[k] == packages[k])
                 && m["packages"].members[key] == Obj(packages[key].members["version" := Str(v)])
    ensures LockEntry(doc, key).None? ==> WriteText(NpmLock(key), JsonText(doc), v) == None
  {
  }

  /** Which entries the rows of the table stand for. */
  lemma RowTells(row: Row)
    ensures ManifestEdit(row).path == row.manifest && LockEdit(row).path == row.lockfile
    ensures row.registry.Npm? ==>
              ManifestEdit(row).target == NpmManifest && LockEdit(row).target == NpmLock("packages/" + row.input)
    ensures row.registry.Pypi? ==>
              ManifestEdit(row).target == PypiManifest && LockEdit(row).target == PypiLock(row.name)
    ensures row.registry.GoProxy? ==> ManifestEdit(row).target == GoConst && LockEdit(row).target == NoLock
  {
  }
}
