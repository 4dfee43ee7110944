/** The lockstep version writer: every manifest and lockfile gets the new version, or no file
    changes. */
module Versions {
  import opened Wrappers
  import opened VersionTexts
  import opened VersionLaws

  type Path = string
  type Files = map<Path, Text>

  datatype Registry = Npm | Pypi | GoProxy

  /** A row of the package table; an empty lockfile path means there is none. */
  datatype Row = Row(registry: Registry, manifest: Path, lockfile: Path, name: string, input: string)

  datatype Edit = Edit(path: Path, target: Target)

  function ManifestEdit(row: Row): Edit {
    Edit(row.manifest, match row.registry case Npm => NpmManifest case Pypi => PypiManifest case GoProxy => GoConst)
  }

  function LockEdit(row: Row): Edit {
    Edit(row.lockfile, match row.registry case Npm => NpmLock("packages/" + row.input)
        case Pypi => PypiLock(row.name) case GoProxy => NoLock)
  }

  function RowEdits(row: Row): seq<Edit> {
    [ManifestEdit(row)] + if row.lockfile == "" then [] else [LockEdit(row)]
  }

  function Edits(rows: seq<Row>): seq<Edit> {
    if rows == [] then [] else RowEdits(rows[0]) + Edits(rows[1..])
  }

  // ---------------------------------------------------------------- one edit after another

  function Step(files: Files, e: Edit, v: string): Option<Files> {
    if e.path !in files then None
    else match WriteText(e.target, files[e.path], v)
      case None => None
      case Some(t) => Some(files[e.path := t])
  }

  function Fold(files: Files, edits: seq<Edit>, v: string): Option<Files> {
    if edits == [] then Some(files)
    else match Step(files, edits[0], v)
      case None => None
      case Some(g) => Fold(g, edits[1..], v)
  }

  lemma {:induction false} FoldAppend(files: Files, a: seq<Edit>, b: seq<Edit>, v: string)
    ensures Fold(files, a + b, v) == match Fold(files, a, v) case None => None case Some(g) => Fold(g, b, v)
    decreases |a|
  {
    hide Step;
    if a == [] {
      assert a + b == b;
    } else {
      assert (a + b)[0] == a[0] && (a + b)[1..] == a[1..] + b;
      match Step(files, a[0], v)
      case None =>
      case Some(g) => FoldAppend(g, a[1..], b, v);
    }
  }

  lemma {:induction false} EditsAppend(rows: seq<Row>, i: nat)
    requires i < |rows|
    ensures Edits(rows[..i + 1]) == Edits(rows[..i]) + RowEdits(rows[i])
  {
    hide RowEdits;
    if i == 0 {
      assert rows[..1] == [rows[0]] && [rows[0]][1..] == [];
    } else {
      assert rows[..i + 1][1..] == rows[1..][..i] && rows[..i][1..] == rows[1..][..i - 1];
      EditsAppend(rows[1..], i - 1);
    }
  }

  // ---------------------------------------------------------------- a release version

  predicate Digits(s: string) {
    s != "" && forall i :: 0 <= i < |s| ==> '0' <= s[i] <= '9'
  }

  /** MAJOR.MINOR.PATCH. */
  predicate Release(v: string) {
    exists i, j :: 0 <= i < j < |v| && v[i] == '.' && v[j] == '.' && Digits(v[..i]) && Digits(v[i + 1..j])
        && Digits(v[j + 1..])
  }

  lemma ReleaseIsQuoteless(v: string)
    requires Release(v)
    ensures Quoteless(v)
  {
    var i, j :| 0 <= i < j < |v| && v[i] == '.' && v[j] == '.' && Digits(v[..i]) && Digits(v[i + 1..j])
        && Digits(v[j + 1..]);
    forall k | 0 <= k < |v| ensures v[k] != '"' {
      if k < i {
        assert v[k] == v[..i][k];
      } else if i < k < j {
        assert v[k] == v[i + 1..j][k - i - 1];
      } else if k > j {
        assert v[k] == v[j + 1..][k - j - 1];
      }
    }
  }

  // ---------------------------------------------------------------- set_version

  class Tree {
    var files: Files

    constructor (files: Files)
      ensures this.files == files
    {
      this.files := files;
    }
  }

  /** What set_version leaves: the whole fold, or what was there. */
  function SetSpec(files: Files, rows: seq<Row>, v: string): Option<Files> {
    if Release(v) then Fold(files, Edits(rows), v) else None
  }

  ghost predicate Staged(files: Files, staged: Files) {
    && staged.Keys <= files.Keys
    && forall p :: p in staged ==> !IsEmpty(staged[p])
  }

  /** One edit into the staged texts. The text edited is the staged one unless that is empty,
      which falls back to the file: harmless, since no writer stages an empty text. */
  method StageEdit(files: Files, staged: Files, e: Edit, v: string) returns (ok: bool, after: Files)
    requires Staged(files, staged) && Quoteless(v)
    ensures Staged(files, after)
    ensures match Step(files + staged, e, v)
            case None => !ok
            case Some(g) => ok && files + after == g
  {
    after := staged;
    if e.path !in staged && e.path !in files {
      return false, staged;
    }
    var text := if e.path in staged && !IsEmpty(staged[e.path]) then staged[e.path] else files[e.path];
    assert text == (files + staged)[e.path];
    var written := WriteText(e.target, text, v);
    if written.None? {
      return false, staged;
    }
    WrittenIsNotEmpty(e.target, text, v);
    after := staged[e.path := written.value];
    assert files + after == (files + staged)[e.path := written.value];
    ok := true;
  }

  /** All edits are computed before any file is written. */
  method SetVersion(tree: Tree, rows: seq<Row>, v: string) returns (ok: bool)
    modifies tree
    ensures match SetSpec(old(tree.files), rows, v)
            case None => !ok && tree.files == old(tree.files)
            case Some(g) => ok && tree.files == g
    ensures !Release(v) ==> !ok && tree.files == old(tree.files)
  {
    if !Release(v) {
      return false;
    }
    ReleaseIsQuoteless(v);
    hide Step, Release;
    var files := tree.files;
    var staged: Files := map[];
    assert files + staged == files;
    for i := 0 to |rows|
      invariant tree.files == files
      invariant Staged(files, staged)
      invariant Fold(files, Edits(rows[..i]), v) == Some(files + staged)
    {
      assert rows[..i] + rows[i..] == rows;
      EditsSplit(rows, i);
      FoldAppend(files, Edits(rows[..i]), RowEdits(rows[i]), v);
      FoldAppend(files, Edits(rows[..i + 1]), Edits(rows[i + 1..]), v);
      var done;
      done, staged := StageRow(files, staged, rows[i], v);
      if !done {
        return false;
      }
    }
    assert rows[..|rows|] == rows;
    WriteStaged(tree, staged);
    ok := true;
  }

  lemma {:induction false} EditsSplit(rows: seq<Row>, i: nat)
    requires i < |rows|
    ensures Edits(rows[..i + 1]) == Edits(rows[..i]) + RowEdits(rows[i])
    ensures Edits(rows) == Edits(rows[..i + 1]) + Edits(rows[i + 1..])
  {
    EditsAppend(rows, i);
    EditsConcat(rows[..i + 1], rows[i + 1..]);
    assert rows[..i + 1] + rows[i + 1..] == rows;
  }

  lemma {:induction false} EditsConcat(a: seq<Row>, b: seq<Row>)
    ensures Edits(a + b) == Edits(a) + Edits(b)
  {
    hide RowEdits;
    if a == [] {
      assert a + b == b;
    } else {
      assert (a + b)[0] == a[0] && (a + b)[1..] == a[1..] + b;
      EditsConcat(a[1..], b);
    }
  }

  method StageRow(files: Files, staged: Files, row: Row, v: string) returns (ok: bool, after: Files)
    requires Staged(files, staged) && Quoteless(v)
    ensures Staged(files, after)
    ensures match Fold(files + staged, RowEdits(row), v)
            case None => !ok
            case Some(g) => ok && files + after == g
  {
    hide Step, ManifestEdit, LockEdit, Staged, Quoteless, Fold;
    FoldOne(files + staged, ManifestEdit(row), v);
    ok, after := StageEdit(files, staged, ManifestEdit(row), v);
    if row.lockfile != "" {
      FoldAppend(files + staged, [ManifestEdit(row)], [LockEdit(row)], v);
      if ok {
        FoldOne(files + after, LockEdit(row), v);
        ok, after := StageEdit(files, after, LockEdit(row), v);
      }
    } else {
      assert RowEdits(row) == [ManifestEdit(row)];
    }
  }

  lemma FoldOne(files: Files, e: Edit, v: string)
    ensures Fold(files, [e], v) == Step(files, e, v)
  {
    hide Step;
    assert [e][1..] == [];
  }

  /** The writing loop, over the staged paths in any order. */
  method WriteStaged(tree: Tree, staged: Files)
    modifies tree
    ensures tree.files == old(tree.files) + staged
  {
    ghost var files := tree.files;
    var todo := staged.Keys;
    while todo != {}
      invariant todo <= staged.Keys
      invariant tree.files == files + map p | p in staged && p !in todo :: staged[p]
      decreases |todo|
    {
      var p :| p in todo;
      tree.files := tree.files[p := staged[p]];
      todo := todo - {p};
    }
  }

  // ---------------------------------------------------------------- what a successful set means

  /** Edits that do not meet, or are different entries of one lockfile. */
  predicate Apart(e: Edit, u: Edit) {
    e.path == u.path ==> Beside(e.target, u.target)
  }

  predicate Independent(edits: seq<Edit>) {
    forall i, j :: 0 <= i < |edits| && 0 <= j < |edits| && i != j ==> Apart(edits[i], edits[j])
  }

  function ReadAt(files: Files, e: Edit): Option<string> {
    if e.path in files then ReadText(e.target, files[e.path]) else None
  }

  /** The lockfiles have their versions where the reader looks; see VersionLaws.GoodShape. */
  predicate GoodAt(files: Files, e: Edit) {
    e.path in files ==> GoodShape(e.target, files[e.path])
  }

  predicate AllGood(files: Files, edits: seq<Edit>) {
    forall e :: e in edits ==> GoodAt(files, e)
  }

  lemma StepReads(files: Files, e: Edit, v: string)
    requires Step(files, e, v).Some? && GoodAt(files, e) && Quoteless(v)
    ensures var g := Step(files, e, v).value; ReadAt(g, e) == Some(v) && GoodAt(g, e)
  {
    hide WriteText, ReadText, GoodShape, Quoteless;
    WriteThenRead(e.target, files[e.path], v);
  }

  lemma StepOver(files: Files, e: Edit, v: string, w: string)
    requires Step(files, e, v).Some? && Quoteless(v)
    ensures Step(Step(files, e, v).value, e, w) == Step(files, e, w)
  {
    hide WriteText, Quoteless;
    WriteOver(e.target, files[e.path], v, w);
    var y := WriteText(e.target, files[e.path], v).value;
    var z := WriteText(e.target, y, w);
    assert z.Some? ==> files[e.path := y][e.path := z.value] == files[e.path := z.value];
  }

  lemma StepBack(files: Files, e: Edit, v: string)
    requires Step(files, e, v).Some? && GoodAt(files, e) && ReadAt(files, e) == Some(v)
    ensures Step(files, e, v) == Some(files)
  {
    hide WriteText, ReadText, GoodShape;
    WriteBack(e.target, files[e.path], v);
    assert files[e.path := files[e.path]] == files;
  }

  /** An edit leaves the others as writable and as readable as they were, and comes to the same
      before or after them. */
  lemma StepBeside(files: Files, e: Edit, u: Edit, v: string, w: string)
    requires Apart(e, u) && Step(files, e, v).Some? && Quoteless(v) && Quoteless(w)
    ensures var g := Step(files, e, v).value;
            && (Step(g, u, w).Some? <==> Step(files, u, w).Some?)
            && (GoodAt(files, u) ==> GoodAt(g, u))
            && (Step(files, u, w).Some? && GoodAt(files, u) ==> ReadAt(g, u) == ReadAt(files, u))
            && (Step(files, u, w).Some? ==> Step(Step(files, u, w).value, e, v) == Step(g, u, w))
  {
    hide WriteText, ReadText, GoodShape, Quoteless, Beside;
    if e.path == u.path {
      WriteBeside(e.target, u.target, files[e.path], v, w);
      var x := files[e.path];
      var y := WriteText(e.target, x, v).value;
      if WriteText(u.target, x, w).Some? {
        var z := WriteText(u.target, x, w).value;
        var both := WriteText(u.target, y, w).value;
        assert files[e.path := y][e.path := both] == files[e.path := both] == files[e.path := z][e.path := both];
      }
    } else if Step(files, u, w).Some? {
      var y, z := WriteText(e.target, files[e.path], v).value, WriteText(u.target, files[u.path], w).value;
      assert files[e.path := y][u.path := z] == files[u.path := z][e.path := y];
    }
  }

  predicate ApartFrom(e: Edit, edits: seq<Edit>) {
    forall u :: u in edits ==> Apart(e, u)
  }

  lemma IndependentTail(edits: seq<Edit>)
    requires Independent(edits) && edits != []
    ensures Independent(edits[1..]) && ApartFrom(edits[0], edits[1..])
  {
    hide Apart;
    var rest := edits[1..];
    forall u | u in rest ensures Apart(edits[0], u) {
      var k :| 0 <= k < |rest| && rest[k] == u;
      assert u == edits[k + 1];
    }
    forall i, j | 0 <= i < |rest| && 0 <= j < |rest| && i != j ensures Apart(rest[i], rest[j]) {
      assert rest[i] == edits[i + 1] && rest[j] == edits[j + 1];
    }
  }

  lemma ApartIsSymmetric(e: Edit, u: Edit)
    requires Apart(e, u)
    ensures Apart(u, e)
  {
  }

  /** One edit against a whole run of others. */
  lemma {:induction false} FoldBeside(files: Files, e: Edit, edits: seq<Edit>, v: string, w: string)
    requires ApartFrom(e, edits) && Step(files, e, v).Some? && Quoteless(v) && Quoteless(w)
    ensures var g := Step(files, e, v).value;
            && (Fold(g, edits, w).Some? <==> Fold(files, edits, w).Some?)
            && (Fold(files, edits, w).Some? ==> Step(Fold(files, edits, w).value, e, v) == Fold(g, edits, w))
    decreases |edits|
  {
    hide Step, Apart, Quoteless;
    if edits != [] {
      var g := Step(files, e, v).value;
      StepBeside(files, e, edits[0], v, w);
      if Step(files, edits[0], w).Some? {
        var h := Step(files, edits[0], w).value;
        assert ApartFrom(e, edits[1..]);
        FoldBeside(h, e, edits[1..], v, w);
      }
    }
  }

  /** The others neither disturb what an edit reads nor where. */
  lemma {:induction false} FoldKeepsRead(files: Files, e: Edit, edits: seq<Edit>, v: string)
    requires ApartFrom(e, edits) && Fold(files, edits, v).Some? && Step(files, e, v).Some? && GoodAt(files, e)
             && Quoteless(v)
    ensures var g := Fold(files, edits, v).value; ReadAt(g, e) == ReadAt(files, e) && GoodAt(g, e)
    decreases |edits|
  {
    hide Step, Apart, Quoteless, ReadAt, GoodAt;
    if edits != [] {
      var u := edits[0];
      var h := Step(files, u, v).value;
      assert Apart(e, u);
      ApartIsSymmetric(e, u);
      StepBeside(files, u, e, v, v);
      assert ApartFrom(e, edits[1..]);
      FoldKeepsRead(h, e, edits[1..], v);
    }
  }

  lemma GoodStays(files: Files, e: Edit, edits: seq<Edit>, v: string)
    requires ApartFrom(e, edits) && Step(files, e, v).Some? && AllGood(files, edits) && Quoteless(v)
    ensures AllGood(Step(files, e, v).value, edits)
  {
    hide Step, GoodAt, Quoteless, Apart;
    forall u | u in edits ensures GoodAt(Step(files, e, v).value, u) {
      StepBeside(files, e, u, v, v);
    }
  }

  /** After a successful set every registry's reader returns the new version, for both entries
      of a shared lockfile too. */
  lemma {:induction false} SetReadsBack(files: Files, edits: seq<Edit>, v: string)
    requires Independent(edits) && AllGood(files, edits) && Fold(files, edits, v).Some? && Quoteless(v)
    ensures var g := Fold(files, edits, v).value; forall e :: e in edits ==> ReadAt(g, e) == Some(v) && GoodAt(g, e)
    decreases |edits|
  {
    hide Step, Quoteless, ReadAt, GoodAt, Independent, ApartFrom;
    if edits != [] {
      var e, rest := edits[0], edits[1..];
      var h := Step(files, e, v).value;
      IndependentTail(edits);
      assert e in edits && forall u :: u in rest ==> u in edits;
      StepReads(files, e, v);
      GoodStays(files, e, rest, v);
      SetReadsBack(h, rest, v);
      StepOver(files, e, v, v);
      FoldKeepsRead(h, e, rest, v);
      assert forall u :: u in edits ==> u == e || u in rest;
    }
  }

  /** Edit `u` rewrites the value that is read at `e`. */
  predicate HitAt(files: Files, e: Edit, u: Edit) {
    u.path == e.path && e.path in files && Hits(e.target, u.target, files[e.path])
  }

  predicate Meets(e: Edit, u: Edit) {
    e == u || Apart(e, u)
  }

  lemma StepHits(files: Files, e: Edit, w: Edit, u: Edit, v: string)
    requires Step(files, u, v).Some? && Quoteless(v) && Meets(e, u) && Meets(w, u)
    ensures var g := Step(files, u, v).value;
            && ReadAt(g, e) == (if HitAt(files, e, u) then Some(v) else ReadAt(files, e))
            && (HitAt(g, e, w) <==> HitAt(files, e, w))
  {
    hide WriteText, ReadText, Quoteless, Hits, Beside;
    if e.path == u.path {
      WriteHits(e.target, if w.path == u.path then w.target else u.target, u.target, files[e.path], v);
    }
  }

  predicate HitBySome(files: Files, e: Edit, edits: seq<Edit>) {
    exists u :: u in edits && HitAt(files, e, u)
  }

  lemma {:induction false} FoldHits(files: Files, e: Edit, edits: seq<Edit>, v: string)
    requires Independent(edits) && (forall u :: u in edits ==> Meets(e, u))
    requires Fold(files, edits, v).Some? && Quoteless(v)
    ensures ReadAt(Fold(files, edits, v).value, e) == if HitBySome(files, e, edits) then Some(v) else ReadAt(files, e)
    decreases |edits|
  {
    hide Step, Quoteless, ReadAt, HitAt, Apart, Independent;
    if edits != [] {
      var u, rest := edits[0], edits[1..];
      var h := Step(files, u, v).value;
      IndependentTail(edits);
      assert u in edits && forall w :: w in edits <==> w == u || w in rest;
      StepHits(files, e, u, u, v);
      forall w | w in rest ensures HitAt(h, e, w) <==> HitAt(files, e, w) {
        ApartIsSymmetric(u, w);
        StepHits(files, e, w, u, v);
      }
      FoldHits(h, e, rest, v);
      assert HitBySome(h, e, rest) <==> exists w :: w in rest && HitAt(files, e, w);
    }
  }

  /** For any files: after a successful set the reader of an entry returns the new version if and
      only if some edit rewrites the value it reads, or it read that version already. */
  lemma SetReadsBackExactly(files: Files, edits: seq<Edit>, v: string)
    requires Independent(edits) && Fold(files, edits, v).Some? && Quoteless(v)
    ensures var g := Fold(files, edits, v).value;
            forall e :: e in edits ==>
              (ReadAt(g, e) == Some(v) <==> HitBySome(files, e, edits) || ReadAt(files, e) == Some(v))
  {
    hide Fold, Quoteless, ReadAt, HitBySome, Apart;
    forall e | e in edits
      ensures ReadAt(Fold(files, edits, v).value, e) == Some(v)
              <==> HitBySome(files, e, edits) || ReadAt(files, e) == Some(v)
    {
      var i :| 0 <= i < |edits| && edits[i] == e;
      forall u | u in edits ensures Meets(e, u) {
        var k :| 0 <= k < |edits| && edits[k] == u;
      }
      FoldHits(files, e, edits, v);
    }
  }

  /** Only the version changes: setting another version afterwards gives, file by file, what
      setting it at once would have given. */
  lemma {:induction false} SetForgets(files: Files, edits: seq<Edit>, v: string, w: string)
    requires Independent(edits) && Fold(files, edits, v).Some? && Quoteless(v) && Quoteless(w)
    ensures Fold(Fold(files, edits, v).value, edits, w) == Fold(files, edits, w)
    decreases |edits|
  {
    hide Step, Quoteless, Independent, ApartFrom;
    if edits != [] {
      var e, rest := edits[0], edits[1..];
      var f1 := Step(files, e, v).value;
      var g := Fold(f1, rest, v).value;
      IndependentTail(edits);
      StepOver(files, e, v, w);
      StepIsWritable(files, e, v, w);
      var f2 := Step(f1, e, w).value;
      FoldBeside(f1, e, rest, w, v);
      SetForgets(f2, rest, v, w);
    }
  }

  lemma StepIsWritable(files: Files, e: Edit, v: string, w: string)
    requires Step(files, e, v).Some?
    ensures Step(files, e, w).Some?
  {
    hide Recognize, Spot, Rewritten, LockEntry;
  }

  /** Repeating a set is a no-op. */
  lemma SetTwiceIsOnce(files: Files, edits: seq<Edit>, v: string)
    requires Independent(edits) && Fold(files, edits, v).Some? && Quoteless(v)
    ensures Fold(Fold(files, edits, v).value, edits, v) == Fold(files, edits, v)
  {
    hide Fold, Quoteless, Independent;
    SetForgets(files, edits, v, v);
  }

  lemma {:induction false} FoldBack(files: Files, edits: seq<Edit>, v: string)
    requires AllGood(files, edits) && forall e :: e in edits ==> Step(files, e, v).Some? && ReadAt(files, e) == Some(v)
    ensures Fold(files, edits, v) == Some(files)
    decreases |edits|
  {
    hide Step, ReadAt, GoodAt;
    if edits != [] {
      assert edits[0] in edits;
      StepBack(files, edits[0], v);
      FoldBack(files, edits[1..], v);
    }
  }

  lemma {:induction false} AllWritable(files: Files, edits: seq<Edit>, v: string, w: string)
    requires Independent(edits) && Fold(files, edits, v).Some? && Quoteless(v) && Quoteless(w)
    ensures forall e :: e in edits ==> Step(files, e, w).Some?
    decreases |edits|
  {
    hide Step, Quoteless, Independent, Apart;
    if edits != [] {
      var e, rest := edits[0], edits[1..];
      IndependentTail(edits);
      StepIsWritable(files, e, v, w);
      AllWritable(Step(files, e, v).value, rest, v, w);
      forall u | u in edits ensures Step(files, u, w).Some? {
        if u != e {
          assert u in rest;
          StepBeside(files, e, u, v, w);
        }
      }
    }
  }

  /** Nothing else changes, and nothing is lost: from files all at one version, setting another
      and then the old one again gives back exactly the files there were. */
  lemma SetIsUndone(files: Files, edits: seq<Edit>, before: string, v: string)
    requires Independent(edits) && AllGood(files, edits) && Quoteless(v) && Quoteless(before)
    requires Fold(files, edits, v).Some? && forall e :: e in edits ==> ReadAt(files, e) == Some(before)
    ensures Fold(Fold(files, edits, v).value, edits, before) == Some(files)
  {
    hide Fold, Quoteless, Independent, Step, ReadAt, GoodAt;
    SetForgets(files, edits, v, before);
    AllWritable(files, edits, v, before);
    FoldBack(files, edits, before);
  }

  /** No file outside the table is touched, created or removed. */
  lemma {:induction false} OthersUntouched(files: Files, edits: seq<Edit>, v: string)
    requires Fold(files, edits, v).Some?
    ensures var g := Fold(files, edits, v).value;
            && g.Keys == files.Keys
            && forall p :: p in files && (forall e :: e in edits ==> e.path != p) ==> g[p] == files[p]
    decreases |edits|
  {
    hide WriteText;
    if edits != [] {
      OthersUntouched(Step(files, edits[0], v).value, edits[1..], v);
      assert edits[0] in edits;
    }
  }
}
