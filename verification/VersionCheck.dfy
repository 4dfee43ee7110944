/** The lockstep check's version part, and what it says of a tree that set_version wrote. */
module VersionCheck {
  import opened Wrappers
  import opened VersionTexts
  import opened VersionLaws
  import opened Versions

  datatype Problem =
    | NotARelease
    | VersionIs(manifest: Path, got: string)
    | NoLockEntry(lockfile: Path, name: string)
    | LockedAt(lockfile: Path, name: string, locked: string, got: string)

  /** The problems of one row; none at all when its manifest, or a lockfile, cannot be read,
      which ends the check with an error. */
  function RowProblems(files: Files, row: Row, v: string): Option<seq<Problem>> {
    var got := ReadAt(files, ManifestEdit(row));
    if got.None? || (row.lockfile != "" && row.lockfile !in files) then None
    else Some((if got.value == v then []
        else [VersionIs(row.manifest, got.value)]) + LockProblems(files, row, got.value))
  }

  function LockProblems(files: Files, row: Row, got: string): seq<Problem> {
    if row.lockfile == "" then []
    else match ReadAt(files, LockEdit(row))
      case None => [NoLockEntry(row.lockfile, row.name)]
      case Some(locked) => if locked == got then [] else [LockedAt(row.lockfile, row.name, locked, got)]
  }

  /** What the problems of a row say: a manifest at another version, with the version it has; a
      lockfile without the entry; an entry locked at another version than the manifest's. */
  lemma ProblemsTell(files: Files, row: Row, v: string)
    requires RowProblems(files, row, v).Some?
    ensures var got, ps := ReadAt(files, ManifestEdit(row)), RowProblems(files, row, v).value;
            && got.Some?
            && (VersionIs(row.manifest, got.value) in ps <==> got.value != v)
            && (NoLockEntry(row.lockfile, row.name) in ps
                <==> row.lockfile != "" && ReadAt(files, LockEdit(row)).None?)
            && forall locked :: LockedAt(row.lockfile, row.name, locked, got.value) in ps
                 <==> row.lockfile != "" && ReadAt(files, LockEdit(row)) == Some(locked) && locked != got.value
  {
    hide ReadAt, ManifestEdit, LockEdit;
  }

  function Problems(files: Files, rows: seq<Row>, v: string): Option<seq<Problem>> {
    if rows == [] then Some([])
    else match RowProblems(files, rows[0], v)
      case None => None
      case Some(p) => match Problems(files, rows[1..], v) case None => None case Some(q) => Some(p + q)
  }

  /** The version part of check: its problems, or none when it ends with an error. */
  method Check(tree: Tree, rows: seq<Row>, v: string) returns (problems: Option<seq<Problem>>)
    ensures problems == if Release(v) then Problems(tree.files, rows, v) else Some([NotARelease])
  {
    if !Release(v) {
      return Some([NotARelease]);
    }
    hide Release, ReadAt, RowProblems;
    var found: seq<Problem> := [];
    ghost var all := Problems(tree.files, rows, v);
    assert rows[0..] == rows && (all.Some? ==> [] + all.value == all.value);
    for i := 0 to |rows|
      invariant all == match Problems(tree.files, rows[i..], v) case None => None case Some(q) => Some(found + q)
    {
      assert rows[i..][0] == rows[i] && rows[i..][1..] == rows[i + 1..];
      var p := CheckRow(tree, rows[i], v);
      if p.None? {
        return None;
      }
      ghost var later := Problems(tree.files, rows[i + 1..], v);
      assert later.Some? ==> found + (p.value + later.value) == found + p.value + later.value;
      found := found + p.value;
    }
    assert rows[|rows|..] == [];
    assert found + [] == found;
    problems := Some(found);
  }

  method CheckRow(tree: Tree, row: Row, v: string) returns (problems: Option<seq<Problem>>)
    ensures problems == RowProblems(tree.files, row, v)
  {
    hide ManifestEdit, LockEdit;
    var got := ReadAt(tree.files, ManifestEdit(row));
    if got.None? {
      return None;
    }
    var found: seq<Problem> := if got.value != v then [VersionIs(row.manifest, got.value)] else [];
    assert found + [] == found;
    if row.lockfile != "" {
      if row.lockfile !in tree.files {
        return None;
      }
      var locked := ReadAt(tree.files, LockEdit(row));
      if locked.None? {
        found := found + [NoLockEntry(row.lockfile, row.name)];
      } else if locked.value != got.value {
        found := found + [LockedAt(row.lockfile, row.name, locked.value, got.value)];
      }
    }
    problems := Some(found);
  }

  /** The check finds nothing exactly when every manifest and every lockfile entry reads the
      version. */
  lemma {:induction false} NoProblems(files: Files, rows: seq<Row>, v: string)
    ensures Problems(files, rows, v) == Some([]) <==> forall e :: e in Edits(rows) ==> ReadAt(files, e) == Some(v)
  {
    hide ReadAt, ManifestEdit, RowProblems, RowEdits;
    if rows != [] {
      RowHasNone(files, rows[0], v);
      NoProblems(files, rows[1..], v);
      var p, q := RowProblems(files, rows[0], v), Problems(files, rows[1..], v);
      assert p.Some? && q.Some? ==> (p.value + q.value == [] <==> p.value == [] && q.value == []);
      assert forall e :: e in Edits(rows) <==> e in RowEdits(rows[0]) || e in Edits(rows[1..]);
    }
  }

  lemma RowHasNone(files: Files, row: Row, v: string)
    ensures RowProblems(files, row, v) == Some([]) <==> forall e :: e in RowEdits(row) ==> ReadAt(files, e) == Some(v)
  {
    hide ManifestEdit, ReadText;
    var edits := RowEdits(row);
    var p := RowProblems(files, row, v);
    var got := ReadAt(files, ManifestEdit(row));
    if p.Some? {
      var q := if got.value == v then [] else [VersionIs(row.manifest, got.value)];
      assert p.value == q + LockProblems(files, row, got.value);
      assert p.value == [] <==> q == [] && LockProblems(files, row, got.value) == [];
    }
    assert ManifestEdit(row) == edits[0] && ManifestEdit(row) in edits;
    assert row.lockfile != "" ==> LockEdit(row) == edits[1] && LockEdit(row) in edits;
    assert forall e :: e in edits ==> e == ManifestEdit(row) || (row.lockfile != "" && e == LockEdit(row));
  }

  // ---------------------------------------------------------------- the shipped table

  const NPM_LOCKFILE := "typescript/package-lock.json"
  const PYPI_LOCKFILE := "python/uv.lock"

  const PACKAGES: seq<Row> := [
    Row(Npm, "typescript/packages/driver/package.json", NPM_LOCKFILE, "@arcadedb/driver", "driver"),
    Row(Npm, "typescript/packages/driver-grpc/package.json", NPM_LOCKFILE, "@arcadedb/driver-grpc", "driver-grpc"),
    Row(Pypi, "python/packages/driver/pyproject.toml", PYPI_LOCKFILE, "arcadedb-driver", "driver"),
    Row(Pypi, "python/packages/driver-grpc/pyproject.toml", PYPI_LOCKFILE, "arcadedb-driver-grpc", "driver-grpc"),
    Row(GoProxy, "go/arcadedb/version.go", "", "github.com/ArcadeData/arcadedb-drivers/go/arcadedb", "arcadedb"),
    Row(GoProxy, "go/arcadedbgrpc/version.go", "",
        "github.com/ArcadeData/arcadedb-drivers/go/arcadedbgrpc", "arcadedbgrpc")]

  lemma EditsCons(row: Row, rest: seq<Row>)
    ensures Edits([row] + rest) == RowEdits(row) + Edits(rest)
  {
    assert ([row] + rest)[1..] == rest;
  }

  function TableEdits(p: seq<Row>): seq<Edit>
    requires |p| == 6
  {
    [ManifestEdit(p[0]), LockEdit(p[0]), ManifestEdit(p[1]), LockEdit(p[1]),
     ManifestEdit(p[2]), LockEdit(p[2]), ManifestEdit(p[3]), LockEdit(p[3]),
     ManifestEdit(p[4]), ManifestEdit(p[5])]
  }

  /** The edits of the shipped table do not meet, except in the two shared lockfiles, where they
      are different entries. */
  lemma PackagesAreIndependent()
    ensures Independent(Edits(PACKAGES))
  {
    var p := PACKAGES;
    hide Edits, Independent, ManifestEdit, LockEdit;
    NoEdits();
    EditsCons(p[5], []);
    EditsCons(p[4], [p[5]]);
    EditsCons(p[3], [p[4], p[5]]);
    EditsCons(p[2], [p[3], p[4], p[5]]);
    EditsCons(p[1], [p[2], p[3], p[4], p[5]]);
    EditsCons(p[0], [p[1], p[2], p[3], p[4], p[5]]);
    assert p == [p[0]] + [p[1], p[2], p[3], p[4], p[5]];
    assert [p[1], p[2], p[3], p[4], p[5]] == [p[1]] + [p[2], p[3], p[4], p[5]];
    assert [p[2], p[3], p[4], p[5]] == [p[2]] + [p[3], p[4], p[5]];
    assert [p[3], p[4], p[5]] == [p[3]] + [p[4], p[5]];
    assert [p[4], p[5]] == [p[4]] + [p[5]] && [p[5]] == [p[5]] + [];
    assert Edits(p) == TableEdits(p);
    TenApart(p);
  }

  lemma NoEdits()
    ensures Edits([]) == []
  {
  }

  /** Already the lengths tell all paths, names and keys apart. */
  predicate Lengths(p: seq<Row>) {
    && |p| == 6 && |NPM_LOCKFILE| == 28 && |PYPI_LOCKFILE| == 14
    && p[0].lockfile == p[1].lockfile == NPM_LOCKFILE && p[2].lockfile == p[3].lockfile == PYPI_LOCKFILE
    && p[0].registry == p[1].registry == Npm && p[2].registry == p[3].registry == Pypi
    && |p[0].manifest| == 39 && |p[1].manifest| == 44 && |p[2].manifest| == 37 && |p[3].manifest| == 42
    && |p[4].manifest| == 22 && |p[5].manifest| == 26
    && |p[0].input| != |p[1].input| && |p[2].name| != |p[3].name|
  }

  lemma TenApart(p: seq<Row>)
    requires Lengths(p)
    ensures Independent(TableEdits(p))
  {
    var a, b := "packages/" + p[0].input, "packages/" + p[1].input;
    assert |a| != |b|;
  }

  /** For any files: after a successful set the check finds nothing if and only if every reader
      reads a value that was rewritten, or read the version already. */
  lemma CheckAfterSet(files: Files, v: string)
    requires SetSpec(files, PACKAGES, v).Some?
    ensures Problems(SetSpec(files, PACKAGES, v).value, PACKAGES, v) == Some([])
            <==> forall e :: e in Edits(PACKAGES) ==>
                   HitBySome(files, e, Edits(PACKAGES)) || ReadAt(files, e) == Some(v)
  {
    hide Edits, PACKAGES, Fold, Independent, Release, Quoteless, Problems, HitBySome, ReadAt;
    PackagesAreIndependent();
    ReleaseIsQuoteless(v);
    SetReadsBackExactly(files, Edits(PACKAGES), v);
    NoProblems(Fold(files, Edits(PACKAGES), v).value, PACKAGES, v);
  }

  /** A successful set leaves a tree the check accepts, whose every reader returns the version;
      setting it again changes nothing. */
  lemma SetPassesTheCheck(files: Files, v: string)
    requires AllGood(files, Edits(PACKAGES)) && SetSpec(files, PACKAGES, v).Some?
    ensures var g := SetSpec(files, PACKAGES, v).value;
            && Problems(g, PACKAGES, v) == Some([])
            && SetSpec(g, PACKAGES, v) == Some(g)
  {
    hide Edits, PACKAGES, AllGood, Fold, Independent, Release, Quoteless, Problems;
    PackagesAreIndependent();
    ReleaseIsQuoteless(v);
    SetReadsBack(files, Edits(PACKAGES), v);
    NoProblems(Fold(files, Edits(PACKAGES), v).value, PACKAGES, v);
    SetTwiceIsOnce(files, Edits(PACKAGES), v);
  }
}
