/** The batch upload carries the encoded rows: what the server has read, row by row. */
module UploadRows {
  import opened Wrappers
  import U = Upload
  import opened BatchRows
  import opened BatchWire
  import Ndjson

  /** The rows as the writer pulls them: each sound row's line, or the error of a bad one. */
  ghost function Pulls(rows: seq<Row>, refuse: Row -> U.Err): U.Source {
    (i: nat) =>
      if i >= |rows| then U.End
      else if Sound(rows[i]) then U.Row(Utf8(RowText(rows[i]) + "\n"))
      else U.Bad(refuse(rows[i]))
  }

  lemma {:induction false} PulledRows(rows: seq<Row>, refuse: Row -> U.Err, n: nat)
    requires forall i: nat :: i < n ==> Pulls(rows, refuse)(i).Row?
    ensures n <= |rows| && AllSound(rows[..n])
    ensures U.Encoded(Pulls(rows, refuse), n) == Utf8(Body(rows[..n]))
  {
    hide RowText, Utf8, Sound;
    if n == 0 {
      NothingYet();
      assert rows[..0] == [];
    } else {
      PulledRows(rows, refuse, n - 1);
      assert Pulls(rows, refuse)(n - 1).Row?;
      BodyStep(rows, n - 1);
      var row := rows[n - 1];
      assert Body(rows[..n]) == Body(rows[..n - 1]) + (RowText(row) + "\n");
      Utf8Append(Body(rows[..n - 1]), RowText(row) + "\n");
    }
  }

  lemma NothingYet()
    ensures Utf8(Body([])) == [] && AllSound([])
  {
  }

  /** In every interleaving the server has read a prefix of the written form of the rows before
      the first bad one; a bad row keeps the body from ending cleanly; and a body that ended
      cleanly splits back into exactly the rows given, vertices first. */
  lemma ServerReadsTheRows(vertices: seq<Row>, edges: seq<Row>, refuse: Row -> U.Err, steps: seq<U.Step>, size: nat)
    ensures var rows := vertices + edges;
            var s := U.Run(U.START, steps, Pulls(rows, refuse), size);
            && s.pulled <= |rows| && AllSound(rows[..s.pulled])
            && s.received <= Utf8(Body(rows[..s.pulled]))
            && (None in s.seen ==>
                 && AllSound(rows) && s.received == Utf8(Body(rows))
                 && var lines := Ndjson.LinesOf(s.received, Ndjson.Eof);
                    && |lines| == |rows|
                    && forall i :: 0 <= i < |rows| ==> lines[i].Line? && ReadRow(lines[i].text) == Some(rows[i]))
  {
    var rows := vertices + edges;
    var src := Pulls(rows, refuse);
    var s := U.Run(U.START, steps, src, size);
    U.BodyIsAPrefix(steps, src, size);
    PulledRows(rows, refuse, s.pulled);
    if None in s.seen {
      assert src(s.pulled).End?;
      assert rows[..s.pulled] == rows;
      BodyReadsBack(vertices, edges);
    }
  }

  /** Every line the writer pulls has at least its newline, so stop always ends the writer. */
  lemma PullsAreLines(rows: seq<Row>, refuse: Row -> U.Err)
    ensures U.Lines(Pulls(rows, refuse))
  {
    forall i: nat | Pulls(rows, refuse)(i).Row? ensures Pulls(rows, refuse)(i).line != [] {
      NewlineByte();
      Utf8Append(RowText(rows[i]), "\n");
    }
  }
}
