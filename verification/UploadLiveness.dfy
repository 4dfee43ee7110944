/** An upload whose transport keeps reading ends: every byte is read, and the reason the sequence
    stopped is what the transport and the caller get. */
module UploadLiveness {
  import opened Wrappers
  import opened Upload

  /** A sequence of n rows that then ends, refuses a row, panics or exits. */
  ghost predicate StopsAt(src: Source, n: nat) {
    !src(n).Row? && forall i: nat :: i < n ==> src(i).Row?
  }

  /** What the writer still has to do, counting a byte to be read and a row to be pulled as four. */
  function Rank(s: State, src: Source, n: nat): int {
    4 * (|Encoded(src, n)| - |s.received|) + 4 * (n - s.pulled) + StageRank(s)
  }

  function StageRank(s: State): nat {
    match s.stage
    case Ended(_) => 0
    case Closed(_) => 1
    case Closing(_) => 2
    case Pulling => 4
    case Adding => 5
    case Writing(last) => if last then 3 else if s.wire == [] then 6 else 4
  }

  ghost predicate Going(s: State, src: Source, size: nat, n: nat) {
    Inv(s, src, size) && !s.readClosed && StopsAt(src, n)
  }

  lemma {:induction false} EncodedUpTo(src: Source, m: nat, n: nat)
    requires m <= n
    ensures |Encoded(src, m)| <= |Encoded(src, n)|
    decreases n
  {
    if m < n {
      EncodedUpTo(src, m, n - 1);
    }
  }

  lemma RankIsNat(s: State, src: Source, size: nat, n: nat)
    requires Going(s, src, size, n)
    ensures s.pulled <= n && Rank(s, src, n) >= StageRank(s)
  {
    hide Encoded, Explained;
    assert s.pulled <= n;
    EncodedUpTo(src, s.pulled, n);
    ReceivedIsBelow(s, src, size);
  }

  lemma ReceivedIsBelow(s: State, src: Source, size: nat)
    requires Inv(s, src, size)
    ensures |s.received| <= |Encoded(src, s.pulled)|
  {
    hide Encoded, Explained;
  }

  /** A writer step that is not blocked on the pipe brings the writer on, whatever stage it is in. */
  lemma WriterGoesOn(s: State, src: Source, size: nat, n: nat)
    requires Going(s, src, size, n) && Lines(src) && !s.stage.Ended? && (s.stage.Writing? ==> s.wire == [])
    ensures var t := WriterStep(s, src, size); !t.readClosed && Rank(t, src, n) < Rank(s, src, n)
  {
    hide Encoded, Explained, Inv;
    RankIsNat(s, src, size, n);
    AddingHasBytes(s, src, size);
  }

  lemma AddingHasBytes(s: State, src: Source, size: nat)
    requires Inv(s, src, size)
    ensures |s.buf| <= size
    ensures s.stage.Adding? && |s.buf| + |s.line| > size && s.buf == [] ==> s.line != []
  {
    hide Encoded, Explained;
  }

  lemma BlockedWaits(s: State, src: Source, size: nat)
    requires s.stage.Ended? || (s.stage.Writing? && s.wire != [] && !s.readClosed)
    ensures WriterStep(s, src, size) == s
  {
  }

  /** A read of at least a byte brings the upload on when the writer is blocked, and never sets it
      back. */
  lemma ReadGoesOn(s: State, k: nat, src: Source, size: nat, n: nat)
    requires Going(s, src, size, n) && k > 0
    ensures var t := Next(s, Read(k), src, size);
            && !t.readClosed && Rank(t, src, n) <= Rank(s, src, n) && (t.stage.Ended? <==> s.stage.Ended?)
            && (s.stage.Writing? && s.wire != [] ==> Rank(t, src, n) < Rank(s, src, n))
            && (!(s.stage.Writing? && s.wire != []) ==> t == s)
  {
    hide Encoded, Explained, Inv;
    if s.stage.Writing? && s.wire == [] {
      assert First(k, s.wire) == [] && s.received + [] == s.received && s.wire[0..] == s.wire;
    }
  }

  function Rounds(ks: seq<nat>): seq<Step> {
    if ks == [] then [] else [Read(ks[0]), Writer] + Rounds(ks[1..])
  }

  lemma OneRound(s: State, ks: seq<nat>, src: Source, size: nat)
    requires ks != []
    ensures Run(s, Rounds(ks), src, size)
            == Run(WriterStep(Next(s, Read(ks[0]), src, size), src, size), Rounds(ks[1..]), src, size)
  {
    var steps := Rounds(ks);
    assert steps[0] == Read(ks[0]) && steps[1..][0] == Writer && steps[1..][1..] == Rounds(ks[1..]);
    hide WriterStep;
    var r := Next(s, Read(ks[0]), src, size);
    assert Next(r, Writer, src, size) == WriterStep(r, src, size);
  }

  lemma RoundGoesOn(s: State, k: nat, src: Source, size: nat, n: nat)
    requires Going(s, src, size, n) && Lines(src) && k > 0
    ensures var t := WriterStep(Next(s, Read(k), src, size), src, size);
            && Going(t, src, size, n)
            && (if s.stage.Ended? then t.stage.Ended? else Rank(t, src, n) < Rank(s, src, n))
  {
    hide Encoded, Explained, WriterStep, Next, Rank, Lines, StopsAt, Inv;
    var r := Next(s, Read(k), src, size);
    ReadGoesOn(s, k, src, size, n);
    NextKeeps(s, Read(k), src, size);
    NextKeeps(r, Writer, src, size);
    StepIsWriter(r, src, size);
    if r.stage.Ended? || (r.stage.Writing? && r.wire != []) {
      BlockedWaits(r, src, size);
    } else {
      WriterGoesOn(r, src, size, n);
    }
  }

  lemma StepIsWriter(s: State, src: Source, size: nat)
    ensures Next(s, Writer, src, size) == WriterStep(s, src, size)
  {
  }

  lemma {:induction false} RoundsEnd(s: State, ks: seq<nat>, src: Source, size: nat, n: nat)
    requires Going(s, src, size, n) && Lines(src) && (forall k :: k in ks ==> k > 0)
    requires s.stage.Ended? || |ks| >= Rank(s, src, n)
    ensures Going(Run(s, Rounds(ks), src, size), src, size, n) && Run(s, Rounds(ks), src, size).stage.Ended?
    decreases |ks|
  {
    hide Going, WriterStep, Next, Rank, Lines;
    if ks == [] {
      if !s.stage.Ended? {
        RankIsNat(s, src, size, n);
      }
      assert Rounds(ks) == [];
    } else {
      assert ks[0] in ks && forall k :: k in ks[1..] ==> k in ks;
      OneRound(s, ks, src, size);
      RoundGoesOn(s, ks[0], src, size, n);
      RoundsEnd(WriterStep(Next(s, Read(ks[0]), src, size), src, size), ks[1..], src, size, n);
    }
  }

  /** A transport that reads at least a byte between two steps of the writer, for any buffer size:
      after enough rounds the writer has ended for the reason its sequence stopped. When it simply
      ended, every byte of every row was read; and the transport is then told that reason. */
  lemma UploadEnds(src: Source, n: nat, size: nat, ks: seq<nat>)
    requires StopsAt(src, n) && Lines(src) && (forall k :: k in ks ==> k > 0)
    requires |ks| >= 4 * (|Encoded(src, n)| + n + 1)
    ensures var s := Run(START, Rounds(ks), src, size);
            && s.stage.Ended? && s.pulled == n && s.done == 1 && !s.readClosed
            && StoppedAs(s.stage.res, src(n))
            && (src(n).End? ==> s.received == Encoded(src, n))
            && s.stage.res.err in Next(s, ReadEnd, src, size).seen
  {
    hide Run, Inv, StoppedAs;
    StartGoes(src, size, n);
    RoundsEnd(START, ks, src, size, n);
    EndTells(Run(START, Rounds(ks), src, size), src, size, n);
  }

  /** How the writer's result follows from what stopped the sequence. */
  predicate StoppedAs(res: Result, stop: Pull) {
    match stop
    case Row(_) => false
    case Bad(e) => res.err == Some(e) && !res.panicked
    case End => res.err == None && !res.panicked
    case Panics(v) => res == Result(Some(Abandoned), true, v)
    case Exits => res.err == Some(Abandoned) && !res.panicked
  }

  lemma StartGoes(src: Source, size: nat, n: nat)
    requires StopsAt(src, n)
    ensures Going(START, src, size, n) && Rank(START, src, n) == 4 * |Encoded(src, n)| + 4 * n + 4
  {
  }

  lemma EndTells(s: State, src: Source, size: nat, n: nat)
    requires Going(s, src, size, n) && s.stage.Ended?
    ensures s.pulled == n && s.done == 1 && !s.readClosed && StoppedAs(s.stage.res, src(n))
    ensures src(n).End? ==> s.received == Encoded(src, n)
    ensures s.stage.res.err in Next(s, ReadEnd, src, size).seen
  {
    hide Encoded;
    RankIsNat(s, src, size, n);
    assert !src(s.pulled).Row?;
  }
}
