/** The client's calls keep the invariant, and what that gives for whole runs. */
module InsertRuns {
  import opened Wrappers
  import opened InsertProtocol
  import opened InsertSystem
  import opened InsertSafety

  // ---------------------------------------------------------------- inside one exchange

  lemma AbortKeeps(s: Sys)
    requires Midway(s)
    ensures Midway(Abort(s)) && (Settled(s) ==> Settled(Abort(s)))
  {
    hide Noise, Replies, EndsSession;
  }

  /** A legal frame may be written whenever nothing is outstanding. */
  lemma WriteKeeps(s: Sys, f: Frame, sc: Script)
    requires Inv(s) && s.open && (f.Chunk? ==> f.seqNo == s.chunkSeq + 1)
    ensures Midway(Sent(s, f, sc)) && Sent(s, f, sc).frames == s.frames + [f]
    ensures s.w.srv.committed ==> Sent(s, f, sc).w.srv.committed
  {
    var w := Deliver(s.w, f, sc.write);
    var t := s.(w := w, frames := s.frames + [f]);
    assert Midway(t) by {
      hide Noise, Replies, EndsSession, Sound;
      assert Commit in s.frames ==> Commit in t.frames;
      assert t.frames[|t.frames| - 1] == f;
    }
    hide Midway;
    StepsKeep(t, sc.after);
  }

  function Received(s: Sys): Sys
    requires s.w.inbox != []
  {
    s.(w := s.w.(inbox := s.w.inbox[1..]))
  }

  lemma HeadOwed(s: Sys)
    requires s.w.inbox != []
    ensures Owed(s.w) == (if Noise(s.w.inbox[0]) then [] else [s.w.inbox[0]]) + Owed(Received(s).w)
  {
    hide Noise;
  }

  /** Taking one message out of the channel: noise changes nothing, an answer was the only one. */
  lemma ReceiveTells(s: Sys, f: Frame)
    requires Midway(s) && s.w.inbox != [] && s.frames != [] && s.frames[|s.frames| - 1] == f
    ensures var m := s.w.inbox[0];
            if Noise(m) then Midway(Received(s)) && (Settled(s) ==> Settled(Received(s)))
            else !Settled(s) && Coherent(Received(s)) && Received(s).w.toServer == [] && Owed(Received(s).w) == []
                 && AtMostOneMore(Received(s)) && Truthful(Received(s), f, m) && Pending(s, f)
  {
    hide Noise, EndsSession, Sound, Owed, Taken;
    HeadOwed(s);
  }

  /** How an exchange ends. Only an answer, or a refusal that leaves the session usable, leaves
      the session open, and then nothing is outstanding. */
  predicate Ended(s: Sys, f: Frame, r: Result) {
    && Coherent(s) && s.frames != [] && s.frames[|s.frames| - 1] == f
    && match r
       case Answered(m) =>
         s.w.toServer == [] && Owed(s.w) == [] && AtMostOneMore(s) && Truthful(s, f, m)
       case ServerError(_, _, false) => (s.open ==> Settled(s)) && Midway(s)
       case _ => !s.open && Midway(s)
  }

  lemma NoiseEnds(m: Msg)
    requires Noise(m)
    ensures m.Binary? || (m.ErrorMsg? && EndsSession(m.title, m.detail))
  {
  }

  /** Aborting after an answer that settles nothing leaves at most one chunk unaccounted for. */
  lemma AbortAfterAnswer(s: Sys, f: Frame)
    requires Coherent(s) && s.w.toServer == [] && Owed(s.w) == [] && AtMostOneMore(s)
    requires s.frames != [] && s.frames[|s.frames| - 1] == f && (f.Chunk? ==> f.seqNo == s.chunkSeq + 1)
    ensures Midway(Abort(s))
  {
    hide Noise, Replies, EndsSession, Sound;
  }

  /** Receiving touches neither the caller's books nor the server. */
  predicate SameBooks(s: Sys, t: Sys) {
    t == s.(open := t.open, w := t.w) && t.w.srv == s.w.srv
  }

  lemma DecodeEnds(s: Sys, f: Frame, want: string)
    requires Midway(s) && s.open && s.w.inbox != [] && s.frames != [] && s.frames[|s.frames| - 1] == f
    ensures var (t, r) := Decode(Received(s), s.w.inbox[0], want);
            && Ended(t, f, r) && SameBooks(s, t)
            && (r.Answered? ==> t.open && Action(r.m) == want && !r.m.Garbled? && t == Received(s))
            && (r.ServerError? && !r.ended ==> t.open && t == Received(s))
  {
    hide EndsSession, Sound, Coherent, AtMostOneMore, Noise, Replies;
    var m := s.w.inbox[0];
    ReceiveTells(s, f);
    if Noise(m) {
      NoiseEnds(m);
      AbortKeeps(Received(s));
      assert Coherent(Abort(Received(s)));
    } else {
      AbortAfterAnswer(Received(s), f);
    }
  }

  lemma AwaitEnds(s: Sys, f: Frame, want: string, timeout: bool)
    requires Midway(s) && s.open && s.frames != [] && s.frames[|s.frames| - 1] == f
    ensures var (t, r) := Await(s, want, timeout);
            && Ended(t, f, r) && SameBooks(s, t)
            && (r.Answered? ==> t.open && Action(r.m) == want && !r.m.Garbled?)
            && (r.ServerError? && !r.ended ==> t.open)
  {
    hide EndsSession, Sound, Coherent, Truthful, AtMostOneMore, Noise, Replies, Decode;
    if timeout || s.w.inbox == [] {
      AbortKeeps(s);
    } else {
      DecodeEnds(s, f, want);
    }
  }

  lemma ExplainEnds(s: Sys, f: Frame)
    requires Midway(s) && s.frames != [] && s.frames[|s.frames| - 1] == f
    ensures var (t, r) := Explain(s); Ended(t, f, r) && SameBooks(s, t) && !t.open && !r.Answered?
  {
    hide EndsSession, Sound, Coherent, Truthful, AtMostOneMore, Noise, Replies;
    if s.w.inbox == [] {
      AbortKeeps(s);
    } else {
      ReceiveTells(s, f);
      if Noise(s.w.inbox[0]) {
        AbortKeeps(Received(s));
      } else {
        AbortAfterAnswer(Received(s), f);
      }
    }
  }

  lemma ExchangeEnds(s: Sys, f: Frame, want: string, sc: Script)
    requires Inv(s) && s.open && (f.Chunk? ==> f.seqNo == s.chunkSeq + 1) && sc.encodes
    ensures var (t, r) := Exchange(s, f, want, sc);
            && Ended(t, f, r) && t.w.srv.mode == s.w.srv.mode && (s.w.srv.committed ==> t.w.srv.committed)
            && t == s.(open := t.open, w := t.w, frames := s.frames + [f])
            && (r.Answered? ==> t.open && sc.write.Written? && Action(r.m) == want && !r.m.Garbled?)
            && (t.open <==> r.Answered? || (r.ServerError? && !r.ended && sc.write.Written?))
  {
    WriteKeeps(s, f, sc);
    ModeKept(Deliver(s.w, f, sc.write), sc.after);
    var u := Sent(s, f, sc);
    hide Midway, Inv, Ended, Deliver, EndsSession, Await, Explain, EnvAll;
    assert u.open;
    if sc.write.Written? {
      AwaitEnds(u, f, want, sc.timeout);
    } else {
      ExplainEnds(u, f);
    }
  }

  lemma {:induction false} ModeKept(w: World, steps: seq<Step>)
    ensures EnvAll(w, steps).srv.mode == w.srv.mode
    decreases |steps|
  {
    if steps != [] {
      assert Env(w, steps[0]).srv.mode == w.srv.mode by {
        hide EndsSession, Notice.Message;
      }
      hide Env;
      ModeKept(Env(w, steps[0]), steps[1..]);
    }
  }

  // ---------------------------------------------------------------- the calls

  lemma PauseKeeps(s: Sys, steps: seq<Step>)
    requires Inv(s)
    ensures Inv(Tick(s, steps)) && Tick(s, steps).w.srv.mode == s.w.srv.mode
  {
    hide Midway, Settled;
    StepsKeep(s, steps);
    ModeKept(s.w, steps);
  }

  lemma Unencoded(s: Sys, f: Frame, want: string, sc: Script)
    ensures !sc.encodes ==> Exchange(s, f, want, sc) == (s, EncodeError)
    ensures sc.encodes ==> !Exchange(s, f, want, sc).1.EncodeError? && !Exchange(s, f, want, sc).1.SessionClosed?
  {
  }

  /** SendChunk, whatever happens around it. An acknowledgement answers the chunk just sent and
      is never a replay; the number is spent exactly when the server took the chunk; and the
      session stays open exactly after an acknowledgement, a refusal that does not end it, or a
      frame that did not encode. */
  lemma SendChunkKeeps(s: Sys, rows: seq<Row>, sc: Script)
    requires Inv(s)
    ensures var (t, r) := SendChunk(s, rows, sc);
            && Inv(t) && t.w.srv.mode == s.w.srv.mode && t.confirmed == s.confirmed
            && (r.SessionClosed? <==> !s.open)
            && (t.open <==> s.open && (r.Answered? || r.EncodeError?
                                       || (r.ServerError? && !r.ended && sc.write.Written?)))
            && (if r.Answered? then
                  && r.m.AckMsg? && r.m.ack.seqNo == s.chunkSeq + 1 && !r.m.ack.replay
                  && t.acks == s.acks + [r.m.ack]
                  && t.chunkSeq == s.chunkSeq + (if WholeChunkFailed(r.m.ack) then 0 else 1)
                else t.acks == s.acks && t.chunkSeq == s.chunkSeq)
            && (t.frames == s.frames || (s.open && t.frames == s.frames + [Chunk(s.chunkSeq + 1, rows)]))
  {
    hide Midway, Settled, Exchange, EndsSession, WholeChunkFailed, Ended, EnvAll;
    PauseKeeps(s, sc.before);
    var u := Tick(s, sc.before);
    Unencoded(u, Chunk(s.chunkSeq + 1, rows), "batchAck", sc);
    if s.open && sc.encodes {
      assert !u.confirmed;
      var f := Chunk(s.chunkSeq + 1, rows);
      ExchangeEnds(u, f, "batchAck", sc);
      var (t, r) := Exchange(u, f, "batchAck", sc);
      hide Inv;
      if r.Answered? {
        assert r.m.AckMsg?;
        AckSettles(t, f, r.m.ack);
      } else {
        UnansweredSettles(t, f, r);
      }
    }
  }

  /** What the caller learns from an acknowledgement is what the server did. */
  lemma AckSettles(t: Sys, f: Frame, a: Ack)
    requires Ended(t, f, Answered(AckMsg(a))) && f.Chunk? && f.seqNo == t.chunkSeq + 1 && !t.confirmed
    ensures a.seqNo == f.seqNo && !a.replay
    ensures Inv(t.(acks := t.acks + [a], chunkSeq := if WholeChunkFailed(a) then t.chunkSeq else f.seqNo))
  {
    hide EndsSession, Sound, Owed, WholeChunkFailed;
  }

  lemma UnansweredSettles(t: Sys, f: Frame, r: Result)
    requires Ended(t, f, r) && !r.Answered? && !t.confirmed
    ensures Inv(t)
  {
    hide EndsSession, Sound, Owed;
  }

  /** Commit and Rollback always close the session; a successful Commit was decided by the
      server, and everything acknowledged is settled. Their outcome is the one asked for, or
      detached exactly when the session joined a transaction. */
  lemma FinishKeeps(s: Sys, commit: bool, sc: Script)
    requires Inv(s)
    ensures var (t, r) := Finish(s, commit, sc);
            && Inv(t) && t.w.srv.mode == s.w.srv.mode && !t.open && t.acks == s.acks && t.chunkSeq == s.chunkSeq
            && (r.SessionClosed? <==> !s.open)
            && (t.confirmed <==> s.confirmed || (commit && r.Answered?))
            && (r.Answered? ==>
                 Settled(t) && r.m == CommittedMsg(Outcome(t.w.srv, commit)) && (commit ==> t.w.srv.committed))
            && t.frames == if s.open then s.frames + [if commit then Commit else Rollback] else s.frames
  {
    hide Midway, Settled, Exchange, EndsSession, Ended, EnvAll;
    PauseKeeps(s, sc.before);
    var u := Tick(s, sc.before);
    if s.open {
      var f := if commit then Commit else Rollback;
      var sc' := sc.(encodes := true);
      Unencoded(u, f, "committed", sc');
      ExchangeEnds(u, f, "committed", sc');
      var (t, r) := Exchange(u, f, "committed", sc');
      assert !t.confirmed;
      if r.Answered? {
        assert r.m.CommittedMsg?;
        FinishSettles(t, f, r.m.outcome);
      } else {
        UnansweredSettles(t, f, r);
        ClosingKeeps(t);
      }
    }
  }

  lemma FinishSettles(t: Sys, f: Frame, outcome: string)
    requires Ended(t, f, Answered(CommittedMsg(outcome))) && !t.confirmed
    ensures var t' := t.(open := false, confirmed := f.Commit?);
            && Inv(t') && Settled(t') && (f.Commit? ==> t.w.srv.committed)
            && (f.Commit? || f.Rollback?) && outcome == Outcome(t.w.srv, f.Commit?)
  {
    hide EndsSession, Sound, Owed;
  }

  lemma ClosingKeeps(t: Sys)
    requires Inv(t)
    ensures Inv(t.(open := false))
  {
    hide EndsSession, Sound, Owed, Truthful;
  }

  lemma CloseKeeps(s: Sys, sc: Script)
    requires Inv(s)
    ensures Inv(Close(s, sc)) && !Close(s, sc).open && Close(s, sc).w.srv.mode == s.w.srv.mode
    ensures Close(s, sc).acks == s.acks && Close(s, sc).confirmed == s.confirmed
  {
    hide Finish, Midway, Settled;
    FinishKeeps(s, false, sc);
    AbortKeeps(Finish(s, false, sc).0);
  }

  lemma OpenKeeps(mode: Mode, sc: Script)
    ensures var (s, r) := Open(mode, sc);
            Inv(s) && s.w.srv.mode == mode && (s.open <==> r.Answered?) && s.acks == [] && !s.confirmed
                && s.frames == [Start]
  {
    assert Inv(Begin(mode)) by {
      hide EndsSession;
    }
    PauseKeeps(Begin(mode), sc.before);
    var u := Tick(Begin(mode), sc.before);
    var sc' := sc.(encodes := true);
    ExchangeEnds(u, Start, "started", sc');
    var (t, r) := Exchange(u, Start, "started", sc');
    hide Exchange, EndsSession, Sound, Owed, EnvAll;
    if !r.Answered? {
      UnansweredSettles(t, Start, r);
      AbortKeeps(t);
    }
  }

  // ---------------------------------------------------------------- whole runs

  lemma DoKeeps(s: Sys, c: Call)
    requires Inv(s)
    ensures Inv(Do(s, c)) && Do(s, c).w.srv.mode == s.w.srv.mode
  {
    hide Inv, SendChunk, Finish, Close, Tick;
    match c
    case CallSend(rows, sc) => SendChunkKeeps(s, rows, sc);
    case CallCommit(sc) => FinishKeeps(s, true, sc);
    case CallRollback(sc) => FinishKeeps(s, false, sc);
    case CallClose(sc) => CloseKeeps(s, sc);
    case Pause(steps) => PauseKeeps(s, steps);
  }

  lemma {:induction false} DoAllKeeps(s: Sys, calls: seq<Call>)
    requires Inv(s)
    ensures Inv(DoAll(s, calls)) && DoAll(s, calls).w.srv.mode == s.w.srv.mode
    decreases |calls|
  {
    hide Inv, Do;
    if calls != [] {
      DoKeeps(s, calls[0]);
      DoAllKeeps(Do(s, calls[0]), calls[1..]);
    }
  }

  /** Every run keeps the invariant. */
  lemma RunKeeps(mode: Mode, opening: Script, calls: seq<Call>)
    ensures Inv(Run(mode, opening, calls)) && Run(mode, opening, calls).w.srv.mode == mode
  {
    hide Inv, Open;
    OpenKeeps(mode, opening);
    DoAllKeeps(Open(mode, opening).0, calls);
  }

  /** Between calls an open session and its server agree on the sequence number, nothing is
      unanswered, and in no run was the server ever sent a replay or a chunk that skips ahead. */
  lemma RunAgrees(mode: Mode, opening: Script, calls: seq<Call>)
    ensures var s := Run(mode, opening, calls);
            && s.w.srv.anomalies == 0
            && (s.open ==> s.w.srv.watermark == s.chunkSeq && s.w.toServer == [] && Owed(s.w) == [])
  {
    hide Run;
    RunKeeps(mode, opening, calls);
  }

  /** Per-stream: success of Commit means durable is exactly what was acknowledged, in order,
      each once; and without a commit frame nothing is ever durable. */
  lemma CommitMakesAcknowledgedDurable(opening: Script, calls: seq<Call>)
    ensures var s := Run(PerStream, opening, calls);
            && (s.confirmed ==> s.w.srv.durable == Flatten(Taken(s.acks)))
            && (Commit !in s.frames ==> s.w.srv.durable == [])
  {
    hide Run;
    RunKeeps(PerStream, opening, calls);
  }

  /** Per-stream, in every run, at every moment and whatever the caller was told (also when the
      answer to its commit was lost): durable is nothing, or exactly what was acknowledged. */
  lemma DurableIsAllOrNothing(opening: Script, calls: seq<Call>)
    ensures var s := Run(PerStream, opening, calls);
            && (s.w.srv.durable == [] || s.w.srv.durable == Flatten(Taken(s.acks)))
            && (s.w.srv.committed ==> Commit in s.frames && s.w.srv.durable == Flatten(Taken(s.acks)))
  {
    hide Run;
    RunKeeps(PerStream, opening, calls);
  }

  /** The self-committing modes: everything acknowledged is durable at once and stays so, and at
      most one chunk more is, whose acknowledgement was lost with the session. */
  lemma AcknowledgedIsDurable(mode: Mode, opening: Script, calls: seq<Call>)
    requires mode.PerBatch? || mode.PerRow?
    ensures var s := Run(mode, opening, calls);
            || s.w.srv.durable == Flatten(Taken(s.acks))
            || (!s.open && !s.confirmed && exists last :: s.w.srv.durable == Flatten(Taken(s.acks)) + last)
  {
    hide Run;
    RunKeeps(mode, opening, calls);
    AppliedIsTaken(Run(mode, opening, calls));
  }

  /** A session that joined a transaction never decides it: in every run nothing is durable, and
      everything acknowledged stays staged in the transaction, in order and each once, with at
      most one chunk more, whose acknowledgement was lost with the session. */
  lemma JoinedDecidesNothing(opening: Script, calls: seq<Call>)
    ensures var s := Run(Joined, opening, calls);
            && s.w.srv.durable == []
            && (|| s.w.srv.staged == Flatten(Taken(s.acks))
                || (!s.open && !s.confirmed && exists last :: s.w.srv.staged == Flatten(Taken(s.acks)) + last))
  {
    hide Run;
    RunKeeps(Joined, opening, calls);
    AppliedIsTaken(Run(Joined, opening, calls));
  }

  /** The applied chunks are those acknowledged, with at most one more after the session ended. */
  lemma AppliedIsTaken(s: Sys)
    requires Inv(s)
    ensures || Flatten(s.w.srv.applied) == Flatten(Taken(s.acks))
            || (!s.open && !s.confirmed
                && exists last :: Flatten(s.w.srv.applied) == Flatten(Taken(s.acks)) + last)
  {
    if !Before(s) {
      var a := s.w.srv.applied;
      FlattenAdd(a[..|a| - 1], a[|a| - 1]);
      assert a == a[..|a| - 1] + [a[|a| - 1]];
      assert Flatten(a) == Flatten(Taken(s.acks)) + a[|a| - 1];
    }
  }

  // ---------------------------------------------------------------- the system does make progress

  /** The server takes the frame and the reader hands its answer over. */
  function Prompt(v: Verdict, fate: WriteFate): Script {
    Script([], true, fate, [ServerTakes(v), ReaderReads, ReaderPuts], false)
  }

  predicate Healthy(s: Sys) {
    && s.open && s.w.up && !s.w.readerDone && s.w.srv.phase.Live?
    && s.w.toClient == [] && s.w.held == [] && s.w.inbox == []
  }

  lemma PromptAnswer(s: Sys, f: Frame, v: Verdict, fate: WriteFate)
    requires Inv(s) && Healthy(s) && !fate.FailedLost?
    requires var m := Handle(s.w.srv, f, v).1; !m.Binary?
    ensures Sent(s, f, Prompt(v, fate)).w
            == s.w.(srv := Handle(s.w.srv, f, v).0, inbox := [Handle(s.w.srv, f, v).1])
  {
    assert s.w.toServer == [];
    hide Handle, Inv;
    var steps := Prompt(v, fate).after;
    var w0 := Deliver(s.w, f, fate);
    var w1, w2, w3 := Env(w0, steps[0]), Env(Env(w0, steps[0]), steps[1]),
        Env(Env(Env(w0, steps[0]), steps[1]), steps[2]);
    assert EnvAll(w3, []) == w3;
    assert EnvAll(w2, steps[2..]) == w3;
    assert EnvAll(w1, steps[1..]) == w3;
    assert EnvAll(w0, steps) == w3;
  }

  /** A healthy session with a prompt server is answered: the row outcome comes back in the ack,
      the number is spent and the session is ready for the next chunk. */
  lemma HealthyChunkIsAcknowledged(s: Sys, rows: seq<Row>, accepted: seq<Row>, errors: seq<nat>)
    requires Inv(s) && Healthy(s)
    ensures var (t, r) := SendChunk(s, rows, Prompt(Apply(accepted, errors), Written));
            && r == Answered(AckMsg(Ack(s.chunkSeq + 1, accepted, errors, false)))
            && t.chunkSeq == s.chunkSeq + 1 && Healthy(t)
  {
    var f := Chunk(s.chunkSeq + 1, rows);
    var v := Apply(accepted, errors);
    assert s.w.srv.watermark == s.chunkSeq;
    PromptAnswer(s, f, v, Written);
    hide Inv, EndsSession;
    assert forall e :: e in errors ==> e >= 0;
  }

  /** A refusal that is no notice leaves the session usable: it is told with its title and detail
      and SessionEnded false, the session stays open, and neither the number nor an
      acknowledgement is spent. */
  lemma RefusalLeavesTheSessionUsable(s: Sys, rows: seq<Row>, title: AnswerTitle, detail: string)
    requires Inv(s) && Healthy(s) && !exists n: Notice :: n.Message() == ErrorMsg(title, detail)
    ensures var (t, r) := SendChunk(s, rows, Prompt(Refuse(title, detail), Written));
            && r == ServerError(title, detail, false)
            && t.open && Healthy(t) && t.chunkSeq == s.chunkSeq && t.acks == s.acks
  {
    hide Inv, Handle, EnvAll, EndsSession, Deliver;
    var f := Chunk(s.chunkSeq + 1, rows);
    SurvivableErrors(title, detail);
    RefusalAnswers(s.w.srv, f, title, detail);
    PromptAnswer(s, f, Refuse(title, detail), Written);
    NoPause(s);
    assert [ErrorMsg(title, detail)][1..] == [];
  }

  /** A notice is told with SessionEnded true, and closes the session. */
  lemma NoticeClosesTheSession(s: Sys, rows: seq<Row>, n: Notice)
    requires Inv(s) && Healthy(s) && !n.Expired?
    ensures n.Message().ErrorMsg? && n.Message().title != EXPIRED_TITLE
    ensures var m := n.Message();
            var (t, r) := SendChunk(s, rows, Prompt(Refuse(m.title, m.detail), Written));
            && r == ServerError(m.title, m.detail, true)
            && !t.open && t.chunkSeq == s.chunkSeq && t.acks == s.acks
  {
    NoticesEndTheSession(n);
    var m := n.Message();
    assert m.title in {SECURITY_TITLE, INTERNAL_TITLE, SESSION_TITLE};
    hide Inv, Handle, EnvAll, EndsSession, Deliver;
    var f := Chunk(s.chunkSeq + 1, rows);
    RefusalAnswers(s.w.srv, f, m.title, m.detail);
    PromptAnswer(s, f, Refuse(m.title, m.detail), Written);
    NoPause(s);
  }

  /** An idle sweep between two calls is reported by the next one, which closes the session. */
  lemma ExpiryIsReported(s: Sys, rows: seq<Row>, why: string)
    requires Inv(s) && Healthy(s)
    ensures var sweep := [IdleSweep(why), ReaderReads, ReaderPuts];
            var (t, r) := SendChunk(s, rows, Script(sweep, true, Written, [], false));
            r == ServerError(EXPIRED_TITLE, why, true) && !t.open && t.acks == s.acks
  {
    var sweep := [IdleSweep(why), ReaderReads, ReaderPuts];
    NoticesEndTheSession(Expired(why));
    hide Inv, EndsSession;
    var w1, w2, w3 := Env(s.w, sweep[0]), Env(Env(s.w, sweep[0]), sweep[1]),
                      Env(Env(Env(s.w, sweep[0]), sweep[1]), sweep[2]);
    assert w1.toClient == [ErrorMsg(EXPIRED_TITLE, why)];
    assert w3.inbox == [ErrorMsg(EXPIRED_TITLE, why)];
    assert EnvAll(w3, []) == w3;
    assert EnvAll(w2, sweep[2..]) == w3;
    assert EnvAll(w1, sweep[1..]) == w3;
    assert EnvAll(s.w, sweep) == w3;
    assert forall w :: EnvAll(w, []) == w;
  }

  /** A healthy session with a prompt server is answered: the commit is made and everything
      acknowledged is decided. */
  lemma HealthyFinishIsAnswered(s: Sys, commit: bool)
    requires Inv(s) && Healthy(s)
    ensures var (t, r) := Finish(s, commit, Prompt(Apply([], []), Written));
            && r == Answered(CommittedMsg(if s.w.srv.mode.Joined? then "detached"
                                          else if commit then "commit" else "rollback"))
            && !t.open && (t.confirmed <==> s.confirmed || commit)
            && (s.w.srv.mode.PerStream? ==> t.w.srv.durable == if commit then Flatten(Taken(s.acks)) else [])
  {
    var f := if commit then Commit else Rollback;
    var sc := Prompt(Apply([], []), Written);
    assert s.w.srv.mode.PerStream? ==> s.w.srv.staged == Flatten(Taken(s.acks)) && s.w.srv.durable == [];
    PromptAnswer(s, f, Apply([], []), Written);
    NoPause(s);
    assert sc.(encodes := true) == sc;
    hide Inv, EndsSession, EnvAll;
  }

  /** A prompt server opens the session. */
  lemma PromptOpening(mode: Mode)
    ensures var (s, r) := Open(mode, Prompt(Apply([], []), Written));
            r == Answered(StartedMsg) && Healthy(s) && s.chunkSeq == 0 && s.w.srv.mode == mode
  {
    var s := Begin(mode);
    var sc := Prompt(Apply([], []), Written);
    NoPause(s);
    var w0 := Deliver(s.w, Start, Written);
    var w1, w2, w3 := Env(w0, sc.after[0]), Env(Env(w0, sc.after[0]), sc.after[1]),
                      Env(Env(Env(w0, sc.after[0]), sc.after[1]), sc.after[2]);
    assert w1.toClient == [StartedMsg] && w1.srv.phase.Live?;
    assert w3.inbox == [StartedMsg] && w3.toClient == [];
    assert EnvAll(w3, []) == w3;
    assert EnvAll(w2, sc.after[2..]) == w3;
    assert EnvAll(w1, sc.after[1..]) == w3;
    assert EnvAll(w0, sc.after) == w3;
    assert sc.(encodes := true) == sc;
    hide EnvAll, EndsSession;
  }

  /** The frame at the front is neither an error nor an acknowledgement. */
  predicate Unexpected(inbox: seq<Msg>) {
    inbox != [] && !inbox[0].ErrorMsg? && !inbox[0].AckMsg?
  }

  /** The other ways a chunk can fail, each with its own error: a frame that does not encode costs
      nothing; a deadline, a lost connection, an unexpected frame and a failed write close the session. */
  lemma FailuresAreTold(s: Sys, rows: seq<Row>, sc: Script)
    requires s.open
    ensures var u := Tick(s, sc.before);
            var sent := Sent(u, Chunk(s.chunkSeq + 1, rows), sc);
            var (t, r) := SendChunk(s, rows, sc);
            && (!sc.encodes ==> r == EncodeError && t == u)
            && (sc.encodes && sc.write.Written? && sc.timeout ==> r == TimedOut && !t.open)
            && (sc.encodes && sc.write.Written? && !sc.timeout && sent.w.inbox == [] && sent.w.readerDone ==>
                 r == ConnLost && !t.open)
            && (sc.encodes && sc.write.Written? && !sc.timeout && Unexpected(sent.w.inbox) ==> r == BadFrame && !t.open)
            && (sc.encodes && !sc.write.Written? && (sent.w.inbox == [] || !sent.w.inbox[0].ErrorMsg?) ==>
                 r == SendError && !t.open)
            && (sc.encodes && !sc.write.Written? && sent.w.inbox != [] && sent.w.inbox[0].ErrorMsg? ==>
                 r.ServerError? && r.title == sent.w.inbox[0].title && r.detail == sent.w.inbox[0].detail && !t.open)
  {
    hide EnvAll, EndsSession, Deliver;
  }

  /** SessionEnded false does not always mean the session is open: when the write itself failed
      the session is closed, whatever the error frame found in the channel says. */
  lemma UsableErrorOnClosedSession(s: Sys, rows: seq<Row>)
    requires Inv(s) && Healthy(s)
    ensures var (t, r) := SendChunk(s, rows, Prompt(Refuse("Too many frames in flight", ""), FailedButDelivered));
            r == ServerError("Too many frames in flight", "", false) && !t.open
  {
    hide Inv, Handle, EnvAll, EndsSession, Deliver;
    var f := Chunk(s.chunkSeq + 1, rows);
    var v := Refuse("Too many frames in flight", "");
    RefusalAnswers(s.w.srv, f, v.title, v.detail);
    PromptAnswer(s, f, v, FailedButDelivered);
    FramesInFlight();
    var sc := Prompt(v, FailedButDelivered);
    NoPause(s);
    var u := Sent(s, f, sc);
    assert u.w.inbox == [ErrorMsg(v.title, v.detail)];
    assert Exchange(s, f, "batchAck", sc) == Explain(u);
  }

  lemma NoPause(s: Sys)
    ensures Tick(s, []) == s
  {
  }

  lemma RefusalAnswers(srv: Server, f: Frame, title: AnswerTitle, detail: string)
    requires srv.phase.Live? && !f.Start?
    ensures Handle(srv, f, Refuse(title, detail)) == (srv, ErrorMsg(title, detail))
  {
  }

  lemma FramesInFlight()
    ensures !EndsSession("Too many frames in flight", "")
  {
  }
}
