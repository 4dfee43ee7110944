/** What every run of an insert session keeps, and what follows for its caller. */
module InsertSafety {
  import opened Wrappers
  import opened InsertProtocol
  import opened InsertSystem

  // ---------------------------------------------------------------- vocabulary

  /** The row lists of the chunks the caller saw acknowledged, whole-chunk failures aside. */
  function Taken(acks: seq<Ack>): seq<seq<Row>> {
    if acks == [] then []
    else
      var a := acks[|acks| - 1];
      Taken(acks[..|acks| - 1]) + if WholeChunkFailed(a) then [] else [a.accepted]
  }

  predicate Noise(m: Msg) {
    m.Binary? || (m.ErrorMsg? && m.title == EXPIRED_TITLE)
  }

  /** The answers among messages: everything but pushed expiries and stray binary frames. */
  function Replies(ms: seq<Msg>): seq<Msg> {
    if ms == [] then [] else (if Noise(ms[0]) then [] else [ms[0]]) + Replies(ms[1..])
  }

  /** The answers on their way to the client, in the order it will see them. */
  function Owed(w: World): seq<Msg> {
    Replies(w.inbox) + Replies(w.held) + Replies(w.toClient)
  }

  // ---------------------------------------------------------------- the invariant

  /** The server's store always matches its list of applied chunks. */
  predicate Sound(s: Server) {
    && s.watermark == |s.applied|
    && s.anomalies == 0
    && (s.committed ==> s.phase.Gone?)
    && (s.phase.Awaiting? ==> s.applied == [])
    && match s.mode
       case PerStream =>
         && s.durable == (if s.committed then Flatten(s.applied) else [])
         && s.staged == (if s.phase.Gone? then [] else Flatten(s.applied))
       case PerBatch => s.durable == Flatten(s.applied) && s.staged == []
       case PerRow => s.durable == Flatten(s.applied) && s.staged == []
       case Joined => s.durable == [] && s.staged == Flatten(s.applied)
  }

  /** The server has applied exactly what the caller saw acknowledged. */
  predicate Before(s: Sys) {
    && s.w.srv.applied == Taken(s.acks)
    && s.w.srv.watermark == s.chunkSeq
  }

  /** Or that plus the one chunk whose acknowledgement has not been seen. */
  predicate AtMostOneMore(s: Sys) {
    Before(s)
    || (|s.w.srv.applied| == |Taken(s.acks)| + 1 && Taken(s.acks) == s.w.srv.applied[..|Taken(s.acks)|])
  }

  /** No frame is unanswered and no answer is on its way. */
  predicate Settled(s: Sys) {
    s.w.toServer == [] && Owed(s.w) == [] && Before(s)
  }

  /** `m`, the answer to `f`, tells the truth about what the server did. */
  predicate Truthful(s: Sys, f: Frame, m: Msg) {
    match m
    case AckMsg(a) =>
      && f.Chunk? && a.seqNo == f.seqNo && !a.replay
      && (if WholeChunkFailed(a) then Before(s) && a.accepted == []
          else s.w.srv.applied == Taken(s.acks) + [a.accepted] && s.w.srv.watermark == f.seqNo)
    case ErrorMsg(title, detail) => EndsSession(title, detail) || Before(s)
    case StartedMsg => f.Start? && Before(s)
    case CommittedMsg(o) =>
      && (f.Commit? || f.Rollback?) && o == Outcome(s.w.srv, f.Commit?)
      && (f.Commit? ==> s.w.srv.committed && s.w.srv.phase.Gone?) && Before(s)
    case _ => true
  }

  /** Frame `f` is out: not taken yet, answered once, or lost with the connection. */
  predicate Pending(s: Sys, f: Frame) {
    && (f.Chunk? ==> f.seqNo == s.chunkSeq + 1)
    && (|| (s.w.toServer == [f] && Owed(s.w) == [] && Before(s))
        || (s.w.toServer == [] && |Owed(s.w)| == 1 && AtMostOneMore(s) && Truthful(s, f, Owed(s.w)[0]))
        || (s.w.toServer == [] && Owed(s.w) == [] && !s.w.up && AtMostOneMore(s)))
  }

  /** The reader and the connection agree on whether messages can still arrive. */
  predicate Wired(w: World) {
    && |w.held| <= 1
    && (w.cancelled ==> !w.up)
    && (w.readerDone ==> !w.up && w.held == [] && w.toClient == [])
  }

  predicate Coherent(s: Sys) {
    && Sound(s.w.srv)
    && s.chunkSeq == |Taken(s.acks)|
    && Wired(s.w)
    && (s.w.srv.committed || Commit in s.w.toServer ==> Commit in s.frames)
    && (s.w.srv.committed ==> Before(s))
  }

  predicate Outstanding(s: Sys) {
    s.frames != [] && Pending(s, s.frames[|s.frames| - 1])
  }

  /** Holds at every moment, inside calls too. */
  predicate Midway(s: Sys) {
    Coherent(s) && (Settled(s) || Outstanding(s))
  }

  /** Holds whenever no call is running. */
  predicate Inv(s: Sys) {
    && Midway(s)
    && (s.open ==> Settled(s))
    && (s.confirmed ==> Settled(s) && s.w.srv.committed && !s.open)
  }

  // ---------------------------------------------------------------- lemmas about messages

  lemma RepliesAppend(a: seq<Msg>, b: seq<Msg>)
    ensures Replies(a + b) == Replies(a) + Replies(b)
  {
    if a == [] {
      assert a + b == b;
    } else {
      assert (a + b)[1..] == a[1..] + b;
      RepliesAppend(a[1..], b);
    }
  }

  lemma RepliesPrefix(a: seq<Msg>, n: nat)
    ensures |Replies(First(n, a))| <= |Replies(a)|
    ensures Replies(First(n, a)) == Replies(a)[..|Replies(First(n, a))|]
  {
    if n < |a| {
      assert a == a[..n] + a[n..];
      RepliesAppend(a[..n], a[n..]);
    }
  }

  // ---------------------------------------------------------------- one environment step

  lemma PushOwes(w: World, m: Msg)
    ensures Owed(Push(w, m)) == if w.up && !Noise(m) then Owed(w) + [m] else Owed(w)
  {
    RepliesAppend(w.toClient, [m]);
    assert [m][1..] == [];
    assert Replies([m]) == if Noise(m) then [] else [m];
  }

  /** Handling a frame keeps the server sound and answers it truthfully. */
  predicate Tells(s: Sys, f: Frame, srv: Server, m: Msg) {
    var t := s.(w := s.w.(srv := srv));
    && Sound(srv) && AtMostOneMore(t) && Truthful(t, f, m) && !Noise(m)
    && (srv.committed && !s.w.srv.committed ==> f.Commit?) && (srv.committed ==> Before(t))
  }

  lemma EffectTells(s: Sys, f: Frame, accepted: seq<Row>)
    requires Sound(s.w.srv) && Before(s) && s.chunkSeq == |Taken(s.acks)|
    requires f.Chunk? ==> f.seqNo == s.chunkSeq + 1
    requires if f.Start? then s.w.srv.phase.Awaiting? else s.w.srv.phase.Live?
    ensures var srv := Effect(s.w.srv, f, accepted);
            && Sound(srv) && AtMostOneMore(s.(w := s.w.(srv := srv)))
            && (f.Chunk? ==> srv.applied == Taken(s.acks) + [accepted] && srv.watermark == f.seqNo)
            && (!f.Chunk? ==> Before(s.(w := s.w.(srv := srv))))
            && (srv.committed && !s.w.srv.committed <==> f.Commit?)
            && (f.Commit? ==> srv.phase.Gone?) && srv.mode == s.w.srv.mode
            && (srv.committed ==> Before(s.(w := s.w.(srv := srv))))
  {
    FlattenAdd(s.w.srv.applied, accepted);
  }

  lemma NoNoise()
    ensures forall m: Msg :: Noise(m) <==> m.Binary? || (m.ErrorMsg? && m.title == EXPIRED_TITLE)
    ensures LOST.Message().ErrorMsg? && Internal("").Message().ErrorMsg?
    ensures !Noise(LOST.Message()) && !Noise(Internal("").Message())
    ensures forall why :: Security(why).Message().ErrorMsg? && !Noise(Security(why).Message())
    ensures forall d :: !Noise(ErrorMsg(SESSION_TITLE, d))
  {
  }

  /** A server that kept or dropped the session may answer with any error or garbled frame. */
  lemma ErrorTells(s: Sys, f: Frame, srv: Server, m: Msg)
    requires Sound(s.w.srv) && Before(s)
    requires srv == s.w.srv || srv == Discard(s.w.srv)
    requires !Noise(m) && (m.ErrorMsg? || m.Garbled?)
    ensures Tells(s, f, srv, m)
  {
    hide EndsSession, Noise;
  }

  /** A frame that took full effect may also be answered by a notice or a garbled frame. */
  lemma AnywayTells(s: Sys, f: Frame, accepted: seq<Row>, m: Msg)
    requires Sound(s.w.srv) && Before(s) && s.chunkSeq == |Taken(s.acks)|
    requires f.Chunk? ==> f.seqNo == s.chunkSeq + 1
    requires if f.Start? then s.w.srv.phase.Awaiting? else s.w.srv.phase.Live?
    requires !Noise(m) && (m.Garbled? || (m.ErrorMsg? && EndsSession(m.title, m.detail)))
    ensures Tells(s, f, Effect(s.w.srv, f, accepted), m)
  {
    hide EndsSession, Noise, Sound, Effect;
    EffectTells(s, f, accepted);
  }

  lemma ApplyTells(s: Sys, f: Frame, accepted: seq<Row>, errors: seq<nat>)
    requires Sound(s.w.srv) && Before(s) && s.chunkSeq == |Taken(s.acks)|
    requires f.Chunk? ==> f.seqNo == s.chunkSeq + 1
    requires if f.Start? then s.w.srv.phase.Awaiting? else s.w.srv.phase.Live?
    ensures Tells(s, f, Effect(s.w.srv, f, accepted), Answer(s.w.srv, f, accepted, errors))
  {
    hide EndsSession, Sound, Effect;
    EffectTells(s, f, accepted);
    assert forall e :: e in errors ==> e >= 0;
  }

  lemma HandleTells(s: Sys, f: Frame, v: Verdict)
    requires Sound(s.w.srv) && Before(s) && s.chunkSeq == |Taken(s.acks)|
    requires f.Chunk? ==> f.seqNo == s.chunkSeq + 1
    ensures var (srv, m) := Handle(s.w.srv, f, v); Tells(s, f, srv, m)
  {
    hide EndsSession, Effect, Sound, Noise, Notice.Message, Tells, Discard, Answer;
    NoNoise();
    NoticesEndTheSession(LOST);
    NoticesEndTheSession(Internal(""));
    var (srv, m) := Handle(s.w.srv, f, v);
    if (f.Start? && s.w.srv.phase != Awaiting) || (!f.Start? && s.w.srv.phase != Live) || v.Refuse? {
      ErrorTells(s, f, srv, m);
    } else {
      match v
      case Apply(accepted, errors) => ApplyTells(s, f, accepted, errors);
      case FailWhole =>
        if f.Chunk? { WholeTells(s, f); } else { ErrorTells(s, f, srv, m); }
      case Evict(why) => ErrorTells(s, f, srv, m);
      case Crash(anyway, accepted) =>
        if anyway { AnywayTells(s, f, accepted, m); } else { ErrorTells(s, f, srv, m); }
      case Botch(anyway, accepted, _) =>
        if anyway { AnywayTells(s, f, accepted, m); } else { ErrorTells(s, f, srv, m); }
    }
  }

  lemma WholeTells(s: Sys, f: Frame)
    requires Sound(s.w.srv) && Before(s) && f.Chunk?
    ensures Tells(s, f, s.w.srv, AckMsg(Ack(f.seqNo, [], [-1], false)))
  {
  }

  lemma ExpiryIsNoise(why: string)
    ensures Noise(Expired(why).Message()) && Noise(Binary)
  {
  }

  /** The reader moves messages along without changing what is owed. */
  lemma ReaderOwes(w: World)
    requires w.held == []
    ensures var w' := Env(w, ReaderReads);
            Owed(w') == Owed(w) && w'.toServer == w.toServer && (Wired(w) ==> Wired(w'))
  {
    hide Noise;
    ExpiryIsNoise("");
    if w.toClient != [] {
      assert Replies([w.toClient[0]]) == Replies([w.toClient[0]] + []);
      assert w.toClient == [w.toClient[0]] + w.toClient[1..];
      RepliesAppend([w.toClient[0]], w.toClient[1..]);
    }
  }

  lemma PutOwes(w: World)
    ensures var w' := Env(w, ReaderPuts);
            Owed(w') == Owed(w) && w'.toServer == w.toServer && (Wired(w) ==> Wired(w'))
  {
    hide Noise;
    RepliesAppend(w.inbox, w.held);
  }

  lemma DropOwes(w: World, frames: nat, msgs: nat)
    ensures var w' := Env(w, Drop(frames, msgs));
            (Owed(w') == Owed(w) || Owed(w') == [] || |Owed(w)| > 1) && (Wired(w) ==> Wired(w'))
  {
    hide Noise;
    RepliesPrefix(w.toClient, msgs);
  }

  /** With no frame waiting, a step leaves the answers owed as they are, or cuts the connection. */
  lemma QuietStep(w: World, step: Step)
    requires w.toServer == [] && Wired(w)
    ensures var w' := Env(w, step);
            && w'.toServer == [] && Wired(w') && (w'.up ==> w.up)
            && (Owed(w') == Owed(w) || (!w'.up && (Owed(w') == [] || |Owed(w)| > 1)))
            && (w'.srv == w.srv || (w.srv.phase.Live? && w'.srv == Discard(w.srv)))
  {
    hide Noise, Handle, Notice.Message, Replies, Discard;
    ExpiryIsNoise("");
    match step
    case ReaderReads => if w.held == [] { ReaderOwes(w); }
    case ReaderPuts => PutOwes(w);
    case ReaderStops => NothingOwed();
    case Drop(frames, msgs) => DropOwes(w, frames, msgs);
    case IdleSweep(why) =>
      ExpiryIsNoise(why);
      PushOwes(w.(srv := Discard(w.srv)), Expired(why).Message());
    case StrayBinary => PushOwes(w, Binary);
    case _ =>
  }

  lemma NothingOwed()
    ensures Replies([]) == []
  {
  }

  /** The server takes the frame that is out. */
  lemma TakeKeeps(s: Sys, v: Verdict)
    requires Midway(s) && s.w.toServer != []
    ensures Midway(Tick1(s, ServerTakes(v)))
    ensures s.w.srv.committed ==> Tick1(s, ServerTakes(v)).w.srv.committed
  {
    hide Sound, Noise, Replies, Handle, EndsSession;
    var f := s.w.toServer[0];
    HandleTells(s, f, v);
    var (srv, m) := Handle(s.w.srv, f, v);
    PushOwes(s.w.(srv := srv, toServer := []), m);
    CommittedStays(s.w.srv, f, v);
  }

  lemma CommittedStays(s: Server, f: Frame, v: Verdict)
    ensures s.committed ==> Handle(s, f, v).0.committed
  {
    hide EndsSession;
  }

  function Tick1(s: Sys, step: Step): Sys {
    s.(w := Env(s.w, step))
  }

  /** Only the server and a cut touch the queue of written frames, and nothing else reads it. */
  lemma EnvIgnoresQueue(w: World, step: Step)
    requires !step.ServerTakes? && |w.toServer| == 1
    ensures var w' := Env(w, step);
            && w' == Env(w.(toServer := []), step).(toServer := w'.toServer)
            && (w'.toServer == w.toServer || (w'.toServer == [] && !w'.up))
  {
    hide Notice.Message, Discard, Handle;
  }

  /** A frame on its way stays there until the server takes it or the connection loses it. */
  lemma WaitKeeps(s: Sys, step: Step)
    requires Midway(s) && s.w.toServer != [] && !step.ServerTakes?
    ensures Midway(Tick1(s, step))
    ensures s.w.srv.committed ==> Tick1(s, step).w.srv.committed
  {
    hide Noise, Replies, EndsSession, Env;
    QuietStep(s.w.(toServer := []), step);
    EnvIgnoresQueue(s.w, step);
  }

  lemma QuietKeeps(s: Sys, step: Step)
    requires Midway(s) && s.w.toServer == []
    ensures Midway(Tick1(s, step)) && (Settled(s) ==> Settled(Tick1(s, step)))
    ensures s.w.srv.committed ==> Tick1(s, step).w.srv.committed
  {
    hide Noise, Replies, EndsSession, Env, Owed;
    QuietStep(s.w, step);
  }

  lemma StepKeeps(s: Sys, step: Step)
    requires Midway(s)
    ensures Midway(Tick1(s, step)) && (Settled(s) ==> Settled(Tick1(s, step)))
    ensures s.w.srv.committed ==> Tick1(s, step).w.srv.committed
  {
    hide Midway, Env;
    if s.w.toServer == [] {
      QuietKeeps(s, step);
    } else if step.ServerTakes? {
      TakeKeeps(s, step.v);
    } else {
      WaitKeeps(s, step);
    }
  }

  lemma {:induction false} StepsKeep(s: Sys, steps: seq<Step>)
    requires Midway(s)
    ensures Midway(Tick(s, steps)) && (Settled(s) ==> Settled(Tick(s, steps)))
    ensures s.w.srv.committed ==> Tick(s, steps).w.srv.committed
    decreases |steps|
  {
    hide Midway, Settled, Env;
    if steps != [] {
      StepKeeps(s, steps[0]);
      StepsKeep(Tick1(s, steps[0]), steps[1..]);
    }
  }
}
