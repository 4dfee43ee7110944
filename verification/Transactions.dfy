/** Callback transactions: the three clients' `transaction` calls against one specification,
    for every callback outcome, every RPC fault and every moment of cancellation. */
module Transactions {
  import opened Wrappers

  datatype Client = GoHttp | GoGrpc | TypeScript

  datatype Isolation = Default | ReadCommitted | RepeatableRead | OtherLevel(name: string)

  /** What a callback failed with. Only TypeScript reads the last three fields. */
  datatype Failure = Failure(id: int, isError: bool, cause: Option<int>, frozen: bool)

  /** How a callback ended: it returned, returned or threw a failure, panicked with a value, or
      never returned and left nothing to recover, by Goexit or by an unrecoverable panic(nil). */
  datatype End = Returned | Failed(failure: Failure) | Panicked(value: int) | Exited | PanickedNil

  /** The callback and what happens while it runs. */
  datatype Callback = Callback(end: End, reaped: bool, cancelled: bool)

  /** What becomes of one RPC. An unsent one never reached the server; one whose answer is lost
      was carried out. */
  datatype Fate = Served | Rejected(error: int) | Unsent(error: int) | AnswerLost(error: int)

  datatype Fates = Fates(begin: Fate, commit: Fate, rollback: Fate)

  datatype Context = Context(cancelled: bool)

  function WithoutCancel(ctx: Context): Context {
    ctx.(cancelled := false)
  }

  /** The server's side of the transaction. */
  datatype State = NoTransaction | Live | Committed | RolledBack | Reaped

  datatype Call =
    | Begin(database: string, session: string, isolation: Isolation)
    | RunCallback(id: string)
    | Commit(database: string, id: string)
    | Rollback(database: string, id: string)

  datatype CommitReply = Acknowledged | NotCommitted | CommitFailed(error: int)

  datatype Error =
    | InvalidIsolation
    | Rpc(error: int)
    | NoTransactionId
    | FromCallback(failure: Failure)
    | TxError(failure: Failure, rollback: int)
    | DidNotCommit
    | PanicNilOrGoexit

  datatype Outcome = Success | Err(error: Error) | Raised(value: int) | GoexitContinues

  /** TxError.Unwrap. */
  function Unwrap(e: Error): Error {
    if e.TxError? then FromCallback(e.failure) else e
  }

  // ---------------------------------------------------------------- blank ids

  predicate CommonSpace(c: char) {
    c in "\t\n\r \U{000B}\U{000C}\U{00A0}\U{1680}\U{2028}\U{2029}\U{202F}\U{205F}\U{3000}"
        || '\U{2000}' <= c <= '\U{200A}'
  }

  /** unicode.IsSpace, which strings.TrimSpace removes, and the white space of String.trim. */
  predicate Space(client: Client, c: char) {
    CommonSpace(c) || c == if client.TypeScript? then '\U{FEFF}' else '\U{0085}'
  }

  /** A transaction id a client runs the callback with. */
  predicate Usable(client: Client, id: string) {
    if client.GoHttp? then id != "" else exists i :: 0 <= i < |id| && !Space(client, id[i])
  }

  // ---------------------------------------------------------------- the server

  const GONE_STATUS := 404

  class Server {
    const fates: Fates
    /** The id begin answers with, possibly none. */
    const issued: string
    var state: State
    var log: seq<Call>

    constructor (fates: Fates, issued: string)
      ensures this.fates == fates && this.issued == issued && state == NoTransaction && log == []
    {
      this.fates, this.issued := fates, issued;
      state, log := NoTransaction, [];
    }

    method BeginTransaction(ctx: Context, call: Call) returns (id: string, error: Option<int>)
      requires call.Begin?
      modifies this
      ensures log == old(log) + [call]
      ensures error == FateError(Effective(ctx, fates.begin))
      ensures state == if Executed(Effective(ctx, fates.begin)) then Live else old(state)
      ensures id == issued
    {
      log := log + [call];
      var fate := Effective(ctx, fates.begin);
      if Executed(fate) {
        state := Live;
      }
      id, error := issued, FateError(fate);
    }

    /** The callback runs its statements; meanwhile the server may reap the session. */
    method Statements(id: string, callback: Callback)
      modifies this
      ensures log == old(log) + [RunCallback(id)]
      ensures state == if callback.reaped && old(state).Live? then Reaped else old(state)
    {
      log := log + [RunCallback(id)];
      if callback.reaped && state.Live? {
        state := Reaped;
      }
    }

    /** A commit for a session that is gone is an error status over HTTP, and a plain answer
        with committed=false over gRPC. */
    method CommitTransaction(ctx: Context, call: Call, http: bool) returns (reply: CommitReply)
      requires call.Commit?
      modifies this
      ensures log == old(log) + [call]
      ensures reply == CommitAnswer(Effective(ctx, fates.commit), old(state), http)
      ensures state == if Executed(Effective(ctx, fates.commit)) && old(state).Live? then Committed else old(state)
    {
      log := log + [call];
      var fate := Effective(ctx, fates.commit);
      reply := CommitAnswer(fate, state, http);
      if Executed(fate) && state.Live? {
        state := Committed;
      }
    }

    method RollbackTransaction(ctx: Context, call: Call) returns (error: Option<int>)
      requires call.Rollback?
      modifies this
      ensures log == old(log) + [call]
      ensures error == FateError(Effective(ctx, fates.rollback))
      ensures state == if Executed(Effective(ctx, fates.rollback)) && old(state).Live? then RolledBack else old(state)
    {
      log := log + [call];
      var fate := Effective(ctx, fates.rollback);
      error := FateError(fate);
      if Executed(fate) && state.Live? {
        state := RolledBack;
      }
    }
  }

  const CANCELLED_CODE := 1

  /** A call under a cancelled context is not sent. */
  function Effective(ctx: Context, fate: Fate): Fate {
    if ctx.cancelled then Unsent(CANCELLED_CODE) else fate
  }

  predicate Executed(fate: Fate) {
    fate.Served? || fate.AnswerLost?
  }

  function FateError(fate: Fate): Option<int> {
    if fate.Served? then None else Some(fate.error)
  }

  function CommitAnswer(fate: Fate, state: State, http: bool): CommitReply {
    if !fate.Served? then CommitFailed(fate.error)
    else if state.Live? then Acknowledged
    else if http then CommitFailed(GONE_STATUS)
    else NotCommitted
  }

  // ---------------------------------------------------------------- the specification

  datatype Job = Job(database: string, session: string, isolation: Isolation, ctx: Context, callback: Callback)

  datatype Trace = Trace(outcome: Outcome, calls: seq<Call>, state: State)

  function BeginCall(client: Client, job: Job): Call {
    Begin(job.database, if client.GoHttp? then job.session else "", job.isolation)
  }

  /** The context the commit runs under: the caller's, as it is after the callback. */
  function CommitContext(client: Client, job: Job): Context {
    Context(!client.TypeScript? && (job.ctx.cancelled || job.callback.cancelled))
  }

  function BeginContext(client: Client, job: Job): Context {
    Context(!client.TypeScript? && job.ctx.cancelled)
  }

  /** The state the ending calls meet. */
  function AfterCallback(job: Job): State {
    if job.callback.reaped then Reaped else Live
  }

  /** What the caller sees of a failed callback when the rollback ended with `rollback`. */
  function Surface(client: Client, f: Failure, rollback: Option<int>): Error {
    if rollback.None? then FromCallback(f)
    else if !client.TypeScript? then TxError(f, rollback.value)
    else if f.isError && f.cause.None? && !f.frozen then FromCallback(f.(cause := rollback))
    else FromCallback(f)
  }

  predicate Ran(client: Client, job: Job, fates: Fates, id: string) {
    && !job.isolation.OtherLevel?
    && Effective(BeginContext(client, job), fates.begin).Served?
    && Usable(client, id)
  }

  function Answer(client: Client, job: Job, fates: Fates): CommitReply {
    CommitAnswer(Effective(CommitContext(client, job), fates.commit), AfterCallback(job), client.GoHttp?)
  }

  /** The calls that end the transaction. */
  function Ending(client: Client, job: Job, fates: Fates, id: string): seq<Call> {
    var commit, rollback := Commit(job.database, id), Rollback(job.database, id);
    if !job.callback.end.Returned? then [rollback]
    else match Answer(client, job, fates)
      case Acknowledged => [commit]
      case NotCommitted => if client.TypeScript? then [commit, rollback] else [commit]
      case CommitFailed(_) => [commit, rollback]
  }

  function Result(client: Client, job: Job, fates: Fates): Outcome {
    match job.callback.end
    case Returned => (
      match Answer(client, job, fates)
      case Acknowledged => Success
      case NotCommitted => Err(DidNotCommit)
      case CommitFailed(e) => Err(Rpc(e)))
    case Failed(f) => Err(Surface(client, f, FateError(fates.rollback)))
    case Panicked(v) => Raised(v)
    case Exited => GoexitContinues
    case PanickedNil => Err(PanicNilOrGoexit)
  }

  /** What the server makes of the ending calls. */
  function Settled(client: Client, job: Job, fates: Fates): State {
    var s := AfterCallback(job);
    if !s.Live? then s
    else if job.callback.end.Returned? && Executed(Effective(CommitContext(client, job), fates.commit)) then Committed
    else if Executed(fates.rollback) then RolledBack
    else Live
  }

  function Spec(client: Client, job: Job, fates: Fates, id: string): Trace {
    var begin := Effective(BeginContext(client, job), fates.begin);
    if job.isolation.OtherLevel? then Trace(Err(InvalidIsolation), [], NoTransaction)
    else if !begin.Served? then
      Trace(Err(Rpc(begin.error)), [BeginCall(client, job)], if Executed(begin) then Live else NoTransaction)
    else if !Usable(client, id) then Trace(Err(NoTransactionId), [BeginCall(client, job)], Live)
    else Trace(Result(client, job, fates), [BeginCall(client, job), RunCallback(id)] + Ending(client, job, fates, id),
               Settled(client, job, fates))
  }

  predicate Callable(client: Client, end: End) {
    client.TypeScript? ==> end.Returned? || end.Failed?
  }

  // ---------------------------------------------------------------- Go over HTTP

  /** beginTransaction: the id, or the error. */
  method BeginHttp(srv: Server, job: Job) returns (sid: string, error: Option<Error>)
    modifies srv
    ensures srv.log == old(srv.log) + [BeginCall(GoHttp, job)]
    ensures srv.state == if Executed(Effective(job.ctx, srv.fates.begin)) then Live else old(srv.state)
    ensures sid == srv.issued
    ensures var fate := Effective(job.ctx, srv.fates.begin);
            error == if !fate.Served? then Some(Rpc(fate.error)) else if sid == "" then Some(NoTransactionId) else None
  {
    var e: Option<int>;
    sid, e := srv.BeginTransaction(job.ctx, Begin(job.database, job.session, job.isolation));
    if e.Some? {
      return sid, Some(Rpc(e.value));
    }
    if sid == "" {
      return sid, Some(NoTransactionId);
    }
    error := None;
  }

  /** Database.Transaction; its deferred function runs when the callback did not return. */
  method HttpTransaction(srv: Server, job: Job) returns (o: Outcome)
    requires srv.state == NoTransaction && srv.log == []
    modifies srv
    ensures Trace(o, srv.log, srv.state) == Spec(GoHttp, job, srv.fates, srv.issued)
  {
    if job.isolation.OtherLevel? {
      return Err(InvalidIsolation);
    }
    var sid, begun := BeginHttp(srv, job);
    if begun.Some? {
      return Err(begun.value);
    }
    var ctx := Context(job.ctx.cancelled || job.callback.cancelled);
    var returned := false;
    var fnErr: Option<Failure> := None;
    srv.Statements(sid, job.callback);
    match job.callback.end {
      case Returned => returned := true;
      case Failed(f) => returned, fnErr := true, Some(f);
      case _ =>
    }
    if !returned {
      var _ := srv.RollbackTransaction(WithoutCancel(ctx), Rollback(job.database, sid));
      if job.callback.end.Panicked? {
        return Raised(job.callback.end.value);
      }
      return if job.callback.end.Exited? then GoexitContinues else Err(PanicNilOrGoexit);
    }
    if fnErr.Some? {
      var rb := srv.RollbackTransaction(WithoutCancel(ctx), Rollback(job.database, sid));
      if rb.Some? {
        return Err(TxError(fnErr.value, rb.value));
      }
      return Err(FromCallback(fnErr.value));
    }
    var reply := srv.CommitTransaction(ctx, Commit(job.database, sid), true);
    if reply.CommitFailed? {
      var _ := srv.RollbackTransaction(WithoutCancel(ctx), Rollback(job.database, sid));
      return Err(Rpc(reply.error));
    }
    o := Success;
  }

  // ---------------------------------------------------------------- Go over gRPC

  /** strings.TrimSpace(id) == "", a scan for a character that is not white space. */
  method IsBlank(client: Client, id: string) returns (blank: bool)
    ensures blank <==> forall i :: 0 <= i < |id| ==> Space(client, id[i])
  {
    for i := 0 to |id|
      invariant forall j :: 0 <= j < i ==> Space(client, id[j])
    {
      if !Space(client, id[i]) {
        return false;
      }
    }
    blank := true;
  }

  /** Client.Transaction. */
  method GrpcTransaction(srv: Server, job: Job) returns (o: Outcome)
    requires srv.state == NoTransaction && srv.log == []
    modifies srv
    ensures Trace(o, srv.log, srv.state) == Spec(GoGrpc, job, srv.fates, srv.issued)
  {
    if job.isolation.OtherLevel? {
      return Err(InvalidIsolation);
    }
    var id, e := srv.BeginTransaction(job.ctx, Begin(job.database, "", job.isolation));
    if e.Some? {
      return Err(Rpc(e.value));
    }
    var blank := IsBlank(GoGrpc, id);
    if blank {
      return Err(NoTransactionId);
    }
    var ctx := Context(job.ctx.cancelled || job.callback.cancelled);
    var returned := false;
    var fnErr: Option<Failure> := None;
    srv.Statements(id, job.callback);
    match job.callback.end {
      case Returned => returned := true;
      case Failed(f) => returned, fnErr := true, Some(f);
      case _ =>
    }
    if !returned {
      var _ := srv.RollbackTransaction(WithoutCancel(ctx), Rollback(job.database, id));
      if job.callback.end.Panicked? {
        return Raised(job.callback.end.value);
      }
      return if job.callback.end.Exited? then GoexitContinues else Err(PanicNilOrGoexit);
    }
    if fnErr.Some? {
      var rb := srv.RollbackTransaction(WithoutCancel(ctx), Rollback(job.database, id));
      if rb.Some? {
        return Err(TxError(fnErr.value, rb.value));
      }
      return Err(FromCallback(fnErr.value));
    }
    var committed := srv.CommitTransaction(ctx, Commit(job.database, id), false);
    if committed.CommitFailed? {
      var _ := srv.RollbackTransaction(WithoutCancel(ctx), Rollback(job.database, id));
      return Err(Rpc(committed.error));
    }
    if committed.NotCommitted? {
      return Err(DidNotCommit);
    }
    o := Success;
  }

  // ---------------------------------------------------------------- TypeScript over gRPC

  /** The function createTransaction builds. Its calls take no context. */
  method TypeScriptTransaction(srv: Server, job: Job) returns (o: Outcome)
    requires srv.state == NoTransaction && srv.log == [] && Callable(TypeScript, job.callback.end)
    modifies srv
    ensures Trace(o, srv.log, srv.state) == Spec(TypeScript, job, srv.fates, srv.issued)
  {
    if job.isolation.OtherLevel? {
      return Err(InvalidIsolation);
    }
    var id, e := srv.BeginTransaction(Context(false), Begin(job.database, "", job.isolation));
    if e.Some? {
      return Err(Rpc(e.value));
    }
    var blank := IsBlank(TypeScript, id);
    if id == "" || blank {
      return Err(NoTransactionId);
    }
    srv.Statements(id, job.callback);
    if job.callback.end.Failed? {
      var err := job.callback.end.failure;
      var rollbackErr := srv.RollbackTransaction(Context(false), Rollback(job.database, id));
      if rollbackErr.Some? && err.isError {
        if err.cause.None? && !err.frozen {
          err := err.(cause := rollbackErr);
        }
      }
      return Err(FromCallback(err));
    }
    var committed := srv.CommitTransaction(Context(false), Commit(job.database, id), false);
    if !committed.Acknowledged? {
      var commitErr := if committed.NotCommitted? then DidNotCommit else Rpc(committed.error);
      var _ := srv.RollbackTransaction(Context(false), Rollback(job.database, id));
      return Err(commitErr);
    }
    o := Success;
  }

  // ---------------------------------------------------------------- what every client promises

  /** The calls of every run: nothing on a bad isolation level, begin alone when it failed or
      gave no usable id, and otherwise begin, the callback once, and one of the four endings,
      all of them naming the one database and the one id. A commit is sent exactly when the
      callback returned normally, and one that failed is always followed by a rollback. */
  lemma CallsTell(client: Client, job: Job, fates: Fates, id: string)
    ensures var calls := Spec(client, job, fates, id).calls;
            var commit, rollback := Commit(job.database, id), Rollback(job.database, id);
            && (calls == [] <==> job.isolation.OtherLevel?)
            && ((exists x :: RunCallback(x) in calls) <==> Ran(client, job, fates, id))
            && (!Ran(client, job, fates, id) ==> |calls| <= 1)
            && (Ran(client, job, fates, id) ==>
                 && calls[..2] == [BeginCall(client, job), RunCallback(id)]
                 && calls[2..] in {[rollback], [commit], [commit, rollback]}
                 && (commit in calls <==> job.callback.end.Returned?)
                 && (calls[2..] == [commit] ==> !Answer(client, job, fates).CommitFailed?))
  {
    var calls := Spec(client, job, fates, id).calls;
    if Ran(client, job, fates, id) {
      assert calls[1] == RunCallback(id);
      assert calls[2..] == Ending(client, job, fates, id);
    }
  }

  /** The begin call carries the database and the isolation level that were asked for, and over
      HTTP the session of the handle it is made on. */
  lemma BeginTells(client: Client, job: Job, fates: Fates, id: string)
    ensures var calls := Spec(client, job, fates, id).calls;
            calls != [] ==>
              && calls[0].Begin? && calls[0].database == job.database && calls[0].isolation == job.isolation
              && (client.GoHttp? ==> calls[0].session == job.session)
              && (!client.GoHttp? ==> calls[0].session == "")
  {
  }

  /** Every way to fail before the callback, and at the commit, with its own error and whatever the
      rollback did. In Go a cancelled context keeps begin and commit from being sent. */
  lemma EarlyExitsTell(client: Client, job: Job, fates: Fates, id: string)
    ensures var o := Spec(client, job, fates, id).outcome;
            var early := !client.TypeScript? && job.ctx.cancelled;
            var late := !client.TypeScript? && (job.ctx.cancelled || job.callback.cancelled);
            if job.isolation.OtherLevel? then o == Err(InvalidIsolation)
            else if early then o == Err(Rpc(CANCELLED_CODE))
            else if !fates.begin.Served? then o == Err(Rpc(fates.begin.error))
            else if !Usable(client, id) then o == Err(NoTransactionId)
            else job.callback.end.Returned? ==>
              if late then o == Err(Rpc(CANCELLED_CODE))
              else if !fates.commit.Served? then o == Err(Rpc(fates.commit.error))
              else if !job.callback.reaped then o == Success
              else o == if client.GoHttp? then Err(Rpc(GONE_STATUS)) else Err(DidNotCommit)
  {
  }

  /** Which ids a client runs the callback with: over HTTP every one that is not empty; over gRPC
      every one with a visible ASCII character, and none of ASCII white space only. */
  lemma IdsTell(client: Client, id: string)
    ensures id == "" ==> !Usable(client, id)
    ensures client.GoHttp? && id != "" ==> Usable(client, id)
    ensures (exists i :: 0 <= i < |id| && '!' <= id[i] <= '~') ==> Usable(client, id)
    ensures !client.GoHttp? && (forall i :: 0 <= i < |id| ==> id[i] in " \t\r\n") ==> !Usable(client, id)
  {
    if i :| 0 <= i < |id| && '!' <= id[i] <= '~' {
      assert !Space(client, id[i]);
    }
  }

  /** Success means an acknowledged commit of a live transaction, and nothing else does; then
      the server holds it committed and no rollback was sent. */
  lemma SuccessIsCommitted(client: Client, job: Job, fates: Fates, id: string)
    ensures var t := Spec(client, job, fates, id);
            && (t.outcome.Success? <==>
                 && Ran(client, job, fates, id) && job.callback.end.Returned? && !job.callback.reaped
                 && !CommitContext(client, job).cancelled && fates.commit.Served?)
            && (t.outcome.Success? ==> t.state.Committed? && Rollback(job.database, id) !in t.calls)
  {
    var calls := Spec(client, job, fates, id).calls;
    if Spec(client, job, fates, id).outcome.Success? {
      assert calls == [BeginCall(client, job), RunCallback(id), Commit(job.database, id)];
    }
  }

  /** A transaction can be durable although the call failed only when the commit's answer was
      lost; a callback that did not return normally never leaves one durable. */
  lemma FailureIsNotDurable(client: Client, job: Job, fates: Fates, id: string)
    ensures var t := Spec(client, job, fates, id);
            t.state.Committed? && !t.outcome.Success? <==>
              && Ran(client, job, fates, id) && job.callback.end.Returned? && !job.callback.reaped
              && !CommitContext(client, job).cancelled && fates.commit.AnswerLost?
  {
  }

  /** No session is leaked: one still live when the call ends was either never handed to the
      callback (begin's answer lost, or without a usable id) or its rollback was sent and did
      not get through. A cancelled context does not keep the rollback from being sent. */
  lemma LiveOnlyWhenRollbackFailed(client: Client, job: Job, fates: Fates, id: string)
    ensures var t := Spec(client, job, fates, id);
            t.state.Live? ==>
              || (t.calls == [BeginCall(client, job)] && Executed(fates.begin))
              || (t.calls[|t.calls| - 1] == Rollback(job.database, id)
                   && (fates.rollback.Unsent? || fates.rollback.Rejected?))
  {
  }

  /** What the callback ended with is what the caller gets, whatever the rollback did: the same
      failure, by identity, under any wrapping; the same panic value; the same exit. */
  lemma CallbackIsNeverMasked(client: Client, job: Job, fates: Fates, id: string)
    requires Ran(client, job, fates, id)
    ensures var o, end := Spec(client, job, fates, id).outcome, job.callback.end;
            && (end.Failed? ==> o.Err? && Unwrap(o.error).FromCallback? && Unwrap(o.error).failure.id == end.failure.id)
            && (end.Panicked? <==> o == Raised(if end.Panicked? then end.value else 0))
            && (end.Exited? <==> o.GoexitContinues?)
            && (end.PanickedNil? <==> o == Err(PanicNilOrGoexit))
            && (o.Success? ==> end.Returned?)
  {
    if job.callback.end.Returned? {
      var o := Result(client, job, fates);
      assert o.Success? || o == Err(DidNotCommit) || (o.Err? && o.error.Rpc?);
    }
  }

  /** The rollback's own failure is told beside the callback's and never instead of it: in Go
      as a TxError, in TypeScript as the cause of an error that had none and can take one. */
  lemma RollbackFailureIsBeside(client: Client, job: Job, fates: Fates, id: string)
    requires Ran(client, job, fates, id) && job.callback.end.Failed?
    ensures var o, f, rb := Spec(client, job, fates, id).outcome, job.callback.end.failure, FateError(fates.rollback);
            && o.Err?
            && (o.error.TxError? <==> !client.TypeScript? && rb.Some?)
            && (o.error.TxError? ==> o.error.rollback == rb.value)
            && (!client.TypeScript? ==> Unwrap(o.error).failure == f)
            && (client.TypeScript? ==>
                 && (f.cause.Some? || f.frozen || !f.isError || rb.None? ==> o.error.failure == f)
                 && (f.cause.None? && !f.frozen && f.isError ==> o.error.failure == f.(cause := rb)))
  {
  }

  // ---------------------------------------------------------------- where the clients differ

  /** The same outcome, up to how a failed rollback is told. */
  predicate SameOutcome(a: Outcome, b: Outcome) {
    if a.Err? && b.Err? && Unwrap(a.error).FromCallback? && Unwrap(b.error).FromCallback?
    then Unwrap(a.error).failure.id == Unwrap(b.error).failure.id
    else a == b
  }

  /** For ids both clients read alike and a context never cancelled, TypeScript differs from Go
      over gRPC in one thing: it also rolls back after committed=false. */
  lemma TypeScriptAgreesWithGo(job: Job, fates: Fates, id: string)
    requires Callable(TypeScript, job.callback.end) && !job.ctx.cancelled && !job.callback.cancelled
    requires Usable(GoGrpc, id) <==> Usable(TypeScript, id)
    ensures var go, ts := Spec(GoGrpc, job, fates, id), Spec(TypeScript, job, fates, id);
            && SameOutcome(go.outcome, ts.outcome) && go.state == ts.state
            && (go.calls == ts.calls <==> go.outcome != Err(DidNotCommit))
            && (go.outcome == Err(DidNotCommit) ==> ts.calls == go.calls + [Rollback(job.database, id)])
  {
    var go, ts := Spec(GoGrpc, job, fates, id), Spec(TypeScript, job, fates, id);
    if Ran(GoGrpc, job, fates, id) {
      assert go.calls[..2] == ts.calls[..2];
      if go.outcome == Err(DidNotCommit) {
        assert |go.calls| == 3 && |ts.calls| == 4;
      }
    }
  }

  /** Which ids the two read differently: those of white space only, by one character each. */
  lemma IdsReadDifferently(id: string)
    ensures Usable(TypeScript, id) && !Usable(GoGrpc, id) <==>
              && (forall i :: 0 <= i < |id| ==> Space(GoGrpc, id[i]))
              && (exists i :: 0 <= i < |id| && id[i] == '\U{0085}')
    ensures Usable(GoGrpc, id) && !Usable(TypeScript, id) <==>
              && (forall i :: 0 <= i < |id| ==> Space(TypeScript, id[i]))
              && (exists i :: 0 <= i < |id| && id[i] == '\U{FEFF}')
  {
  }

  /** The HTTP client accepts an id of white space, which both gRPC clients refuse; on every
      other id, outside a transaction and with the session not reaped, the two Go clients make
      the same calls and return the same outcome. */
  lemma HttpAgreesWithGrpc(job: Job, fates: Fates, id: string)
    requires job.session == ""
    ensures var http, grpc := Spec(GoHttp, job, fates, id), Spec(GoGrpc, job, fates, id);
            (http == grpc <==> !(Ran(GoHttp, job, fates, id)
                                 && (!Usable(GoGrpc, id) || (Answer(GoGrpc, job, fates).NotCommitted?
                                      && job.callback.end.Returned?))))
  {
    var http, grpc := Spec(GoHttp, job, fates, id), Spec(GoGrpc, job, fates, id);
    if Ran(GoHttp, job, fates, id) {
      if !Usable(GoGrpc, id) {
        assert |grpc.calls| == 1 && |http.calls| > 1;
      } else if Answer(GoGrpc, job, fates).NotCommitted? && job.callback.end.Returned? {
        assert |grpc.calls| == 3 && |http.calls| == 4;
      }
    }
  }
}
