/** The session object itself: the methods of insertsession.go over their mutable fields, each
    proved to do what the system's functions say, so the theorems about runs are about them. */
module InsertSession {
  import opened InsertProtocol
  import Sys = InsertSystem
  import Safety = InsertSafety
  import Runs = InsertRuns

  /** The scan of an acknowledgement's error entries. */
  method ScanErrors(errors: seq<int>) returns (whole: bool)
    ensures whole <==> -1 in errors
  {
    whole := false;
    for i := 0 to |errors|
      invariant whole <==> -1 in errors[..i]
    {
      if errors[i] == -1 {
        whole := true;
      }
    }
    assert errors[..|errors|] == errors;
  }

  class Session {
    var open: bool
    var chunkSeq: int
    /** The connection, its reader goroutine and the server behind it. */
    var world: Sys.World
    /** Every acknowledgement handed to the callback, in order. */
    var acks: seq<Ack>
    ghost var frames: seq<Frame>
    ghost var confirmed: bool

    ghost function State(): Sys.Sys
      reads this
    {
      Sys.Sys(open, chunkSeq, world, acks, frames, confirmed)
    }

    ghost predicate Valid()
      reads this
    {
      Safety.Inv(State())
    }

    /** A new connection whose start exchange has just run. */
    constructor (mode: Mode, sc: Sys.Script)
      ensures Valid() && State() == Sys.Open(mode, sc).0
    {
      open, chunkSeq, acks, frames, confirmed := true, 0, [], [], false;
      world := Sys.Begin(mode).w;
      new;
      Runs.OpenKeeps(mode, sc);
      Environment(sc.before);
      var r := Exchange(Start, "started", sc.(encodes := true));
      if !r.Answered? {
        Abort();
      }
    }

    /** Whatever the server, the connection and the reader do meanwhile. */
    method Environment(steps: seq<Sys.Step>)
      modifies this`world
      ensures world == Sys.EnvAll(old(world), steps)
    {
      for i := 0 to |steps|
        invariant Sys.EnvAll(world, steps[i..]) == Sys.EnvAll(old(world), steps)
      {
        world := Sys.Env(world, steps[i]);
      }
    }

    method Abort()
      modifies this`open, this`world
      ensures State() == Sys.Abort(old(State()))
    {
      open := false;
      world := world.(cancelled := true, up := false);
    }

    method Decode(m: Msg, want: string) returns (r: Sys.Result)
      modifies this`open, this`world
      ensures (State(), r) == Sys.Decode(old(State()), m, want)
    {
      if m.ErrorMsg? {
        var ended := EndsSession(m.title, m.detail);
        if ended {
          Abort();
        }
        return Sys.ServerError(m.title, m.detail, ended);
      }
      if m.Garbled? || m.Binary? || Action(m) != want {
        Abort();
        return Sys.BadFrame;
      }
      return Sys.Answered(m);
    }

    method Exchange(f: Frame, want: string, sc: Sys.Script) returns (r: Sys.Result)
      modifies this`open, this`world, this`frames
      ensures (State(), r) == Sys.Exchange(old(State()), f, want, sc)
    {
      if !sc.encodes {
        return Sys.EncodeError;
      }
      world := Sys.Deliver(world, f, sc.write);
      frames := frames + [f];
      Environment(sc.after);
      if !sc.write.Written? {
        r := Sys.SendError;
        if world.inbox != [] {
          var m := world.inbox[0];
          world := world.(inbox := world.inbox[1..]);
          if m.ErrorMsg? {
            r := Sys.ServerError(m.title, m.detail, EndsSession(m.title, m.detail));
          }
        }
        Abort();
        return;
      }
      if sc.timeout || (world.inbox == [] && !world.readerDone) {
        Abort();
        return Sys.TimedOut;
      }
      if world.inbox == [] {
        Abort();
        return Sys.ConnLost;
      }
      var m := world.inbox[0];
      world := world.(inbox := world.inbox[1..]);
      r := Decode(m, want);
    }

    method SendChunk(rows: seq<Row>, sc: Sys.Script) returns (r: Sys.Result)
      requires Valid()
      modifies this
      ensures Valid() && (State(), r) == Sys.SendChunk(old(State()), rows, sc)
    {
      hide Safety.Inv, Sys.Exchange, EndsSession, Sys.EnvAll;
      Runs.SendChunkKeeps(State(), rows, sc);
      Environment(sc.before);
      if !open {
        return Sys.SessionClosed;
      }
      var seqNo := chunkSeq + 1;
      r := Exchange(Chunk(seqNo, rows), "batchAck", sc);
      if r.Answered? && r.m.AckMsg? {
        var whole := ScanErrors(r.m.ack.errors);
        if !whole {
          chunkSeq := seqNo;
        }
        acks := acks + [r.m.ack];
      }
    }

    method Finish(commit: bool, sc: Sys.Script) returns (r: Sys.Result)
      requires Valid()
      modifies this
      ensures Valid() && (State(), r) == Sys.Finish(old(State()), commit, sc)
    {
      hide Safety.Inv, Sys.Exchange, EndsSession, Sys.EnvAll;
      Runs.FinishKeeps(State(), commit, sc);
      Environment(sc.before);
      if !open {
        return Sys.SessionClosed;
      }
      r := Exchange(if commit then Commit else Rollback, "committed", sc.(encodes := true));
      open := false;
      confirmed := confirmed || (commit && r.Answered?);
    }

    method Close(sc: Sys.Script)
      requires Valid()
      modifies this
      ensures Valid() && State() == Sys.Close(old(State()), sc) && !open
    {
      Runs.CloseKeeps(State(), sc);
      var _ := Finish(false, sc);
      Abort();
    }

    method Perform(c: Sys.Call)
      requires Valid()
      modifies this
      ensures Valid() && State() == Sys.Do(old(State()), c)
    {
      hide Sys.SendChunk, Sys.Finish, Sys.Close, Safety.Inv;
      Runs.DoKeeps(State(), c);
      match c {
        case CallSend(rows, sc) => var _ := SendChunk(rows, sc);
        case CallCommit(sc) => var _ := Finish(true, sc);
        case CallRollback(sc) => var _ := Finish(false, sc);
        case CallClose(sc) => Close(sc);
        case Pause(steps) => Environment(steps);
      }
    }
  }

  /** A whole life of one session object: any calls, in any order, under any schedule. */
  method Drive(mode: Mode, opening: Sys.Script, calls: seq<Sys.Call>) returns (s: Session)
    ensures fresh(s) && s.Valid() && s.State() == Sys.Run(mode, opening, calls)
  {
    hide Sys.Do, Sys.Open, Safety.Inv;
    s := new Session(mode, opening);
    for i := 0 to |calls|
      invariant fresh(s) && s.Valid()
      invariant Sys.DoAll(s.State(), calls[i..]) == Sys.Run(mode, opening, calls)
    {
      s.Perform(calls[i]);
    }
  }
}
