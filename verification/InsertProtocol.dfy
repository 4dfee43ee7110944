/** What travels on the /ws insert session, and how the client reads it. */
module InsertProtocol {

  /** One record, as the JSON text the client sends. */
  type Row = string

  datatype Mode = PerStream | PerBatch | PerRow | Joined

  datatype Frame =
    | Start
    | Chunk(seqNo: int, rows: seq<Row>)
    | Commit
    | Rollback

  /** A batchAck. `accepted` are the rows of the chunk that went in; `errors` holds the
      rowIndex of every entry of the frame's error list. */
  datatype Ack = Ack(seqNo: int, accepted: seq<Row>, errors: seq<int>, replay: bool)

  /** `Garbled(a)` has action `a` but does not decode; `Binary` is a non-text frame. */
  datatype Msg =
    | ErrorMsg(title: string, detail: string)
    | StartedMsg
    | AckMsg(ack: Ack)
    | CommittedMsg(outcome: string)
    | Garbled(action: string)
    | Binary

  const EXPIRED_TITLE := "Insert session expired"
  const SECURITY_TITLE := "Security error"
  const INTERNAL_TITLE := "Internal error"
  const SESSION_TITLE := "Insert session error"
  const NOT_FOUND_TEXT := "not found or expired"
  const CLOSED_TEXT := "' is closed"

  predicate Contains(s: string, part: string) {
    exists i :: 0 <= i <= |s| - |part| && s[i..][..|part|] == part
  }

  /** The classifier of error frames: title and detail are all the server gives. */
  predicate EndsSession(title: string, detail: string) {
    if title == EXPIRED_TITLE || title == SECURITY_TITLE || title == INTERNAL_TITLE then true
    else title == SESSION_TITLE && (Contains(detail, NOT_FOUND_TEXT) || Contains(detail, CLOSED_TEXT))
  }

  /** The error frames by which the server says a session is gone. */
  datatype Notice =
    | Expired(why: string)
    | Security(why: string)
    | Internal(why: string)
    | NotFound(before: string, after: string)
    | IsClosed(before: string, after: string)
  {
    function Message(): Msg {
      match this
      case Expired(why) => ErrorMsg(EXPIRED_TITLE, why)
      case Security(why) => ErrorMsg(SECURITY_TITLE, why)
      case Internal(why) => ErrorMsg(INTERNAL_TITLE, why)
      case NotFound(b, a) => ErrorMsg(SESSION_TITLE, b + NOT_FOUND_TEXT + a)
      case IsClosed(b, a) => ErrorMsg(SESSION_TITLE, b + CLOSED_TEXT + a)
    }
  }

  lemma ContainsMiddle(b: string, part: string, a: string)
    ensures Contains(b + part + a, part)
  {
    assert (b + part + a)[|b|..][..|part|] == part;
  }

  /** Every notice that a session is gone is recognised, whatever surrounds the marker text. */
  lemma NoticesEndTheSession(n: Notice)
    ensures n.Message().ErrorMsg?
    ensures EndsSession(n.Message().title, n.Message().detail)
  {
    match n
    case NotFound(b, a) => ContainsMiddle(b, NOT_FOUND_TEXT, a);
    case IsClosed(b, a) => ContainsMiddle(b, CLOSED_TEXT, a);
    case _ =>
  }

  /** An error the classifier lets pass carries none of the markers: the other direction. */
  lemma SurvivableErrors(title: string, detail: string)
    ensures EndsSession(title, detail) <==> exists n: Notice :: n.Message() == ErrorMsg(title, detail)
  {
    if EndsSession(title, detail) {
      var n := NoticeOf(title, detail);
      assert n.Message() == ErrorMsg(title, detail);
    }
    forall n: Notice | n.Message() == ErrorMsg(title, detail) ensures EndsSession(title, detail) {
      NoticesEndTheSession(n);
    }
  }

  lemma SplitAround(s: string, part: string) returns (b: string, a: string)
    requires Contains(s, part)
    ensures s == b + part + a
  {
    var i :| 0 <= i <= |s| - |part| && s[i..][..|part|] == part;
    b, a := s[..i], s[i + |part|..];
    assert s == s[..i] + s[i..][..|part|] + s[i + |part|..];
  }

  lemma NoticeOf(title: string, detail: string) returns (n: Notice)
    requires EndsSession(title, detail)
    ensures n.Message() == ErrorMsg(title, detail)
  {
    if title == EXPIRED_TITLE {
      n := Expired(detail);
    } else if title == SECURITY_TITLE {
      n := Security(detail);
    } else if title == INTERNAL_TITLE {
      n := Internal(detail);
    } else if Contains(detail, NOT_FOUND_TEXT) {
      var b, a := SplitAround(detail, NOT_FOUND_TEXT);
      n := NotFound(b, a);
    } else {
      var b, a := SplitAround(detail, CLOSED_TEXT);
      n := IsClosed(b, a);
    }
  }

  /** The action of a decodable frame; error frames are recognised before it is looked at. */
  function Action(m: Msg): string {
    match m
    case ErrorMsg(_, _) => "error"
    case StartedMsg => "started"
    case AckMsg(_) => "batchAck"
    case CommittedMsg(_) => "committed"
    case Garbled(a) => a
    case Binary => ""
  }

  /** An entry with rowIndex -1 says the whole chunk failed. */
  predicate WholeChunkFailed(a: Ack) {
    -1 in a.errors
  }
}
