# ArcadeDB drivers: a verified model

The drivers of this repository talk to an ArcadeDB server over HTTP, a WebSocket and gRPC, in Go
and TypeScript, and two Python scripts guard what is released. This project models the parts
where something can go wrong between two steps, two goroutines or two files, and proves what
they promise. `dafny verify dfyconfig.toml` checks all of it.

**The /ws insert session** (`InsertProtocol`, `InsertSystem`, `InsertSafety`, `InsertRuns`,
`InsertSession`). Client, reader goroutine, channel, connection and server are one system. All
that the environment decides (scheduling, verdicts, losses, write failures, timeouts, expiry) is a
script, and the theorems hold for all scripts and all sequences of calls. The server is not in the
repository; its rules are those the comments at `go/arcadedb/insertsession.go:71-93`, `:125-149`
and `:259-278` state. `Session` is the client object, updated in place, and refines the system.

**The SPDX licence engine** (`SpdxTokens`, `SpdxGrammar`, `SpdxParser`, `SpdxPolicy`,
`SpdxPrinter`, `SpdxDivergence`, `SpdxArrays`, `SpdxTables`, `SpdxNames`). Token loop, mutable recursive-descent parser,
syntax trees, a printer and two semantics: the value the parser computes, and the disjunctive
normal form of SPDX 2.3, Annex D.

**The batch upload** (`Push`, `Ndjson`, `Json`, `BatchRows`, `BatchWire`, `BatchFormat`, `Upload`,
`UploadLiveness`, `UploadRows`, `UploadStop`). The encoder and the line splitter as loops over buffers, a JSON reader as the
encoder's partner, the writer goroutine behind its buffer and pipe as interleaved steps, and the
one-shot `stop` with its two callers.

**Callback transactions** (`Transactions`, `TxBinding`, `TxLazy`). Three implementations against one
specification, and the two transaction handles over a heap of shared messages.

**Envelopes, streams and lockstep versions** (`Envelope`, `Streams`, `VersionTexts`,
`VersionLaws`, `VersionPlaces`, `Versions`, `VersionCheck`). `Wrappers` holds what they share.

## Where code and documentation disagree

The model follows the code in each case.

- The parser takes any token after WITH, and refuses a parenthesised operand of WITH; the grammar
  in its doc comment does neither. `SpdxDivergence` gives both conditions exactly, with an input
  for each.
- `_npm_signal` joins the entries of a `licenses` array before the spelling table is consulted, so an
  entry that is allowed alone can be lost. `SpdxArrays.EntryIsLost` says exactly
  when, for every array, and `ClosedEntryIsLost` and `AllowedEntryIsLost` entry by entry;
  `SpdxTables.OneWordIsLost` and `TwoWordsAreLost` give inputs.
- An `InsertSessionError` with `SessionEnded` false does not always leave the session usable: after
  a failed write it is closed (`InsertRuns.UsableErrorOnClosedSession`; `SendChunkKeeps` has the
  exact condition).
- `stop` drops a row error that wraps `io.ErrClosedPipe`, which its comment takes for derived:
  `UploadStop.RowErrorIsReported` has the exact condition, `BadRowIsSwallowed` a run. A load whose
  server answered 2xx before reading the body succeeds although rows were not sent:
  `SummaryTells` and `SummaryCoversTheRows` say exactly when a summary covers every row,
  `EarlyAnswerSucceeds` gives a run.
- The HTTP client begins a transaction on a session id of white space, which both gRPC clients
  refuse; the gRPC clients differ on U+0085 and U+FEFF (`Transactions.HttpAgreesWithGrpc`,
  `IdsReadDifferently`). After `committed=false` only TypeScript sends a rollback.
- The Go handle binds a stream's request when the call is made, as its comment says; the TypeScript
  handle copies shallowly and binds at the first read (`TxBinding.RangeSendsTheOldRequest`,
  `TxLazy.ReadSendsTheRequestThen`, `TxLazy.StreamsAgreeExactly`).
- `set` edits the one adjacent name and version pair of `uv.lock`, while the reader takes the first
  `[[package]]` block of that name: `VersionLaws.ReadsBackExactly` says when the two are the same
  line, `Versions.SetReadsBackExactly` and `VersionCheck.CheckAfterSet` say it of the whole set,
  `AnotherBlockIsRead` gives a file where they are not, and `ShapedIsGood` shows that files
  of uv's own shape are safe.

## Model

| member | source | states |
|---|---|---|
| `InsertProtocol.SurvivableErrors` | go/arcadedb/insertsession.go:549-561 | An error frame ends the session if and only if it is one of the five notices by which the server says so (expired, security, internal, not found, closed), whatever text surrounds the marker |
| `InsertProtocol.NoticesEndTheSession` | go/arcadedb/insertsession.go:71-93 | Each of the five notices is recognised as ending the session |
| `InsertSafety.HandleTells` | go/arcadedb/insertsession.go:125-149 | Whatever the server decides about a legal frame, it stays sound, takes at most that chunk, and its one answer is truthful: an ack names the chunk and is no replay, a usable refusal took nothing |
| `InsertSafety.StepKeeps` | go/arcadedb/insertsession.go:598-618 | Every step of server, connection, idle sweep and reader goroutine keeps the invariant, in and between calls; a pushed expiry frame is never the answer to a chunk |
| `InsertRuns.WriteKeeps` | go/arcadedb/insertsession.go:501-515 | A frame may be written in any open state, and is then unanswered, answered once, or lost with the connection |
| `InsertRuns.DecodeEnds` | go/arcadedb/insertsession.go:563-590 | Taking one frame off the channel either gives the true answer to the frame just sent, or a refusal that took nothing and leaves nothing outstanding, or closes the session |
| `InsertRuns.AwaitEnds` | go/arcadedb/insertsession.go:517-527 | The same for the wait: a timeout, a cancelled context or a closed channel always closes the session |
| `InsertRuns.ExplainEnds` | go/arcadedb/insertsession.go:501-515 | After a failed write the session is closed whatever is found in the channel, and nothing is taken for an answer |
| `InsertRuns.ExchangeEnds` | go/arcadedb/insertsession.go:489-527 | An exchange leaves the session open exactly after an answer to its own frame or a usable refusal of a written one |
| `InsertRuns.SendChunkKeeps` | go/arcadedb/insertsession.go:418-446 | From every reachable state and under every schedule: an ack answers the chunk just sent, carries its number and is no replay; the number is spent exactly when the whole chunk did not fail; when the session stays open, if and only if; what each other result leaves unchanged |
| `InsertRuns.FinishKeeps` | go/arcadedb/insertsession.go:448-487 | Commit and Rollback always close the session; success means the server decided, everything acknowledged is settled, and the outcome is the one asked for, or detached exactly for a joined session |
| `InsertRuns.CloseKeeps` | go/arcadedb/insertsession.go:463-473 | Close always leaves a closed session and changes no acknowledgement |
| `InsertRuns.OpenKeeps` | go/arcadedb/insertsession.go:325-416 | A session is open exactly when its start frame was answered, and starts out in agreement with the server |
| `InsertRuns.RunKeeps` | go/arcadedb/insertsession.go:255-294 | Every run of any calls under any schedule, loss, refusal, timeout and expiry keeps the whole-system invariant |
| `InsertRuns.RunAgrees` | go/arcadedb/insertsession.go:418-446 | Between calls of every run an open session has the server's watermark as its chunk number and no frame unanswered, and no chunk ever sent was a replay or skipped ahead, although the client never compares the number in an ack |
| `InsertRuns.CommitMakesAcknowledgedDurable` | go/arcadedb/insertsession.go:448-487 | Per-stream: after a successful Commit exactly the applied rows of the acknowledged chunks are durable, in order and each once; if no commit frame was written nothing is |
| `InsertRuns.DurableIsAllOrNothing` | go/arcadedb/insertsession.go:448-487 | Per-stream, in every run, a lost Commit answer included: nothing is durable, or exactly what was acknowledged |
| `InsertRuns.AcknowledgedIsDurable` | go/arcadedb/insertsession.go:20-35 | Self-committing modes: the durable rows are those acknowledged, plus at most one chunk whose acknowledgement died with the session |
| `InsertRuns.JoinedDecidesNothing` | go/arcadedb/insertsession.go:232-241 | In every run a joined session makes nothing durable, and what was acknowledged stays staged in its transaction, in order, plus at most one chunk whose acknowledgement died with the session |
| `InsertRuns.PromptAnswer` | go/arcadedb/insertsession.go:489-527 | The system is not stuck: a frame to a healthy session, taken and answered at once, puts exactly the server's answer in the channel |
| `InsertRuns.HealthyChunkIsAcknowledged` | go/arcadedb/insertsession.go:418-446 | A chunk sent on a healthy session returns the server's own verdict on its rows, spends its number and leaves the session healthy |
| `InsertRuns.RefusalLeavesTheSessionUsable` | go/arcadedb/insertsession.go:563-569 | On a healthy session a refused chunk whose error is none of the five notices is told with its title and detail and SessionEnded false; the session stays open and healthy, number and acknowledgements unspent |
| `InsertRuns.NoticeClosesTheSession` | go/arcadedb/insertsession.go:80-93 | A notice is told with SessionEnded true and closes the session |
| `InsertRuns.ExpiryIsReported` | go/arcadedb/insertsession.go:74-78 | An idle sweep between two calls is reported by the next one, with its title and reason, and the session is closed |
| `InsertRuns.HealthyFinishIsAnswered` | go/arcadedb/insertsession.go:448-487 | Commit and Rollback of a healthy session are answered with the outcome text, and per-stream the commit makes everything acknowledged durable |
| `InsertRuns.PromptOpening` | go/arcadedb/insertsession.go:325-416 | A prompt server opens a healthy session |
| `InsertRuns.FailuresAreTold` | go/arcadedb/insertsession.go:489-527 | Every other failure of a chunk has its own error: a frame that does not encode costs nothing; deadline, lost connection, unexpected frame and failed write close the session, the last with the server's reason when it is known |
| `InsertRuns.UsableErrorOnClosedSession` | go/arcadedb/insertsession.go:80-93 | An error with SessionEnded false on a session that is closed all the same: after a failed write (a concrete run) |
| `InsertSession.ScanErrors` | go/arcadedb/insertsession.go:429-434 | The loop over row errors finds a whole-chunk failure exactly if some entry has row index -1 |
| `InsertSession.Session.Exchange` | go/arcadedb/insertsession.go:489-527 | The method refines the exchange of the system model, state and result |
| `InsertSession.Session.Decode` | go/arcadedb/insertsession.go:563-590 | The same for decode, with its aborts |
| `InsertSession.Session.SendChunk` | go/arcadedb/insertsession.go:418-446 | The same for SendChunk, which updates the chunk number in place |
| `InsertSession.Session.Finish` | go/arcadedb/insertsession.go:475-487 | The same for finish |
| `InsertSession.Session.Close` | go/arcadedb/insertsession.go:467-473 | The same for Close |
| `InsertSession.Drive` | go/arcadedb/insertsession.go:279-294 | A whole life of one session object, any calls in any order, is a run of the system model, so all of the above holds of the object |
| `SpdxTokens.Tokenize` | scripts/check-licenses.py:216-232 | The index loops compute the token function |
| `SpdxTokens.TokensKeepText` | scripts/check-licenses.py:216-232 | Tokenizing loses white space and nothing else: the tokens concatenated are the text without it |
| `SpdxTokens.TokensSplit` | scripts/check-licenses.py:216-232 | A white-space character between two texts separates their tokens and adds none |
| `SpdxTokens.TokensOfJoin` | scripts/check-licenses.py:216-232 | Tokens joined by single spaces tokenize back to themselves |
| `SpdxTokens.TokenizingIsStable` | scripts/check-licenses.py:216-232 | Re-joining the tokens of any text and tokenizing again gives the same tokens |
| `SpdxTokens.TokensOfStrip` | scripts/check-licenses.py:323-331 | Stripping a signal changes none of its tokens |
| `SpdxGrammar.ParserDecidesTheLanguage` | scripts/check-licenses.py:265-310 | The parser accepts exactly the spellings of legal trees and returns that tree, for every token list |
| `SpdxGrammar.TreesAreUnique` | scripts/check-licenses.py:271-310 | No token list has two trees: WITH binds tightest, then AND, then OR |
| `SpdxGrammar.OrTreeYield` | scripts/check-licenses.py:271-279 | The tree of two expressions joined by OR spells the two with the operator between |
| `SpdxParser.Parser.Parse` | scripts/check-licenses.py:265-269 | The mutable parser raises exactly on token lists outside the language and returns the value of the unique tree otherwise |
| `SpdxParser.Parser.OrExpr` | scripts/check-licenses.py:271-279 | The OR loop: consumes and evaluates exactly what the recursive specification does, on every remaining input |
| `SpdxParser.Parser.AndExpr` | scripts/check-licenses.py:281-289 | The AND loop, likewise |
| `SpdxParser.Parser.WithExpr` | scripts/check-licenses.py:291-310 | Atoms, groups and WITH pairs, likewise |
| `SpdxParser.EvaluateSignal` | scripts/check-licenses.py:313-337 | evaluate through the token loop and the parser object equals its specification |
| `SpdxNames.LowerFoldsCase` | scripts/check-licenses.py:50-52 | Lower case is the same for texts that differ in the case of ASCII letters, and for no other ASCII texts |
| `SpdxNames.OperatorsFoldCase` | scripts/check-licenses.py:273-302 | Exactly which tokens are OR, AND and WITH, letter by letter |
| `SpdxNames.StripTells` | scripts/check-licenses.py:323 | Stripping takes white space off both ends, all of it and nothing else |
| `SpdxNames.NameIsAllowed` | scripts/check-licenses.py:303-309 | Under the shipped policy a name is allowed if and only if it is, in any case and with + for -or-later, an allowed identifier, or a spelling of the table |
| `SpdxNames.IdentifiersAreAllowed` | scripts/check-licenses.py:50-104 | Every allowed identifier is allowed in any case |
| `SpdxNames.PlusMeansOrLater` | scripts/check-licenses.py:203-213 | A name ending in + is allowed if and only if the name with -or-later in its place is |
| `SpdxNames.PairIsAllowed` | scripts/check-licenses.py:300-307 | A licence WITH an exception is allowed if and only if the two, in any case, are an allowed pair, or the table has the text |
| `SpdxNames.BareGplIsRefused` | scripts/check-licenses.py:100-111 | The GPL alone is refused, in every version and case |
| `SpdxNames.ShippedExamples` | scripts/check-licenses.py:203-213 | MIT, lgpl-2.1+ and the classpath pair are allowed |
| `SpdxNames.RefusalsTell` | scripts/check-licenses.py:313-337 | Nothing declared exactly for white space, a parse error exactly for a text outside the table that spells no expression, and a table spelling refused with what it stands for |
| `SpdxNames.NonEmptyTells` | scripts/check-licenses.py:373-374 | Dropping empty entries goes entry by entry, in order |
| `SpdxNames.NonEmptyOne` | scripts/check-licenses.py:373-374 | And drops an entry exactly if it is empty |
| `SpdxPolicy.ValueIsSomeChoice` | scripts/check-licenses.py:271-310 | The value computed is true if and only if some term of the disjunctive normal form has every operand allowed |
| `SpdxPolicy.AllowedMeansSomeChoice` | scripts/check-licenses.py:313-337 | A signal outside the table is allowed if and only if it spells an expression with such a term |
| `SpdxPolicy.EnlargingOnlyAllows` | scripts/check-licenses.py:313-337 | Enlarging the allow-lists never turns an allowed signal into a refused one, through the table too |
| `SpdxPolicy.OrJoinsTwo` | scripts/check-licenses.py:271-279 | Two token lists that parse alone parse when joined by OR, to the disjunction of their values |
| `SpdxArrays.OrJoinsAll` | scripts/check-licenses.py:371-376 | The same for any number of texts joined as text |
| `SpdxArrays.ArrayMeansAnyOf` | scripts/check-licenses.py:371-376 | An array whose entries each parse, its joined text not in the table, is allowed exactly if the expression one of its entries spells is; the table is not consulted for the entries |
| `SpdxArrays.ArrayOutsideTheTable` | scripts/check-licenses.py:371-376 | When no entry is in the table either, it is allowed exactly if evaluate allows one of its entries alone |
| `SpdxArrays.AllowedEntryIsLost` | scripts/check-licenses.py:371-376 | Arrays of parsing entries: an entry allowed alone is lost if and only if some entry is a spelling the table accepts and no entry spells an allowed expression |
| `SpdxArrays.ArrayAgreesExactly` | scripts/check-licenses.py:371-376 | Under a table that refuses nothing, array and entries agree if and only if that does not happen |
| `SpdxArrays.ArrayMeans` | scripts/check-licenses.py:371-376 | Any array at all: a joined text the table has is decided by the table; any other is allowed if and only if every piece parses and one spells an allowed expression, where an entry that leaves a group open or a WITH waiting makes one piece with the next |
| `SpdxArrays.PiecesJoin` | scripts/check-licenses.py:371-376 | The pieces join to the same text as the entries |
| `SpdxArrays.EntryIsLost` | scripts/check-licenses.py:371-376 | Any array at all: exactly when an entry allowed alone is lost |
| `SpdxArrays.ClosedArrayMeans` | scripts/check-licenses.py:371-376 | When every entry parses or is at least closed: the array is allowed exactly if every entry parses and one spells an allowed expression |
| `SpdxArrays.ClosedEntryIsLost` | scripts/check-licenses.py:371-376 | There an entry allowed alone is lost exactly if some entry does not parse, or the allowed one was a spelling and none spells an allowed expression |
| `SpdxTables.TableRefusesNothing` | scripts/check-licenses.py:119-185 | The shipped table refuses nothing |
| `SpdxTables.OneWordIsLost` | scripts/check-licenses.py:371-376 | edl-1.0, allowed alone, is lost beside any name that is not allowed, although both parse |
| `SpdxTables.TwoWordsAreLost` | scripts/check-licenses.py:371-376 | bsd license, allowed alone, makes an array unparseable beside any word, one that names an allowed licence too |
| `SpdxArrays.SpellingsAreLostInArrays` | scripts/check-licenses.py:371-376 | An accepted table spelling of several words makes every array it stands in unparseable, whatever the other entries, unless the table has the joined text |
| `SpdxArrays.NamesStandApart` | scripts/check-licenses.py:271-310 | No expression has two names in a row |
| `SpdxPrinter.PrintThenParse` | scripts/check-licenses.py:216-310 | Printing any expression with only the parentheses precedence needs, then tokenizing and parsing, gives a tree with its meaning |
| `SpdxPrinter.TreeTells` | scripts/check-licenses.py:271-310 | The printed tokens are the spelling of a legal tree that means the same |
| `SpdxDivergence.DocumentedIsAccepted` | scripts/check-licenses.py:235-249 | A text of the documented grammar is accepted if and only if no operand of a WITH is parenthesised |
| `SpdxDivergence.AcceptedIsDocumented` | scripts/check-licenses.py:300-307 | An accepted text is in the documented grammar if and only if every token after a WITH is a name |
| `SpdxDivergence.AcceptedButUndocumented` | scripts/check-licenses.py:300-307 | MIT WITH ( OR MIT is accepted and is outside the documented grammar |
| `SpdxDivergence.DocumentedButRefused` | scripts/check-licenses.py:292-299 | ( MIT ) WITH x is in the documented grammar and is refused |
| `SpdxTables.TableNeverRefuses` | scripts/check-licenses.py:119-185 | Every spelling of the shipped table names an allowed licence |
| `Push.CutTells` | go/arcadedb/internal/ndjson/ndjson.go:17-45 | What a consumer that may stop sees is a prefix of the stream, it agreed to every further element, and only its refusal cuts it short |
| `Push.CutIsUnique` | go/arcadedb/internal/ndjson/ndjson.go:17-45 | These properties determine what it sees |
| `Ndjson.SegmentsTell` | go/arcadedb/internal/ndjson/ndjson.go:17-45 | Splitting at newlines gives newline-free segments that, newlines put back, are the text |
| `Ndjson.SegmentsAreUnique` | go/arcadedb/internal/ndjson/ndjson.go:17-45 | No other newline-free segments do |
| `Ndjson.Reader.ReadSlice` | go/arcadedb/internal/ndjson/ndjson.go:17-28 | The buffered reader over fragments of any size: what a slice returns and what is left, for found, buffer full and ended |
| `Ndjson.Lines` | go/arcadedb/internal/ndjson/ndjson.go:17-45 | For every byte stream, fragmentation, buffer size and consumer, the trace is the cut of: split at newline, drop blank lines, and on a read error exactly the complete lines and the error once |
| `Ndjson.LinesTell` | go/arcadedb/internal/ndjson/ndjson.go:17-45 | No yielded line is blank or holds a newline; a broken read yields exactly the non-blank lines of the complete part, nothing of the torn tail, and the error once; a clean end also yields the tail |
| `Json.RoundTrip` | go/arcadedb/internal/batchrows/batchrows.go:110-117 | Every encodable value reads back from its encoding, and the reader stops right behind it (RFC 8259 sections 3 to 7) |
| `Json.EncodeHasNoNewline` | go/arcadedb/internal/batchrows/batchrows.go:110-117 | An encoding never contains a newline |
| `BatchRows.ListingIsUnique` | go/arcadedb/internal/batchrows/batchrows.go:122-129 | Sorting the keys erases the map's iteration order |
| `BatchRows.Encoder.Line` | go/arcadedb/internal/batchrows/batchrows.go:119-152 | One row: it is written whole exactly if no key is a control key and every value encodes; otherwise nothing is written and the right error names a key that is at fault |
| `BatchRows.Write` | go/arcadedb/internal/batchrows/batchrows.go:61-95 | The bytes written are those of the rows before the first failing one, vertices first; a bad row contributes none; kind, index and cause name it, and the key in the cause is at fault; map order does not matter |
| `BatchRows.RowRoundTrip` | go/arcadedb/internal/batchrows/batchrows.go:119-152 | A row's line decodes to its fields and these back to the row |
| `BatchRows.RowKeysAreDistinct` | go/arcadedb/internal/batchrows/batchrows.go:119-152 | No key occurs twice on a line |
| `BatchFormat.FieldOrder` | go/arcadedb/internal/batchrows/batchrows.go:61-67 | A line has type and class first, then the id of a vertex that has one or the two ends of an edge, then all properties in sorted key order |
| `BatchFormat.BeforeIsLexicographic` | go/arcadedb/internal/batchrows/batchrows.go:129 | Keys are in the order of their first differing characters, a prefix first |
| `BatchFormat.PlainTextIsVerbatim` | go/arcadedb/internal/batchrows/batchrows.go:103-108 | Text without quotes, backslashes, controls and line separators goes out verbatim, HTML characters too |
| `BatchFormat.AsciiStays` | go/arcadedb/internal/batchrows/batchrows.go:110-117 | ASCII text is one byte a character |
| `BatchFormat.NothingRaw` | go/arcadedb/internal/batchrows/batchrows.go:110-117 | No raw control character or line separator is written (RFC 8259 section 7) |
| `BatchFormat.LiteralsAreJson` | go/arcadedb/internal/batchrows/batchrows.go:110-117 | Literals, brackets, separators and short escapes are those of RFC 8259 sections 3 to 7 |
| `BatchFormat.BlankMeans` | go/arcadedb/internal/ndjson/ndjson.go:35-36 | A line of text is blank if and only if it holds Unicode white space only |
| `BatchWire.Utf8RoundTrip` | go/arcadedb/internal/batchrows/batchrows.go:110-117 | The UTF-8 form of a text decodes to the text |
| `BatchWire.BodySplits` | go/arcadedb/internal/ndjson/ndjson.go:17-45 | The line splitter over the written body yields one line per row |
| `BatchWire.BodyReadsBack` | go/arcadedb/internal/batchrows/batchrows.go:61-95 | As many lines as rows, vertices first, each reading back as its row |
| `Upload.NextKeeps` | go/arcadedb/batch.go:238-267 | Every step of writer, transport and caller keeps the pipe invariant |
| `Upload.BodyIsAPrefix` | go/arcadedb/batch.go:238-267 | In every interleaving what was read is a prefix of the encodings of the rows before the first bad one; a clean end is seen only after every row was encoded, flushed and read; any other end carries its cause |
| `Upload.DoneOnceAndLast` | go/arcadedb/batch.go:245-267 | The result is sent exactly once, on every way out; after stop returned no row is pulled |
| `Upload.FewMoreRows` | go/arcadedb/batch.go:269-286 | Once the read side is closed, at most as many more rows are pulled as the buffer has free bytes, and one |
| `Upload.WriterEnds` | go/arcadedb/batch.go:245-267 | And whatever happens in between, the writer then ends after a bounded number of its own steps |
| `Upload.StopEndsTheWriter` | go/arcadedb/batch.go:269-291 | From every run, closing the read side bounds the further pulls even of an endless sequence, and stop returns |
| `UploadLiveness.WriterGoesOn` | go/arcadedb/batch.go:256-266 | A writer step that is not blocked on the pipe brings the writer on, whatever stage it is in |
| `UploadLiveness.RoundsEnd` | go/arcadedb/batch.go:238-267 | With a transport that reads at least a byte between two writer steps the writer ends, from every reachable state |
| `UploadLiveness.UploadEnds` | go/arcadedb/batch.go:238-267 | So every upload whose sequence stops ends for that reason: at its end every byte of every row was read, a bad row, panic or exit is its result, and the transport is told |
| `UploadRows.ServerReadsTheRows` | go/arcadedb/batch.go:238-267 | In every interleaving the server has read a prefix of the written rows, and a body that ended cleanly splits back into exactly the rows given |
| `UploadRows.PullsAreLines` | go/arcadedb/internal/batchrows/batchrows.go:149-150 | No encoded row is empty, which the bound on further pulls rests on |
| `UploadStop.Stopper.Stop` | go/arcadedb/batch.go:269-291 | One-shot: the read side closed and the result taken once, a panic re-raised by the first call only, the same answer ever after |
| `UploadStop.Stopper.Fail` | go/arcadedb/batch.go:293-300 | The writer's own failure in preference to the given one |
| `UploadStop.DriveCalls` | go/arcadedb/batch.go:277-300 | Any sequence of stop and fail calls gives the specified answers |
| `UploadStop.CallsAgree` | go/arcadedb/batch.go:277-300 | A panic is re-raised exactly once, first, with its value; all other answers agree; the closed pipe is reported to nobody who did not bring it |
| `UploadStop.BatchLoad` | go/arcadedb/batch.go:99-128 | For every transport outcome and writer result: refused in a transaction with no request; otherwise one request, the writer waited for once, and the outcome of the specification |
| `UploadStop.TransportErrorIsTold` | go/arcadedb/batch.go:107-125 | When the writer has no failure of its own the transport's error is returned as it is, and an answer is undecodable only if it was 2xx and does not decode |
| `UploadStop.SummaryTells` | go/arcadedb/batch.go:110-128 | Over every run: a summary is returned if and only if the answer was 2xx and decodes and the run covered every row, or lost its pipe with bytes unread, or swallowed a row error; it covers every row if and only if neither of the last two happened |
| `UploadStop.SummaryCoversTheRows` | go/arcadedb/batch.go:110-128 | For good rows, in terms of the run: success exactly on a 2xx answer that decodes, and every row was read if and only if at no moment the read side was closed with bytes unread |
| `UploadStop.RowErrorIsReported` | go/arcadedb/batch.go:79-98 | When the sequence stopped at a bad row and the pipe was not lost before it, every transport outcome gives that error if and only if the error does not look like a closed pipe; a lost pipe makes a 2xx answer succeed; a panic always reaches the caller |
| `UploadStop.BadRowIsSwallowed` | go/arcadedb/batch.go:282-284 | A load whose first row is bad, with an error that wraps io.ErrClosedPipe, succeeds |
| `UploadStop.EarlyAnswerSucceeds` | go/arcadedb/batch.go:269-276 | A load of endless rows of which not a byte was read can succeed, when the server answers first |
| `UploadStop.BatchLoadStream` | go/arcadedb/batch.go:157-198 | For every response, writer result and consumer: the trace, the re-raised panic, one request, one wait, the deferred stop |
| `UploadStop.StreamTells` | go/arcadedb/batch.go:130-156 | Events, then at most one error, last, which is the writer's own when there is one; no call after a refusal |
| `UploadStop.ItemsTellAll` | go/arcadedb/batch.go:174-197 | The whole stream: the events of the lines before the first read error or in-band error, in order, then exactly one error if there is such a line or the writer failed, the writer's own before that line's |
| `UploadStop.NoLinesTell` | go/arcadedb/batch.go:165-173 | A response without lines shows exactly one error, the writer's own or else the transport's |
| `Transactions.HttpTransaction` | go/arcadedb/transaction.go:99-145 | Go over HTTP: outcome, calls in order and server state are those of the one specification, for every callback outcome, RPC fault, cancellation and reaping |
| `Transactions.GrpcTransaction` | go/arcadedbgrpc/transaction.go:88-153 | Go over gRPC, likewise |
| `Transactions.TypeScriptTransaction` | typescript/packages/driver-grpc/src/transaction.ts:179-238 | TypeScript over gRPC, likewise |
| `Transactions.BeginHttp` | go/arcadedb/transaction.go:154-183 | Begin carries the handle's own session id; no id at all is an error |
| `Transactions.IsBlank` | go/arcadedbgrpc/transaction.go:105-109 | The scan for a character that is not white space |
| `Transactions.CallsTell` | go/arcadedb/transaction.go:46-70 | Nothing is sent for a bad isolation level; the callback runs once and only with a usable id; the ending calls are rollback, commit, or commit then rollback; commit is sent if and only if the callback returned, and a failed one is followed by a rollback |
| `Transactions.BeginTells` | go/arcadedb/transaction.go:154-166 | Begin carries the database and the isolation level asked for, and over HTTP the session of the handle it is made on |
| `Transactions.EarlyExitsTell` | go/arcadedbgrpc/transaction.go:88-153 | Every early exit and every commit failure has its own error, whatever the rollback did; in Go a cancelled context keeps begin and commit from being sent |
| `Transactions.IdsTell` | go/arcadedb/transaction.go:168-182 | Which ids run the callback: over HTTP every one that is not empty, over gRPC one with a visible character and none of white space |
| `Transactions.SuccessIsCommitted` | go/arcadedbgrpc/transaction.go:40-66 | Success if and only if a live transaction's commit was sent and acknowledged; then no rollback was sent |
| `Transactions.FailureIsNotDurable` | go/arcadedb/transaction.go:46-66 | A failed call leaves a durable transaction if and only if a commit's answer was lost |
| `Transactions.LiveOnlyWhenRollbackFailed` | go/arcadedbgrpc/transaction.go:40-76 | No leaked session: one still live was never handed to the callback, or its rollback was sent and did not get through, cancelled context or not |
| `Transactions.CallbackIsNeverMasked` | go/arcadedb/transaction.go:18-38 | The callback's failure is found under the result whatever the rollback did; its panic value and exit pass through |
| `Transactions.RollbackFailureIsBeside` | typescript/packages/driver-grpc/src/transaction.ts:205-221 | The rollback's failure is told beside the callback's: a TxError in Go; in TypeScript the cause, exactly on an error object without one that is not frozen |
| `Transactions.TypeScriptAgreesWithGo` | typescript/packages/driver-grpc/src/transaction.ts:223-235 | The two gRPC clients agree in outcome and state; their calls differ exactly after committed=false, where TypeScript also rolls back |
| `Transactions.IdsReadDifferently` | typescript/packages/driver-grpc/src/transaction.ts:197-202 | The ids only one of the two refuses: blank ones with U+0085 or U+FEFF |
| `Transactions.HttpAgreesWithGrpc` | go/arcadedb/transaction.go:168-182 | The two Go clients agree if and only if the id is not all white space and no normally returned callback commits a reaped session |
| `TxBinding.TxHandle.Clone` | go/arcadedbgrpc/transaction.go:209-222 | A fresh deep copy equal to the caller's message as it was; no message becomes an empty one |
| `TxBinding.TxHandle.Bound` | go/arcadedbgrpc/transaction.go:194-202 | Database and transaction replaced whole on the copy, every other field as the caller had it |
| `TxBinding.TxHandle.Unary` | go/arcadedbgrpc/transaction.go:224-229 | A unary method sends the bound copy and touches nothing of the caller's |
| `TxBinding.TxHandle.StreamQuery` | go/arcadedbgrpc/transaction.go:295-303 | A stream keeps a bound copy that nothing of the caller's reaches |
| `TxBinding.Drive` | go/arcadedbgrpc/transaction.go:158-192 | Over object graphs with sharing, any run of calls, re-ranges and caller mutations sends exactly the messages of the value-level run, and the caller's objects hold exactly its own changes |
| `TxBinding.EveryMessageIsBound` | go/arcadedbgrpc/transaction.go:158-202 | Every message sent names the handle's database and a context with its id and database and nothing else |
| `TxBinding.UnarySendsTheRequest` | go/arcadedbgrpc/transaction.go:224-229 | A unary call sends the request as it was at the call |
| `TxBinding.RangeSendsTheOldRequest` | go/arcadedbgrpc/transaction.go:295-303 | Every range over a stream, however late, sends the request as it was when the stream was made |
| `TxBinding.OnlyChangesChange` | go/arcadedbgrpc/transaction.go:177-181 | The caller's graph ends as its own changes alone would have left it |
| `TxLazy.SpreadHandle.BindTransaction` | typescript/packages/driver-grpc/src/transaction.ts:73-79 | TypeScript: a new request with database and transaction forced, every other field the caller's, nested messages shared with it |
| `TxLazy.LazyStream.Read` | typescript/packages/driver-grpc/src/transaction.ts:81-113 | A TypeScript stream binds and sends the caller's request as it is at the first read, and sends nothing at a later one |
| `TxLazy.LazyDrive` | typescript/packages/driver-grpc/src/transaction.ts:81-113 | Over object graphs with sharing, any run of calls, reads and caller mutations sends exactly the messages of the value-level run, and the caller's objects hold exactly its own changes |
| `TxLazy.EveryLazyMessageIsBound` | typescript/packages/driver-grpc/src/transaction.ts:66-79 | Every message sent names the handle's database and a context with its id and database and nothing else |
| `TxLazy.ReadSendsTheRequestThen` | typescript/packages/driver-grpc/src/stream.ts:45-54 | The first read of a stream, however late, sends the request as the caller's graph stands then |
| `TxLazy.SameStore` | typescript/packages/driver-grpc/src/transaction.ts:73-79 | Both handles leave the caller's graph alone: under the same steps it is the same |
| `TxLazy.StreamsAgreeExactly` | typescript/packages/driver-grpc/src/transaction.ts:81-113 | The same callback over both handles: at the first read of a stream each sends one message, and the two messages sent are equal if and only if the caller left the request's other fields alone between call and read |
| `TxLazy.SameStreams` | typescript/packages/driver-grpc/src/transaction.ts:81-113 | Under the same steps both handles have made the same streams |
| `Envelope.EnvelopeIsUnique` | go/arcadedbgrpc/insert.go:56-75 | Numbers 1, 2, 3, one session, database on the first chunk only, last on the final only, one batch a chunk: these determine the chunks of a sequence |
| `Envelope.ServerCollects` | go/arcadedbgrpc/insert.go:65-72 | A server reading to the last chunk collects exactly the rows from the whole stream and nothing from a proper prefix; empty middle batches end nothing |
| `Envelope.InsertStream` | go/arcadedbgrpc/insert.go:86-135 | Go: what was sent is the prefix of the envelope the stream took, the result is the right one of reply, error behind EOF, send error, or panic; at most one batch is pulled ahead; stop once |
| `Envelope.SendAll` | go/arcadedbgrpc/insert.go:114-135 | The lookahead loop itself |
| `Envelope.OutcomeTells` | go/arcadedbgrpc/insert.go:208-216 | A stream that refuses a chunk behind a bare EOF gives the server's own answer, and with another error that error; a finished sequence gives the answer, one that panicked its panic |
| `Envelope.ChunkGenerator.Next` | typescript/packages/driver-grpc/src/stream.ts:133-189 | TypeScript: each resumption yields the next chunk of the same envelope, then ends or throws, with the iterator closed |
| `Envelope.ChunkGenerator.Return` | typescript/packages/driver-grpc/src/stream.ts:133-189 | Abandoning it closes the caller's iterator if and only if it was started and not finished |
| `Envelope.Consume` | typescript/packages/driver-grpc/src/stream.ts:133-189 | A call that takes any number of chunks gets that prefix of the envelope Go sends, pulls at most one batch ahead and closes the iterator exactly once |
| `Streams.StreamEvents` | go/arcadedb/stream.go:84-107 | The event loop shows a consumer exactly the cut of the decoded lines |
| `Streams.ItemsTell` | go/arcadedb/stream.go:121-140 | The decoded lines are the known events before the first failing line, then its error; unknown kinds add nothing |
| `Streams.EventStreamTells` | go/arcadedb/stream.go:84-140 | For every body, cut and consumer: a prefix of the known events, an error at most once and last, no call after a refusal |
| `Streams.LineTells` | go/arcadedb/stream.go:121-140 | From what a line parses as alone: an error outranks statistics, which outrank a record; the limit is -1 when absent; a line of neither kind is skipped |
| `Streams.ErrorLineEndsTheStream` | go/arcadedb/stream.go:96-105 | An in-band error ends the stream with that error, whatever comes behind it |
| `Streams.NoLinesTell` | go/arcadedb/stream.go:86-90 | A response without lines gives its error, once |
| `Streams.RecvAll` | go/arcadedbgrpc/stream.go:11-46 | One open and one cancel a range, the messages then at most one error, never read further than asked |
| `Streams.StreamRecords` | go/arcadedbgrpc/stream.go:60-79 | The flattened records then at most one error, one cancel, no batch received before the earlier ones were shown |
| `Streams.EverythingIsShown` | go/arcadedbgrpc/stream.go:11-46 | A consumer that never stops sees every message in order, then the error the stream broke with |
| `Streams.BatchesDoNotShow` | go/arcadedbgrpc/stream.go:48-79 | Streams with the same records cut differently into batches look the same to every consumer |
| `VersionTexts.RecognizeRewritten` | scripts/release-packages.py:238-242 | A recognised version line, rewritten, is recognised with the new value and the same surroundings |
| `VersionPlaces.SpotIsThePlace` | scripts/release-packages.py:238-269 | A writer edits a line if and only if it is the one place there is: the const line, the version key in the first [project] table, the version behind the package's name |
| `VersionPlaces.WriteTells` | scripts/release-packages.py:238-269 | A written file is the old one with the value between the quotes of that line replaced, and nothing else |
| `VersionPlaces.DocTells` | scripts/release-packages.py:222-235 | A written package.json or lockfile differs in the one version member and nowhere else |
| `VersionPlaces.RowTells` | scripts/release-packages.py:272-305 | Which file and entry each row of the table stands for |
| `VersionLaws.SpotStays` | scripts/release-packages.py:245-269 | A rewrite does not move the line a writer edits |
| `VersionLaws.WriteThenRead` | scripts/release-packages.py:147-194 | Each registry's reader returns what its writer wrote |
| `VersionLaws.WriteOver` | scripts/release-packages.py:222-269 | A later write gives what it alone would have given: nothing but the version was changed |
| `VersionLaws.WriteBack` | scripts/release-packages.py:222-269 | Writing the version that is there changes nothing |
| `VersionLaws.WriteBeside` | scripts/release-packages.py:228-269 | Two entries of one lockfile do not disturb each other, in either order |
| `VersionLaws.WriteHits` | scripts/release-packages.py:147-194 | What any reader reads after one entry was written: the new version if that entry is the one it reads, and what it read before otherwise |
| `VersionLaws.WrittenIsNotEmpty` | scripts/release-packages.py:400-404 | No writer stages an empty text, which the or fallback relies on |
| `VersionLaws.ReadsBackExactly` | scripts/release-packages.py:164-168 | For uv.lock: the written version is read back if and only if the line edited is the one the reader reads, or it was already read from elsewhere |
| `VersionLaws.ShapedIsGood` | scripts/release-packages.py:262-269 | In a lockfile of uv's shape it is |
| `VersionLaws.AnotherBlockIsRead` | scripts/release-packages.py:262-269 | A lockfile where the second block is edited and the first one read |
| `Versions.StageEdit` | scripts/release-packages.py:399-404 | One edit into the staged texts, through the or fallback, equals the edit on the files with the staged ones laid over |
| `Versions.SetVersion` | scripts/release-packages.py:392-406 | Every edit or none: the files become the whole fold of the edits, or stay as they were |
| `Versions.SetReadsBackExactly` | scripts/release-packages.py:392-406 | For any files: after success a reader returns the new version if and only if some edit rewrites the value it reads, or it read that version already |
| `Versions.SetReadsBack` | scripts/release-packages.py:392-406 | After success every reader returns the new version, for both entries of a shared lockfile, when every uv.lock entry is read where it is written |
| `Versions.SetForgets` | scripts/release-packages.py:392-406 | Setting another version afterwards gives what setting it at once would have |
| `Versions.SetTwiceIsOnce` | scripts/release-packages.py:392-406 | Repeating a set is a no-op |
| `Versions.SetIsUndone` | scripts/release-packages.py:392-406 | From files all at one version, set another and set the old one back: exactly the files there were (uv.lock under the same condition) |
| `Versions.OthersUntouched` | scripts/release-packages.py:392-406 | No file outside the table is touched, created or removed |
| `VersionCheck.Check` | scripts/release-packages.py:338-365 | The version part of check returns the specified problems, or ends with an error |
| `VersionCheck.ProblemsTell` | scripts/release-packages.py:349-365 | What each problem of a row says: the version the manifest has, a missing entry, the version an entry is locked at |
| `VersionCheck.NoProblems` | scripts/release-packages.py:338-365 | It finds nothing if and only if every manifest and lockfile entry reads the version |
| `VersionCheck.PackagesAreIndependent` | scripts/release-packages.py:55-118 | The shipped table's edits meet only in the shared lockfiles, at different entries |
| `VersionCheck.CheckAfterSet` | scripts/release-packages.py:392-406 | For any files: after a successful set of the shipped table the check finds nothing if and only if every reader reads a rewritten value, or read the version already |
| `VersionCheck.SetPassesTheCheck` | scripts/release-packages.py:392-406 | When every uv.lock entry is read where it is written, a successful set leaves a tree the check accepts, and repeating it changes nothing |

## Left out

- The network, the WebSocket handshake, HTTP and gRPC themselves: their outcomes are parameters.
- Error message texts, and session ids on the /ws frames: one connection carries one session.
- The 64-bit width of chunk numbers: integers are unbounded.
- The acknowledgement callback of a session, and all ack counters other than accepted rows and row errors.
- Row conflict modes: the rows a chunk applies are the server's choice.
- Calls that share a session from several goroutines, which the source forbids.
- Sequences that block for ever; a run is any finite number of steps.
- bufio's limit of 100 empty reads in a row, and Go's check for a reader that returns too much.
- Invalid UTF-8 in rows (the encoder replaces it), insignificant white space and surrogate escapes in the JSON reader, and Go values that marshal through their own methods.
- SpdxTokens.TokensKeepText: white space is Python's `str.isspace` set as listed in the module; case mapping covers all characters that can map into ASCII letters.
- SpdxArrays.ArrayMeansAnyOf: the entries are given as strings; the reading of `package.json` around them is not modelled.
- The other signals of the licence script (Python metadata, Go modules), its collectors and its report.
- `decodeBatchEvent`, `json.Unmarshal` of stream lines and `streamError`'s field mapping: the line parser is a parameter of the stream members.
- A consumer that panics inside a stream's loop body.
- UploadStop.SummaryTells: the order in which the transport answers and closes the pipe is any order; what net/http does in particular is not modelled.
- Transactions.HttpTransaction: the callback's own statements are abstract (they may let the session be reaped and the context be cancelled); a statement that commits part of the transaction is not modelled.
- Transactions.TypeScriptTransaction: the callback's result value, and errors whose `cause` is an accessor.
- TxLazy.SpreadHandle.Call: the message is serialised at the call, before the caller can change a nested message again.
- TxBinding.Drive: one request type with nested messages and a context stands for all bound request types; TxHandle.InsertStream, which takes its request by value, is not modelled.
- Envelope.InsertStream: sequences are finite and may end in a panic; an endless one behaves as its finite front until the stream fails.
- Random session ids of the envelope: the id is a parameter.
- Streams.StreamRecords: the inner iterator and the loop over it are one loop here.
- VersionTexts: TOML and Go files are lists of lines with single-line values and table headers at line start, JSON files are value trees without key order or duplicate keys, white space is the ASCII set, and `\d` is 0 to 9.
- Versions.SetVersion: a write that fails half-way through the writing loop, after all edits were computed.
- VersionCheck.Check: the server-version, contract and module-path parts of check; and a lockfile whose `packages` is not an object, which ends the check with a TypeError, counts as one without the entry.
- Time-series write streams, thin request wrappers, option builders and generated code: nothing hard in them.
