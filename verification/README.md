# occams-rpc: a verified model

occams-rpc is a multiplexed RPC stack: many calls share one connection, a sender numbers requests, a
receiver matches responses to the tasks that wait for them, and pools of connections fail over
between servers. This project models its core in Dafny and proves what the core is for: every task
ends exactly once and with its own response, readers stay on frame boundaries, retries end, and what a
service method returns is what the caller gets. Where the code falls short of that, it proves exactly
when.

| file | models |
|---|---|
| `Prelude.dfy`, `Errors.dfy` | bytes, UTF-8, the nine internal errors and their reserved names |
| `Registry.dfy`, `Timer.dfy` | the registry of sent requests, as a value and as the object that is updated in place |
| `ClientStream.dfy`, `ClientRuns.dfy` | the sending and the receiving task of one connection, interleaved at every shared access; single runs of it |
| `ClientCalls.dfy` | what one call, one close or one response comes to in that connection, whatever interleaves |
| `Wire.dfy`, `Frames.dfy` | headers, the action field, request and response frames |
| `BufIo.dfy` | the buffered stream over a socket that cuts reads and writes up in any way |
| `TcpClient.dfy`, `TcpServer.dfy` | reading and writing frames at both ends |
| `Matching.dfy` | the client's reader together with the registry object |
| `Server.dfy` | the reader, the services and the writer of a server connection, interleaved |
| `Api.dfy` | typed calls over all of the above |
| `Failover.dfy`, `FailoverRuns.dfy` | choosing a server, retrying, address changes; where each task goes and what its caller is told |
| `Pool.dfy` | the workers of one server's pool |

Objects that the program updates in place are classes (`Timer`, `BufIo`, `TcpClient`,
`FailoverTask`), each method proved against a function on values. Concurrent parts are step systems:
a `State`, an `Action` per atomic step, and results about every reachable state or every run. Tasks
of the runtime, the network, the peer and the clock choose the next step freely.

Assumptions: atomics are sequentially consistent; channels are first in, first out, and a closed
channel first yields what it still holds; codecs round-trip and never encode to an empty message;
a hash map is iterated in any order; a service answers every request dispatched to it once, and not at
all again; an attempt at a task ends in at most one `done` or `error_handle`. A socket follows a script
of `Give`, `Interrupt`, `Fail` and `Stall` events, so a statement over all scripts is a statement over
all ways of cutting the bytes up.

## Places where the code does less than one might expect

Each has the exact condition and an input or a run that shows it.

- A request that cannot be encoded is neither registered nor handed to `error_handle`, and the
  pending counter keeps counting it. The receive loop can return if and only if this never happened
  (`ClientStream.ReturnsExactly`; `ClientRuns.EncodingFails`).
- A close without any error can still fail one task, one that had passed the check of `closed` when the
  loop saw nothing left, and never more (`ClientCalls.GracefulClose`, `ClientCalls.QuietCloseFailsNone`;
  `ClientRuns.GracefulCloseFailsOne`).
- `take_task` misses a live task exactly if registration was stopped while the task was still in the
  channel (`Timer.ClientTaskTimer.TakeTask`, `ClientStream.ResolveExact`; `ClientRuns.StoppedMissesTask`).
- A receive future dropped because of `has_err` takes the one task it was reading with it, exactly if
  `has_err` is seen during that read; without `has_err` nothing is lost (`ClientStream.LostExactly`,
  `ClientStream.ShutdownHandshake`; `ClientRuns.AbandonedReadLosesTask`).
- The response to a ping holds the receiver up until a number at least as large is drained or
  registration is stopped (`ClientStream.HeldUpExactly`; `ClientRuns.PingHoldsReceiver`).
- Closing during the read of a header loses the bytes that had arrived; the reader is still at a frame
  boundary exactly if there were none (`TcpClient.Connection.ReadResp`; `TcpClient.CloseMidHeader`).
- A response for a task that no longer waits is skipped to the frame boundary exactly if its body is at
  most `i32::MAX` bytes (`TcpClient.Connection.ReadResp`). A longer one fails the read
  (`TcpClient.UnskippableResponse`) or, where the u32 sum wraps around, is reported as read away from the
  boundary (`TcpClient.WrappedResponse`).
- A waiting client panics exactly at a header with an unknown flag or a text of negative length
  (`TcpClient.Connection.ReadResp`; `TcpClient.UnknownFlagPanics`, `Api.LongTextPanics`).
- An error response is a frame exactly if no message bytes were appended before the error and the text
  fits an i32 (`Frames.ReplyBytesExact`; `Frames.PartialMessageBreaksFrame`).
- A negative action number reads back as a string length (`Wire.ActionFieldExact`;
  `Wire.NegativeNumberIsLength`).
- A caller gets exactly what the service returned if and only if a value can be encoded in less than
  2^32 bytes, and a user error has at most `i32::MAX` bytes and is not one of the reserved names
  (`Api.TextRoundTripExact`; `Api.ReservedNameTurnsInternal`, `Api.LongTextPanics`).
- A pool that was unhealthy once is never healthy again (`Pool.NeverHealthyAgain`;
  `Pool.FailedConnectEndsHealth`).

The documentation of the response header lists its fields in another order than the struct; the struct
is followed.

## Model

| member | source | states |
|---|---|---|
| `ClientStream.ShutdownHandshake` | stream/src/client/stream.rs:405-430 | in every interleaving, when the receive loop has returned, `closed` is set, the channel and every batch are empty, and every number ever registered was finished, timed out, cleaned up or lost with the one abandoned read, exactly once; without `has_err` none was lost |
| `ClientCalls.LeavesWhenEmpty` | stream/src/client/stream.rs:363-368 | without an error the loop leaves on its own if and only if the connection is closed and no number can be looked up anywhere |
| `ClientCalls.GracefulClose` | stream/src/client/stream.rs:360-430 | over every run in which no read fails and `has_err` stays unset, at most one task is cleaned up, none before the loop leaves, and every other registered task was answered or timed out by the time it returns |
| `ClientCalls.QuietCloseFailsNone` | stream/src/client/stream.rs:360-430 | if no sender is past the check of `closed` when the loop sees nothing left, no later step of any run cleans a task up |
| `ClientRuns.GracefulCloseFailsOne` | stream/src/client/stream.rs:237-251 | a run without any error in which the task past the check is written, registered and then cleaned up |
| `ClientStream.LostExactly` | stream/src/client/stream.rs:494-511 | over every run to the return of the loop, a task is lost if and only if the loop saw `has_err` while reading the response to that very task |
| `ClientStream.LostNeedsError` | stream/src/client/stream.rs:500-503 | in every reachable state in which a task was lost, `has_err` is set |
| `ClientRuns.AbandonedReadLosesTask` | stream/src/client/stream.rs:108-114 | a run with `set_error_and_exit` during a read that ends with the task neither finished nor handed to `error_handle` |
| `ClientStream.LaterSendsFail` | stream/src/client/stream.rs:231-264 | after the receive loop has returned, whatever is run, nothing is registered any more and every task given to `send_task` ends in `error_handle` |
| `ClientCalls.SendTask` | stream/src/client/stream.rs:231-320 | one whole call, whatever the receiver does meanwhile: unencodable means dropped, closed and has_err; unwritable means `error_handle`, closed, has_err and registration stopped; else registered under the next number, flushed if asked; else `closed` was seen and `error_handle` called without using a number. A closed connection refuses, and one still open at the end has registered |
| `ClientCalls.GivenUp` | stream/src/client/stream.rs:300-306 | whatever interleaves, a sender that has done giving up has set every flag it was to set |
| `ClientCalls.Endings` | stream/src/client/stream.rs:149-156 | in every interleaving, a drop ends with `closed` and registration stopped, a failed flush with both and has_err, a failed ping with `closed`, `set_error_and_exit` with has_err |
| `ClientCalls.PingsAndFlushes` | stream/src/client/stream.rs:267-339 | a successful flush or ping leaves nothing unflushed; a ping uses one number, and none on a closed connection |
| `ClientCalls.PeerCloseEndsRegistration` | stream/src/client/stream.rs:393-398 | after the close signal reached the reader, at most the one task past the check is registered, in every run |
| `ClientStream.ClosedStopsRegistration` | stream/src/client/stream.rs:237-251 | from any moment at which `closed` is set, at most the one task already past the check is ever registered |
| `ClientStream.CounterConservation` | stream/src/client/stream.rs:236-315 | in every reachable state the pending counter is the channel's length, plus one while a sender is between increment and registration or rollback, plus the number of encode failures; no decrement meets zero |
| `ClientStream.EncodeFailureNeverReturns` | stream/src/client/stream.rs:284-288 | once a request failed to encode, no run makes the receive loop return |
| `ClientRuns.EncodingFails` | stream/src/client/stream.rs:252-288 | a run in which the encoding fails: the connection is closed, the task is in no one's hands and `error_handle` was not called |
| `ClientStream.CleanUpReturns` | stream/src/client/stream.rs:415-426 | with no encode failure a loop that is cleaning up has a run that returns, wherever the sender is between increment and registration or rollback |
| `ClientStream.SenderSettles` | stream/src/client/stream.rs:236-315 | a sender that owes the counter can always register or roll back on its own, with the receiver left as it is |
| `ClientStream.ReturnsExactly` | stream/src/client/stream.rs:405-430 | from the clean-up of any run the loop can still return if and only if no encoding failed |
| `ClientStream.ResolveExact` | stream/src/client/timer.rs:148-163 | in every interleaving the lookup of a response finds what the registry holds for it, if and only if the task was not still in the channel when registration was stopped |
| `ClientCalls.ResponseReachesTask` | stream/src/client/timer.rs:143-164 | from every reachable state, the header of a response to a task held anywhere, channel included, is not taken for a late one, and steps of the receiver alone finish exactly that task and leave every other lookup as it was |
| `ClientRuns.StoppedMissesTask` | stream/src/client/timer.rs:244-246 | a run in which a response's task sits in the channel and its lookup answers nothing |
| `ClientStream.HeldUpExactly` | stream/src/client/timer.rs:239-253 | over every run without an error, a receiver that looks up a number stays there as long as no number at least as large is drained and registration is not stopped, and can go on as soon as one of these happened |
| `ClientRuns.PingHoldsReceiver` | stream/src/client/stream.rs:323-339 | a run in which the response to a ping is waiting for a registration that never comes |
| `ClientStream.WindowSafety` | stream/src/client/throttler.rs:15-39 | the in-flight count is the number of live tasks wherever they sit and at most thresholds + 1; registration never meets a full channel; a sender held back by the window has flushed everything |
| `ClientCalls.WindowAsConfigured` | stream/src/client/stream.rs:196-213 | for every configured `thresholds`, 0 standing for 128: over every run at most `thresholds` + 1 tasks are in flight and registration never waits for the channel |
| `ClientStream.WindowReopens` | stream/src/client/throttler.rs:27-34 | from every reachable state in which the sender waits for the window, steps of the receiver alone open it, whether the loop runs, cleans up or has returned |
| `ClientStream.ExactlyOnce` | stream/src/client/timer.rs:72-222 | in every reachable state each registered number is in exactly one of: registry, timed out, cleaned up, being read, finished, lost; each submitted task failed, was dropped, was registered or is still with the sender |
| `ClientStream.TimesOutExactly` | stream/src/client/stream.rs:494-511 | over every run of the connection without a response to it, a drained task gets Timeout exactly once, at the tick that makes it older than the timeout |
| `ClientCalls.TimeoutAsConfigured` | stream/src/client/timer.rs:193-222 | for every configured `task_timeout` and whatever happened before, a task of the current second with no response gets Timeout exactly at tick `task_timeout` + 1 |
| `ClientCalls.ErrorsBySource` | stream/src/client/timer.rs:72-105 | in every step, Timeout goes to exactly the tasks of the batch a tick pushes out, and IO from the registry to exactly the tasks a clean-up still finds in a batch |
| `ClientStream.StepKeeps` | stream/src/client/stream.rs:231-447 | every step of sender or receiver keeps the conjunction of number order, both ledgers, both counters, the window and the handshake |
| `Registry.ExactTimeout` | stream/src/client/timer.rs:193-222 | over any sequence of registrations, drains, lookups of other numbers and ticks, an unanswered task of age k times out exactly once and exactly when k plus the ticks exceeds the timeout |
| `Registry.DrainedKeeps` | stream/src/client/timer.rs:167-181 | draining the channel keeps the order of the registry and changes no lookup |
| `Registry.GotLookup` | stream/src/client/timer.rs:185-191 | moving the head of the channel into the current second changes no lookup |
| `Registry.WithoutKeeps` | stream/src/client/timer.rs:155-163 | removing a number from every batch keeps the order and changes the lookup of that number only |
| `Registry.AdjustedKeeps` | stream/src/client/timer.rs:193-222 | a tick keeps the order of the batches, at most `task_timeout` of them, and never lowers `min_delay_seq` |
| `Registry.AdjustedLookup` | stream/src/client/timer.rs:193-222 | a tick changes the lookup of exactly the tasks in the batch that fell off |
| `Registry.AdjustedBound` | stream/src/client/timer.rs:203-219 | `min_delay_seq` becomes the least number of the batch that timed out, and else stays |
| `Registry.TakenHeld` | stream/src/client/timer.rs:155-163 | taking a task that is there removes exactly one occurrence of one number |
| `Registry.GoneForGood` | stream/src/client/timer.rs:143-222 | a number the drain has passed and no batch holds never comes back and is never timed out again |
| `Timer.BelowMinDelay` | stream/src/client/timer.rs:145-147 | the `min_delay_seq` shortcut never rejects a live task |
| `Timer.ClientTaskTimer.constructor` | stream/src/client/timer.rs:49-66 | an empty, well-ordered registry with a channel of twice the thresholds |
| `Timer.ClientTaskTimer.RegTask` | stream/src/client/timer.rs:131-136 | registration succeeds exactly if the channel has room, and then appends |
| `Timer.ClientTaskTimer.PollSentTask` | stream/src/client/timer.rs:167-181 | the loop leaves the fully drained registry and says whether anything was there |
| `Timer.ClientTaskTimer.CheckPendingTasksEmpty` | stream/src/client/timer.rs:107-127 | true exactly if no number can be looked up anywhere |
| `Timer.ClientTaskTimer.CleanPendingTasks` | stream/src/client/timer.rs:72-105 | after draining, every held number is handed to `error_handle` with IO once and every batch is empty, none dropped |
| `Timer.ClientTaskTimer.RemoveTask` | stream/src/client/timer.rs:155-163 | the search through the batches is lookup-and-remove on their union |
| `Timer.ClientTaskTimer.TakeTask` | stream/src/client/timer.rs:143-253 | one poll answers with lookup-and-remove on channel, current second and all batches as one map, if and only if the task was not still in the channel when registration was stopped; it waits exactly if nothing at or above the number has been registered; all other lookups are unchanged |
| `Timer.ClientTaskTimer.ExpireBatch` | stream/src/client/timer.rs:203-219 | every task of the batch gets Timeout once and the least number is found, in any iteration order |
| `Timer.ClientTaskTimer.AdjustTaskQueue` | stream/src/client/timer.rs:193-222 | the object after a tick is the value after a tick, in order, with at most `task_timeout` batches |
| `Wire.ActionFieldExact` | stream/src/proto.rs:154-199 | the action field reads back as the action exactly if a number is not negative or a string is shorter than 2^31 bytes |
| `Wire.NegativeNumberIsLength` | stream/src/proto.rs:156 | a number that reads back as a string length |
| `Wire.LeRoundTrip` | stream/src/proto.rs:90-111 | little-endian fields decode to the number encoded |
| `Wire.LeByte` | stream/src/proto.rs:92-111 | byte i of a field is the digit of the number for 256 to the power of i |
| `Wire.ReqHeadRefused` | stream/src/proto.rs:178-189 | a request header is refused if and only if the magic bytes or the version differ |
| `Wire.RespHeadRefused` | stream/src/proto.rs:368-379 | a response header is an IO error if and only if the magic bytes differ, and a Version error if and only if only the version does |
| `Wire.ReqHeadRoundTrip` | stream/src/proto.rs:124-189 | every request header decodes to itself |
| `Wire.RespHeadRoundTrip` | stream/src/proto.rs:352-379 | every response header decodes to itself, negative blob lengths included |
| `Frames.EncodeRequest` | stream/src/proto.rs:143-175 | succeeds exactly if the task encodes and the lengths fit, and leaves header, action and message with nothing stale |
| `Frames.RequestParses` | transport/tcp/src/server.rs:86-169 | the frame of a request followed by anything parses to that request and ends where the frame ends |
| `Frames.RequestLayout` | stream/src/proto.rs:92-175 | every byte of a request frame: magic, version, each field at its offset, action, message, blob |
| `Frames.RequestRefused` | transport/tcp/src/server.rs:95-139 | a request cut short in header or action is IO; another magic or version, or an action that is not UTF-8, is Decode |
| `Frames.ResponseParses` | transport/tcp/src/client.rs:115-196 | the frame of a response followed by anything parses to that response and leaves the rest |
| `Frames.ResponseLayout` | stream/src/proto.rs:234-365 | every byte of a response frame: flag 0, 1 or 2, each field at its offset, the errno in the place of the length, the text behind the header |
| `Frames.EncodeResponse` | stream/src/proto.rs:255-295 | buffer and blob together are the bytes of the reply, for every reply and every length |
| `Frames.EncodeError` | stream/src/proto.rs:318-349 | the header of the error, and the text behind whatever was appended before |
| `Frames.ReplyBytesExact` | stream/src/proto.rs:255-349 | the bytes written are the frame of the response meant if and only if nothing was appended before an error and the text fits |
| `Frames.ReplyParses` | stream/src/proto.rs:255-349 | read as one frame, the bytes of a reply give the response meant if they are its frame, and nothing otherwise |
| `Frames.PartialMessageBreaksFrame` | stream/src/proto.rs:290-349 | a reply whose bytes are not its frame: an error after one message byte |
| `BufIo.Pipe.WriteAll` | core/src/io/buf_io.rs:94-115 | on success exactly the source is appended; on failure a prefix of it; interruptions are retried |
| `BufIo.BufRead.ReadBuffered` | core/src/io/buf_io.rs:134-158 | delivered bytes and buffered bytes are the inner bytes in order, on the copy, bypass and refill paths; zero bytes only at the end |
| `BufIo.BufWrite.Flush` | core/src/io/buf_io.rs:177-183 | on success the wire carries everything accepted; on failure a prefix of it |
| `BufIo.BufWrite.WriteBuffered` | core/src/io/buf_io.rs:186-206 | wire plus buffer grow by exactly the bytes reported as written, on every path |
| `BufIo.BufStream.ReadExact` | core/src/io/buf_io.rs:19-40 | the next bytes of the pipe however they were cut up; without a failing read it succeeds exactly if there are enough; its waiting is ended exactly if the socket stalls, and then exactly the bytes delivered are gone |
| `BufIo.BufStream.WriteAll` | core/src/io/buf_io.rs:94-115 | everything is accepted in order, or only a prefix reaches the wire |
| `BufIo.WriteParts` | core/src/io/buf_io.rs:94-206 | any number of `write_all` calls and a flush put exactly the concatenation on the wire |
| `TcpClient.Connection.WriteReq` | transport/tcp/src/client.rs:264-286 | message buffer, blob, and with `need_flush` nothing left in the buffer |
| `TcpClient.Connection.Dump` | transport/tcp/src/client.rs:52-69 | skips exactly the length asked for; without a failing read it succeeds exactly if the length is an i32 and the bytes are there |
| `TcpClient.Connection.RecvError` | transport/tcp/src/client.rs:72-112 | the error body is consumed to its last byte and its task gets that error; it panics exactly for an unknown flag or a text of negative length |
| `TcpClient.Connection.RecvText` | transport/tcp/src/client.rs:84-109 | a text of any length that arrives whole is consumed to its last byte and becomes the task's error, and the task is handed back exactly once even if the read fails |
| `TcpClient.Connection.RecvReply` | transport/tcp/src/client.rs:128-180 | the body is consumed to its last byte whether or not there is a blob buffer or the message decodes, and the task is handed back exactly once on every path |
| `TcpClient.Connection.RecvUnclaimed` | transport/tcp/src/client.rs:181-195 | exactly the u32 sum of the lengths is skipped, if and only if it is at most `i32::MAX` |
| `TcpClient.Connection.ReadResp` | transport/tcp/src/client.rs:290-332 | for every well-formed response the reader ends at the next frame boundary and the task gets its outcome, if and only if the task waits or the body is at most `i32::MAX` bytes; where it ends otherwise; another magic is IO, another version Version; it reports a close exactly if the header stalls, then no task is touched and the boundary is kept exactly if no header byte had arrived; it panics exactly at an absurd header of a waiting task |
| `TcpClient.OutcomeMeans` | transport/tcp/src/client.rs:72-180 | what a task gets, for every response: its own message and blob if there is room and it decodes, else Decode; any errno as that errno; a text as that text, a reserved name as that internal error |
| `TcpClient.ReadAnswer` | transport/tcp/src/client.rs:115-332 | reading a response for a waiting task appends exactly that outcome, stops at the next frame boundary and leaves every other task waiting |
| `TcpClient.CloseMidHeader` | transport/tcp/src/client.rs:296-310 | closing after k header bytes of any response with a shorter body: the next read fails and the waiting task is never answered |
| `TcpClient.UnskippableResponse` | transport/tcp/src/client.rs:52-59 | a well-formed response nobody waits for, at which the read fails |
| `TcpClient.WrappedResponse` | transport/tcp/src/client.rs:184-191 | a well-formed response nobody waits for, whose read succeeds away from the frame boundary |
| `TcpClient.UnknownFlagPanics` | transport/tcp/src/client.rs:110 | a header at which a waiting client panics |
| `TcpClient.ReadAll` | transport/tcp/src/client.rs:115-332 | frame sync over a run: any well-formed responses in any order, cut up in any way, each waited for or at most `i32::MAX` bytes, are read one by one to the next boundary and each answers its own task |
| `Matching.Take` | stream/src/client/timer.rs:143-164 | where the waiting tasks are the lookup of the registry object, `take_task` answers and removes as on a plain map while registration is not stopped, and waits exactly if nothing at or above the number has been registered |
| `Matching.RegisterMirrors` | stream/src/client/timer.rs:131-136 | registering adds exactly the new task to the waiting ones |
| `Matching.TickMirrors` | stream/src/client/timer.rs:193-222 | a tick takes exactly the timed-out tasks from the waiting ones |
| `Matching.ReadMatched` | transport/tcp/src/client.rs:123-195 | header, lookup in the registry object, body: the task the registry gives is answered and reader and registry stay in step |
| `Matching.ReadAllMatched` | transport/tcp/src/client.rs:115-332 | frame sync with the registry object: any responses to registered numbers are read to the next boundary, each answers the task registered for it, and what is left waiting is what the registry still holds |
| `TcpServer.ReadReq` | transport/tcp/src/server.rs:86-169 | what is returned and how far is read is what the bytes say, error cases included; Timeout exactly if the close channel or the idle timer ends a stall in the header; a blob that cannot be allocated is Decode, any other request is returned as parsed |
| `TcpServer.WriteResp` | transport/tcp/src/server.rs:172-197 | the bytes of the reply are accepted whole and in order |
| `TcpServer.RoundTrip` | stream/src/proto.rs:143-199 | any sequence of requests, through both buffers and any cutting up, is read as the same sequence, number, action, message and blob alike, an empty blob as none |
| `Server.SplitOnce` | src/server/dispatch.rs:39 | the first dot splits the action; none exactly if there is no dot |
| `Server.SplitJoined` | src/server/dispatch.rs:38-46 | "service.method" is dispatched to that service and that method |
| `Server.OneResponseEach` | stream/src/server/server.rs:127-205 | with any dispatch: the wire is a prefix of what entered the channel, every response carries its request's number and fits its kind, and no request is answered twice |
| `Server.RepliesExact` | stream/src/server/server.rs:131-143 | on the wire of every reachable state: a ping has an empty success, any other number, a number with a message and a string without a dot have Decode, and only dotted strings ever wait for a service |
| `Server.DottedIsDispatched` | src/server/dispatch.rs:38-50 | a string is dispatched to the part before its first dot and the part behind it |
| `Server.ServiceAnswersArrive` | stream/src/server/server.rs:194-200 | a dispatched request is answered on the wire with the very message and result its service gave |
| `Server.GoneWriterStopsReader` | stream/src/server/server.rs:154-161 | once the writer is gone a reader with a quick reply to send reads no further request |
| `Server.HangupEndsReading` | stream/src/server/server.rs:146-149 | a reader that failed to read never reads again |
| `Server.DrainsBeforeShutdown` | stream/src/server/server.rs:194-203 | the write side is shut down only after every request read has its response on the wire and all is flushed |
| `Server.WriterTurns` | stream/src/server/server.rs:194-203 | the writer turns to flushing only after it saw the channel empty, and ends shut only by a successful flush |
| `Server.OneFlushPerTurn` | stream/src/server/server.rs:194-199 | all that is in the channel can be written, in order, before the one flush of the turn |
| `Server.ResponsesInOrder` | src/server/dispatch.rs:86-89 | with inline dispatch the k-th response answers the k-th request, pings and malformed actions included |
| `Server.StepKeeps` | stream/src/server/server.rs:127-205 | every step of reader, service or writer keeps the flow, the tally and the order |
| `Server.WriteBatch` | stream/src/server/server.rs:194-200 | one turn of the writer puts the bytes of all its responses on the wire in order |
| `Server.ResponsesArrive` | transport/tcp/src/client.rs:115-332 | responses written by the server and read by the client leave the client as if it had been handed the responses themselves, for every response whose bytes are its frame |
| `Errors.NamesDistinct` | core/src/error.rs:311-339 | the nine names are distinct |
| `Errors.NameRoundTrip` | core/src/error.rs:311-339 | every internal error is recovered from its name |
| `Errors.NameIsReserved` | core/src/error.rs:4-5 | every name has the reserved prefix, is UTF-8 and is short |
| `Errors.RetriableExact` | core/src/error.rs:311-339 | the errors below `Method` are Unreachable, IO and Timeout |
| `Api.TextRoundTrip` | src/client/mod.rs:153-193 | with string errors, from the setters through the bytes to the caller: the value or error returned, but for an unencodable value and a reserved name, for every size the bytes carry |
| `Api.TextRoundTripExact` | core/src/error.rs:274-287 | through the bytes the caller gets exactly what was returned if and only if a value can be encoded in less than 2^32 bytes, and a string has at most `i32::MAX` bytes and is not a reserved name |
| `Api.InsteadArrives` | src/client/mod.rs:161-193 | what arrives when the result does not survive: Encode for an unencodable value, the internal error for a reserved name, no frame for what is too long |
| `Api.ForeignResponses` | src/client/mod.rs:161-185 | for any response: an empty message is the default value; a message that does not decode, an errno, or a text that is not UTF-8 is Decode |
| `Api.LongTextPanics` | stream/src/proto.rs:322-333 | a string error of 2^31 bytes: nothing arrives and the waiting client panics |
| `Api.ReservedNameTurnsInternal` | transport/tcp/src/client.rs:94-103 | a string error that arrives as an internal error |
| `Api.UnitRoundTrip` | core/src/error.rs:252-266 | with the unit error the caller gets exactly what was returned if and only if a value can be encoded in less than 2^32 bytes |
| `Api.StaticArmUnreached` | src/client/mod.rs:186 | the unreachable arm of `process_res` is not reached, whatever response the reader delivers |
| `Api.ResponseFits` | src/server/task.rs:29-57 | what the setters send is one frame, for every message below 2^32 bytes and every text of at most `i32::MAX` bytes |
| `Api.CallReachesMethod` | src/client/mod.rs:134-150 | a request reaches the method that was called with the argument it was called with |
| `Api.ServesTheRest` | stream/src/server/server.rs:131-143 | a ping, a malformed action or an argument that does not decode is answered as on any connection, under the number of its request |
| `Api.EachGetsItsOwn` | transport/tcp/src/client.rs:123-180 | answers to different waiting callers do not disturb each other |
| `Api.CallAll` | src/client/mod.rs:106-110 | any number of calls on one connection, results of any size a header carries, cut up in any way in both directions: every caller gets what its method returned |
| `Api.ItemsReachTasks` | transport/tcp/src/client.rs:115-180 | messages, blobs and errors of any responses, written by the server and cut up in any way, each reach the task that waits for them |
| `Failover.ChosenExact` | stream/src/client/failover.rs:127-148 | some pool exactly if one is healthy, and then the first healthy one in cyclic order from the seed |
| `Failover.Select` | stream/src/client/failover.rs:127-148 | the loop computes that choice and advances the counter only for a fresh round-robin selection |
| `Failover.RetryRepeats` | stream/src/client/failover.rs:134-147 | a retry goes back to the pool that failed exactly if no other is healthy |
| `Failover.Fair` | stream/src/client/failover.rs:136-137 | over any n consecutive turns each of l pools gets the floor or the ceiling of n / l |
| `Failover.SelectMany` | stream/src/client/failover.rs:127-148 | n fresh selections among healthy pools choose each pool floor or ceiling of n / l times |
| `FailoverRuns.RoundRobinFair` | stream/src/client/failover.rs:127-148 | over every run of the step system in one configuration with all pools healthy, fresh selections give each pool the floor or the ceiling of its share, however they interleave with answers and retries |
| `Failover.UpdateAddrs` | stream/src/client/failover.rs:93-118 | the i-th pool has the i-th address, no object appears twice, the first mention of a surviving address keeps that very pool and every other mention gets a new one |
| `Failover.IndexPools` | stream/src/client/failover.rs:100-103 | the map holds the last pool of every address and nothing else |
| `Failover.NewestExact` | stream/src/client/failover.rs:100-103 | with duplicate old addresses the last pool is the one kept |
| `FailoverRuns.UpdateTakesEffect` | stream/src/client/failover.rs:115-117 | an update that is stored is what selections see, under a version above every earlier one |
| `FailoverRuns.DroppedPoolIsUnreachable` | stream/src/client/failover.rs:204-207 | after the failover pool is dropped a submitted task is told Unreachable |
| `Failover.FailoverTask.SetRpcError` | stream/src/client/failover.rs:366-374 | the task after an internal error: errors below `Method` count a retry, others forbid one |
| `Failover.FailoverTask.Finish` | stream/src/client/failover.rs:252-262 | the task goes to the retry channel exactly for a transient error, a retry left and an open channel |
| `Failover.FailoverTask.Reselect` | stream/src/client/failover.rs:161-183 | selection counts on from the failed pool in an unchanged configuration and starts afresh in a new one |
| `Failover.SingleDelivery` | stream/src/client/failover.rs:156-262 | in every reachable state the caller was told at most once, with a result set, and the task was sent at most `retry_limit + 1` times |
| `FailoverRuns.SubmitGoes` | stream/src/client/failover.rs:272-293 | a submitted task goes to the first healthy pool from the counter on, or from the first pool; with none, or no configuration, it is told Unreachable and sent nowhere |
| `FailoverRuns.RetryStartsAfresh` | stream/src/client/failover.rs:161-183 | a retry in a configuration the task has not seen goes to the first healthy pool of a fresh selection |
| `FailoverRuns.RetryGivesUp` | stream/src/client/failover.rs:186-193 | a retry with no healthy pool, no configuration or a dropped failover pool tells the caller the transient error that made it retry |
| `FailoverRuns.AnswerExact` | stream/src/client/failover.rs:252-262 | an answer queues the task if and only if the error is transient, fewer than `retry_limit` retries were counted and the channel is open; else it ends the task |
| `FailoverRuns.ToldTheLast` | stream/src/client/failover.rs:358-385 | over every run the caller is told the last answer its task got, or Unreachable if it was never sent |
| `Failover.FinalReplies` | stream/src/client/failover.rs:358-385 | success, user errors and internal errors from `Method` up end the task at once, even after retries, and no later step sends it again or changes what the caller was told |
| `Failover.Terminates` | stream/src/client/failover.rs:156-262 | in any run a task takes at most 2 * retry_limit + 2 steps |
| `Failover.VersionsNeverReused` | stream/src/client/failover.rs:115-117 | a version, once handed out, means the same pools for ever |
| `Failover.RetryMovesOn` | stream/src/client/failover.rs:161-183 | `last_index` is read against the configuration that produced it: it names the pool that failed, and the retry returns there exactly if no other is healthy |
| `Pool.OneMonitor` | stream/src/client/pool.rs:153-297 | in every interleaving `worker_count` is the number of workers started, about to start or not yet uncounted, and while a handle exists exactly one of them is or owes the monitor |
| `Pool.SpawnedAreWorkers` | stream/src/client/pool.rs:116-119 | only the first spawn makes a monitor |
| `Pool.EveryTaskOnce` | stream/src/client/pool.rs:184-306 | a submitted task goes to a stream or to `error_handle` at most once, and exactly once by the time the pool is gone |
| `Pool.SentOrFailed` | stream/src/client/pool.rs:184-306 | only a worker or monitor sending adds to the sent tasks, exactly its task; only clean-up adds to the failed ones, exactly the head, or at the end of the pool all that is left |
| `Pool.NothingFailsWithoutTrouble` | stream/src/client/pool.rs:214-306 | over every run in which no connect, ping, send or flush fails, no task fails, and no worker leaves while a handle exists or a task waits |
| `Pool.FirstInFirstOut` | stream/src/client/pool.rs:187-193 | over every run tasks leave the channel in the order of submission, whichever workers take them |
| `Pool.CleanedOut` | stream/src/client/pool.rs:299-305 | when a worker is done cleaning up, nothing it found in the channel is left there |
| `Pool.FailureCleans` | stream/src/client/pool.rs:289-294 | a worker that cannot connect, or a lone monitor whose ping fails, turns the pool unhealthy, fails exactly what is in the channel and connects again |
| `Pool.Promotion` | stream/src/client/pool.rs:241-274 | a lone monitor holding a task with requests in flight becomes worker 1, a new monitor is spawned, and the task is sent |
| `Pool.NoPromotion` | stream/src/client/pool.rs:241-275 | with nothing in flight, or with other workers, the monitor sends the task and stays the monitor |
| `Pool.MonitorTakes` | stream/src/client/pool.rs:229-241 | a lone monitor takes the head of the channel |
| `Pool.MonitorPings` | stream/src/client/pool.rs:222-228 | a monitor with company takes nothing: it pings, and reconnects if that fails |
| `Pool.WorkerSends` | stream/src/client/pool.rs:187-193 | a worker other than the monitor connects and sends the head of the channel |
| `Pool.NeverHealthyAgain` | stream/src/client/pool.rs:173-176 | no run turns health back on |
| `Pool.HealthyUntilTrouble` | stream/src/client/pool.rs:214-297 | over every run a pool is healthy if and only if it was and no connect, ping, send or flush failed |
| `Pool.FailedConnectEndsHealth` | stream/src/client/pool.rs:289-293 | a run that makes a pool unhealthy |

## Left out

- Runtime adapters, sockets, addresses, listeners, graceful restart, procedural macros and MessagePack: foreign calls or plumbing.
- `u64` wrap-around of sequence numbers and `usize` overflow of the round-robin counter: numbers are unbounded.
- Read and write timeouts within a frame, wakers and real durations: a read ends, fails or is dropped; time is ticks.
- Memory: on the client an allocation fails exactly if its length is not an i32, and every vector but one of negative length can be resized.
- Typed decoding of numeric and errno user errors: the code compares with the `max` function, not a number.
- `connected_worker_count`, `last_resp_ts` and the 20-round bound of `recv_some`: not observable as written.
- The retry channel of a runtime that is shut down: a task already queued stays queued.
- Order of hash-map iteration: the logs of timed-out and cleaned tasks are multisets.
- Server-side task enums and the blob of typed API calls: easy variants of what is modelled.
- Failover.SelectMany: every pool is healthy during the n selections; with unhealthy ones their turns go to the next healthy pool, so the shares are no longer even.
- Api.CallAll: its callers wait in a plain map, which `Matching.ReadAllMatched` shows to be the registry object.
- Server.State, Pool.State and ClientStream.Conn: step systems on values; they do not capture aliasing of the shared objects, which the classes do.
