# Graceful drain of a WebSocket server, modelled in Dafny

This project models the connection-lifecycle core of a Go WebSocket server that drains its
connections gracefully before it is stopped. The model covers these parts:

- **Map registry** (`MapRegistry`, `map_registry.dfy`). This is `conn_manager.ConnectionManager`,
  repeated in the earlier single-file `go/main.go`. It is a set of connection identities with add,
  remove and count. Its `CloseAllConnections` drain snapshots the members and raises the one-shot
  shutdown flag. It then sends every snapshot connection a going-away close frame (code 1001,
  section 7.4.1 of RFC 6455, reason "Server shutting down") followed by a transport close. Finally
  it polls the count every 100 ms until the count is zero, the 5 s timer fires, or the context ends.
- **Slice registry** (`SliceRegistry`, `slice_registry.dfy`). This is `connmanager.ConnectionManager`,
  an insertion-ordered slice of slots, each nil or a connection. It supports append, index delete,
  the padded prefix copy `GetFirstNConnections`, and the two drains `CloseFirstNConnections` and
  `CloseAllConnections`. Both drains delete by loop index from a slice that shrinks under them. The
  drains are modelled as written and as evidently intended.
- **Session** (`Session`, `session.dfy`). This is `wsHandler`, both in the handlers package and in
  `go/main.go`, written as a state machine driven by environment events:
  - `Raise`: the shutdown flag is raised;
  - `Arrive`: a read completes;
  - `Elapse`: time passes, in milliseconds.

  The session greets the client, then loops: it checks the flag, reads a message, and either echoes
  it or runs the interruptible 30 s slow operation. Every exit deregisters and closes the connection.
- **Control channels.**
  - `ControlTcp` (`control_tcp.dfy`): the TCP channel reads each line with `strconv.Atoi`, drains
    that many connections from the slice registry and acknowledges the line.
  - `ControlIpc` (`control_ipc.dfy`): the Unix-socket channel acknowledges every line and does
    nothing else.
  - `Cleanup` (`cleanup_svc.dfy`): the cleanup service waits for the preStop trigger, then sends
    "11" drain requests every 10 s.
  - `Lines` (`lines.dfy`) models the `bufio.Scanner` line framing they share.
  - `Decimal` (`decimal.dfy`) models `strconv.Atoi` and the one-decimal formatting of elapsed time.

Connections are opaque identities (`ConnId`). Every panic the Go code can hit is an explicit outcome
(`PanicKind`), not a precondition:
- a second close of a closed channel;
- `make` with a negative length;
- an out-of-range `slices.Delete`;
- a nil connection;
- the `[:9]` slice of a short message.

Every nondeterministic input is a parameter:
- the Go map's iteration order;
- which writes and closes fail;
- what wakes the drain's `select`;
- the session's events.

Where the source has a defect, a `Variant` parameter selects the definition as written or the
corrected one; the findings below list both.

Two points where the model follows the code exactly:
- **Shutdown flag.** Both registries `close` the shutdown channel without a guard, so a second
  `CloseAllConnections` closes a closed channel and panics (`MapRegistry.SecondDrainPanics`).
- **TCP drain call.** `tcp.go` calls `cm.CloseNConnections`, which `connmanager.go` does not define.
  The model maps the call to `CloseFirstNConnections` (`SliceRegistry.DrainFirstN`).

## Model

| member | source | states |
|---|---|---|
| Common.CloseEach | go/cmd/ws_server/internal/conn_manager/conn_manager.go:54-69 | draining a list of connections produces exactly two effects per connection and never raises the shutdown flag |
| Common.CloseEachEffects | go/cmd/ws_server/internal/conn_manager/conn_manager.go:54-69 | connection i of the list gets the close frame with code 1001 and reason "Server shutting down" as effect 2i and its transport close as effect 2i+1, whatever failed for earlier connections: errors are isolated per connection |
| Common.CloseEachAppend | go/cmd/ws_server/internal/connmanager/connmanager.go:68-86 | draining a then b has the same effects as draining a + b |
| Decimal.Atoi | go/cmd/ws_server/internal/tcp/tcp.go:41-45 | a line is accepted exactly when it is an optional sign followed by one or more digits whose value fits a 64-bit int; the result is that value, and it is negative only after a '-' |
| Decimal.AtoiItoa | go/cmd/ws_server/internal/tcp/tcp.go:41 | reading back the canonical text of any 64-bit integer gives that integer |
| Decimal.AtoiNormalises | go/cmd/ws_server/internal/tcp/tcp.go:41 | "007" reads as 7 and "+5" as 5, whose canonical texts are "7" and "5"; "-3", "-1" and "11" read as their values |
| Decimal.AtoiRejects | go/cmd/ws_server/internal/tcp/tcp.go:41-45 | the empty line, a line with a leading or trailing space, and a bare sign are rejected |
| Decimal.FormatTenths | go/cmd/ws_server/internal/handlers/handlers.go:133 | the "%.1f" text of a value in tenths ends in '.' and one digit, and its digits read back as that value |
| Decimal.NatToString | go/cmd/ws_server/internal/handlers/handlers.go:133 | the decimal text of a natural number is a non-empty digit string with no leading zero that reads back as the number |
| Lines.ScanLines | go/cmd/ws_server/internal/tcp/tcp.go:37-40 | the scanner's tokens contain no newline, and a non-empty stream yields at least one token |
| Lines.ScanJoin | go/cmd/ws_server/internal/tcp/tcp.go:39-40 | reading back lines written one per `Fprintln` gives exactly those lines, in order |
| Lines.ScanExamples | go/cmd/ws_server/internal/tcp/tcp.go:39-40 | a "\r\n" ending and a missing final newline read the same as "\n", and an empty line is a token of its own |
| MapRegistry.New | go/cmd/ws_server/internal/conn_manager/conn_manager.go:19-24 | a new registry is empty and its shutdown flag is down |
| MapRegistry.Add | go/cmd/ws_server/internal/conn_manager/conn_manager.go:26-31 | after adding, the connection is a member and no other membership changes; adding a present connection changes nothing; the count grows by one exactly when the connection was absent (the same code is repeated at go/main.go lines 130-135) |
| MapRegistry.Remove | go/cmd/ws_server/internal/conn_manager/conn_manager.go:33-38 | after removing, the connection is absent and no other membership changes; removing an absent connection changes nothing; the count drops by one exactly when it was present (the same code is repeated at go/main.go lines 137-142) |
| MapRegistry.AddRemoveRoundTrip | go/cmd/ws_server/internal/conn_manager/conn_manager.go:26-38 | registering then deregistering a new connection restores the registry |
| MapRegistry.Wait | go/cmd/ws_server/internal/conn_manager/conn_manager.go:71-94 | the wait returns only when a poll sees nobody registered, the timer fires or the context ends; every wake it polled on was a tick; a timeout or cancellation after at least one poll leaves someone still registered; it never removes anyone itself, so those registered afterwards are exactly the initial ones minus the sessions that deregistered during its polls (the same code is repeated at go/main.go lines 175-198) |
| MapRegistry.ClockSchedule | go/cmd/ws_server/internal/conn_manager/conn_manager.go:72-73 | with a 100 ms ticker and a 5 s timer, the wakes are at most 50 ticks followed by one timer or context wake |
| MapRegistry.WaitBounded | go/cmd/ws_server/internal/conn_manager/conn_manager.go:72-94 | under real clocks the wait always ends, after at most 50 polls |
| MapRegistry.HookContextNeverCancels | go/main.go:69-74 | when the shutdown hook's 10 s context starts before the snapshot and close loop, and that loop takes at most 5 s of it, the wait never ends through the context: the 5 s timer or an empty poll comes first |
| MapRegistry.LongContextNeverCancels | go/cmd/ws_server/internal/conn_manager/conn_manager.go:71-94 | whenever at least 5 s of the context remain when the wait starts, the wait ends by an empty poll or the timer, never by the context |
| MapRegistry.ShortContextCancels | go/cmd/ws_server/internal/conn_manager/conn_manager.go:71-94 | when less than 5 s of the context remain, someone is registered and nobody deregisters, the wait ends by the context: the bound is real, not an artefact of the schedule |
| MapRegistry.CloseAllConnections | go/cmd/ws_server/internal/conn_manager/conn_manager.go:40-95 | it panics exactly when the shutdown flag is already raised. Otherwise the snapshot holds exactly the members, once each. The first effect raises the flag, and the flag is raised nowhere else. Each snapshot connection then gets a going-away close frame and a transport close, whether or not earlier ones failed. The wait is the wait over exactly those members. The registry left is the members minus those that deregistered during the wait, and it is empty when a poll saw nobody (the same code is repeated at go/main.go lines 144-199) |
| MapRegistry.DistinctCount | go/cmd/ws_server/internal/conn_manager/conn_manager.go:41-46 | a snapshot that lists every member once is as long as the registry's count |
| MapRegistry.AllGoneMeansAllExited | go/cmd/ws_server/internal/conn_manager/conn_manager.go:85-92 | when a poll sees nobody registered, every connection that was registered has deregistered itself |
| MapRegistry.SecondDrainPanics | go/cmd/ws_server/internal/conn_manager/conn_manager.go:51 | a second drain after a completed one closes the closed shutdown channel and panics |
| SliceRegistry.NewAsWritten | go/cmd/ws_server/internal/connmanager/connmanager.go:22-27 | a new manager holds 100 nil slots, so its count starts at 100 with the flag down |
| SliceRegistry.NewCorrected | go/cmd/ws_server/internal/connmanager/connmanager.go:22-27 | the intended new manager counts 0 connections with the flag down |
| SliceRegistry.Add | go/cmd/ws_server/internal/connmanager/connmanager.go:29-37 | adding appends the connection after the existing slots, which keep their order, and the count grows by one |
| SliceRegistry.AddAll | go/cmd/ws_server/internal/connmanager/connmanager.go:29-37 | adding a list of connections appends them in order |
| SliceRegistry.RemoveAt | go/cmd/ws_server/internal/connmanager/connmanager.go:39-44 | removing index i panics exactly when i is outside the slice; otherwise exactly entry i is deleted, the entries before it stay and the entries after it move down by one |
| SliceRegistry.FirstN | go/cmd/ws_server/internal/connmanager/connmanager.go:46-54 | a negative n panics; otherwise the copy has length n, its first min(n, count) entries are the registry's and the rest are nil |
| SliceRegistry.CountCountsNil | go/cmd/ws_server/internal/connmanager/connmanager.go:56-61 | the count is the slice length: never below the number of live connections, equal to it exactly when no slot is nil, and 100 on a fresh manager that holds no connection |
| SliceRegistry.SurvivorsStep | go/cmd/ws_server/internal/connmanager/connmanager.go:85 | after k removals by loop index, the slice holds original entries 1, 3, ..., 2k-1 followed by the untouched tail, and removal k + 1 keeps that shape |
| SliceRegistry.CloseFirstNAsWritten | go/cmd/ws_server/internal/connmanager/connmanager.go:63-87 | a negative count panics in `make` and changes nothing; the drain never touches the shutdown flag |
| SliceRegistry.CopyLoopShifts | go/cmd/ws_server/internal/connmanager/connmanager.go:68-86 | iterations i to k close original entries i to k-1, while the slice becomes the survivors of k removals |
| SliceRegistry.CloseFirstNAsWrittenShifts | go/cmd/ws_server/internal/connmanager/connmanager.go:63-87 | when 2n is at most count + 1 and the first n slots are connections, the first n connections are closed but the registry loses original entries 0, 2, ..., 2n-2 and keeps the odd entries before 2n |
| SliceRegistry.CloseFirstNAsWrittenOverruns | go/cmd/ws_server/internal/connmanager/connmanager.go:68-86 | when n exceeds half the registry, the loop runs off the shrunken slice at iteration ceil(count/2) and panics there |
| SliceRegistry.CloseFirstNAsWrittenExample | go/cmd/ws_server/internal/connmanager/connmanager.go:63-87 | with C1, C2, C3 registered, draining two closes C1 and C2 but leaves the closed C2 registered and drops the open C3 |
| SliceRegistry.LeadingNilDrainPanics | go/cmd/ws_server/internal/connmanager/connmanager.go:63-70 | any manager whose oldest slot is nil panics on the first iteration of a drain of one or more, before closing or removing anything |
| SliceRegistry.FreshManagerDrainPanics | go/cmd/ws_server/internal/connmanager/connmanager.go:63-70 | on a manager built by `NewConnectionManager`, whatever connections were added afterwards, a drain of one or more meets a prefilled nil slot first and panics before closing anything |
| SliceRegistry.CloseOldestLoop | go/cmd/ws_server/internal/connmanager/connmanager.go:63-87 | removing the k oldest slots one at a time never panics, leaves the slots after them and closes exactly their connections in order |
| SliceRegistry.CloseOldest | go/cmd/ws_server/internal/connmanager/connmanager.go:63-87 | the intended partial drain: a negative count panics in `make`; otherwise the min(n, count) oldest connections are closed in order and removed, and nothing else changes |
| SliceRegistry.CloseOldestExample | go/cmd/ws_server/internal/connmanager/connmanager.go:63-87 | with C1, C2, C3 registered, the intended drain of two closes and removes C1 and C2 and leaves C3 |
| SliceRegistry.DrainFirstN | go/cmd/ws_server/internal/tcp/tcp.go:48 | the drain the TCP handler calls as `CloseNConnections` (mapped to `CloseFirstNConnections`): a negative count panics in `make` and changes nothing, the intended drain never panics otherwise, and neither touches the shutdown flag |
| SliceRegistry.CloseAllAsWritten | go/cmd/ws_server/internal/connmanager/connmanager.go:89-117 | a second call panics. Otherwise it raises the flag first, then closes original entries 0, 2, ..., 2k-2, with k = ceil(count/2), while it removes them by loop index, and leaves their survivors. With at most one connection it ends without a panic; with two or more the range loop reads the vacated last element of the backing array: nil since Go 1.22, so a nil-connection panic, and before 1.22 a stale copy of the last connection, which is closed (a second time only when the count is odd) before the delete goes out of range. A leading nil slot panics at once. Without a panic the registry is left empty |
| SliceRegistry.RangeRemove | go/cmd/ws_server/internal/connmanager/connmanager.go:99-117 | the range loop over a slice of connections closes entries 0, 2, ..., 2k-2, where k = ceil(count/2), and leaves their survivors; it panics exactly when more than one connection was registered, with a nil connection since Go 1.22 and before 1.22 with an out-of-range delete after closing the stale copy of the last connection (a second close only when the count is odd); a leading nil slot stops it at once |
| SliceRegistry.CloseAllAsWrittenExample | go/cmd/ws_server/internal/connmanager/connmanager.go:99-117 | with C1 and C2 registered, the drain closes C1 and leaves C2 registered; it then panics on a nil connection since Go 1.22, or closes C2 and panics in the delete before it |
| SliceRegistry.CloseAllCorrected | go/cmd/ws_server/internal/connmanager/connmanager.go:89-117 | the intended full drain raises the flag unless it is already raised, closes every connection in registration order and leaves the registry empty |
| SliceRegistry.DrainNCoversDrainAll | go/cmd/ws_server/internal/connmanager/connmanager.go:63-117 | a partial drain of at least the registry's size closes the same connections as the full drain and leaves it just as empty, whether or not the flag was already raised; only the flag raise differs |
| Session.ClassifyAsWritten | go/cmd/ws_server/internal/handlers/handlers.go:121 | a message is slow exactly when it is "SLOW_REQUEST" or starts with "SLOW_PING"; any other message whose UTF-8 encoding is shorter than 9 bytes hits the out-of-range slice (the same code is repeated at go/main.go lines 246) |
| Session.ClassifyCountsBytes | go/cmd/ws_server/internal/handlers/handlers.go:121 | the slice bound counts bytes, not characters: five two-byte characters are echoed, two of them panic |
| Session.ClassifyCorrected | go/cmd/ws_server/internal/handlers/handlers.go:121 | the intended test never fails and is slow exactly for "SLOW_REQUEST" and "SLOW_PING…" |
| Session.ClassifiersAgree | go/cmd/ws_server/internal/handlers/handlers.go:121 | the intended test agrees with the code wherever the code does not panic, and echoes the short messages where it panics |
| Session.Sampled | go/cmd/ws_server/internal/handlers/handlers.go:129 | the elapsed time the loop last recomputed lags the true elapsed time by less than one 1 s tick |
| Session.ReplyTexts | go/cmd/ws_server/internal/handlers/handlers.go:94-156 | of the welcome, echo, completion and interruption texts, only the interruption reply starts with "SLOW_INTERRUPTED" |
| Session.FinishDeregisters | go/cmd/ws_server/internal/handlers/handlers.go:88-91 | the deferred cleanup ends the session, removes its connection from the registry and nothing else, leaves the flag alone, and appends exactly the deregistration and the close, with no further write |
| Session.InterruptRepliesOnce | go/cmd/ws_server/internal/handlers/handlers.go:131-137 | an interruption sends exactly one write, an interruption reply with the request's message type, whether or not it succeeds, then deregisters and ends; nothing is sent after the reply |
| Session.LoopTopChecksFlag | go/cmd/ws_server/internal/handlers/handlers.go:100-105 | at the top of the loop a raised flag ends the session as a shutdown, deregistered and with no further write; a lowered flag with nothing queued blocks in a read and changes nothing else |
| Session.Receive | go/cmd/ws_server/internal/handlers/handlers.go:107-157 | handling a read never changes the connection, never withdraws an output, never lowers the flag, never adds members, and removes no member other than its own connection |
| Session.Step | go/cmd/ws_server/internal/handlers/handlers.go:100-159 | the same for any event, and an ended session ignores every event |
| Session.Start | go/cmd/ws_server/internal/handlers/handlers.go:84-104 | the first output is the welcome "WebSocket connection established"; the session ends at once exactly when that write fails or the flag is already raised |
| Session.StartValid | go/cmd/ws_server/internal/handlers/handlers.go:84-104 | a started session satisfies the session invariant |
| Session.StepKeeps | go/cmd/ws_server/internal/handlers/handlers.go:100-159 | every event keeps the session invariant: the welcome comes first, and a running session is registered, has not deregistered and has not sent an interruption reply. Slow work stays under 30 s and stops at shutdown. An ended session has deregistered and closed last, and has sent at most one interruption reply, just before that |
| Session.RunValid | go/cmd/ws_server/internal/handlers/handlers.go:100-159 | any sequence of events keeps the session invariant and the connection |
| Session.SessionLifecycle | go/cmd/ws_server/internal/handlers/handlers.go:76-160 | every session greets first and is registered exactly while it runs. When it ends, its last two outputs deregister and close the connection, and nothing deregisters before that. It sends at most one interruption reply, and an interrupted session sends it right before ending (the same code is repeated at go/main.go lines 201-285) |
| Session.EchoReply | go/cmd/ws_server/internal/handlers/handlers.go:149-157 | an ordinary message gets exactly "Echo: " + message with the same message type; the session keeps reading unless the write fails, which ends it (the same code is repeated at go/main.go lines 274-281) |
| Session.ShutdownSeenBetweenReads | go/cmd/ws_server/internal/handlers/handlers.go:100-116 | a flag raised while the session is blocked in a read is seen after that message is handled, and the session ends with no further write |
| Session.StartAfterShutdown | go/cmd/ws_server/internal/handlers/handlers.go:94-104 | a session that starts after shutdown greets and ends at the first check, before reading |
| Session.ReadErrorEnds | go/cmd/ws_server/internal/handlers/handlers.go:107-116 | any read error ends the session through the deferred cleanup |
| Session.ShortMessagePanics | go/cmd/ws_server/internal/handlers/handlers.go:121 | a message whose UTF-8 encoding is under 9 bytes, other than "SLOW_REQUEST", makes the session panic, and the deferred cleanup still deregisters it; the intended test echoes it (the same code is repeated at go/main.go lines 246) |
| Session.SlowCompletion | go/cmd/ws_server/internal/handlers/handlers.go:125-148 | below 30 s of slow work nothing is sent; at 30 s exactly the completion message is sent with the request's type, and the session returns to reading unless the write fails |
| Session.SlowInterruption | go/cmd/ws_server/internal/handlers/handlers.go:129-137 | shutdown during slow work sends exactly one interruption reply, reporting an elapsed time below 30 s that lags the true elapsed time by less than one tick, and ends the session (the same code is repeated at go/main.go lines 254-262) |
| Session.SlowAfterShutdown | go/cmd/ws_server/internal/handlers/handlers.go:129-137 | a slow request read after shutdown is interrupted at once, reporting "0.0 seconds" |
| Session.HelloExample | go/cmd/ws_server/internal/handlers/handlers.go:121 | "hello" gets "Echo: hello" under the intended test; as written the session panics and is deregistered |
| Session.SlowThenEcho | go/cmd/ws_server/internal/handlers/handlers.go:121-157 | a slow request with no shutdown completes after 31 simulated seconds, and the session then echoes the next message |
| ControlTcp.Accepted | go/cmd/ws_server/internal/tcp/tcp.go:41-45 | the lines acted on are the lines with a count, and every line with a count is among them (order and repetition: `ControlTcp.AcceptedAppend`) |
| ControlTcp.AcceptedAppend | go/cmd/ws_server/internal/tcp/tcp.go:39-45 | the lines acted on keep their input order and repetitions: the selection of a + b is the selection of a followed by that of b, and a single line is kept exactly when it has a count |
| ControlTcp.Serve | go/cmd/ws_server/internal/tcp/tcp.go:39-56 | every request acted on is acknowledged, except the last one when a drain crashed; a stop on a failed write follows at least one request |
| ControlTcp.HandleConnection | go/cmd/ws_server/internal/tcp/tcp.go:34-57 | from the raw bytes of a control connection, the requests acted on are a prefix of the lines with a count, in order, and all of them when the input ran out; every reply is the acknowledgement of its request, written in order |
| ControlTcp.ServeSkip | go/cmd/ws_server/internal/tcp/tcp.go:42-45 | a line without a count is skipped: no drain, no reply, and reading continues |
| ControlTcp.ServeAct | go/cmd/ws_server/internal/tcp/tcp.go:46-56 | a count triggers one drain of n, then one reply with the line's own text, and then the rest of the lines are served |
| ControlTcp.ServeWriteFails | go/cmd/ws_server/internal/tcp/tcp.go:51-55 | a failed reply write ends the handler right after that drain; later lines are not processed |
| ControlTcp.ServeFollowsInput | go/cmd/ws_server/internal/tcp/tcp.go:39-56 | the requests acted on are the numeric lines in input order: a prefix of them, and all of them when the input ran out |
| ControlTcp.ServeReplies | go/cmd/ws_server/internal/tcp/tcp.go:39-56 | reply i is "Closing " + text of request i + " WS connections\n", written as the next write; only the last write can have failed, and a failed write ends the handler |
| ControlTcp.NoWriteFails | go/cmd/ws_server/internal/tcp/tcp.go:51-55 | when no write fails, the handler never stops on a write |
| ControlTcp.CorrectedDrain | go/cmd/ws_server/internal/tcp/tcp.go:48 | the intended drain of n >= 0 called by the handler removes and closes the min(n, count) oldest connections |
| ControlTcp.CorrectedServeKeepsNewest | go/cmd/ws_server/internal/tcp/tcp.go:39-56 | with the intended drain and non-negative counts the server never crashes, and the registry keeps only what follows the oldest Total connections, where Total is the sum of the counts acted on |
| ControlTcp.CorrectedServeClosesOldest | go/cmd/ws_server/internal/tcp/tcp.go:39-56 | with the intended drain and non-negative counts, the connections closed are exactly those oldest ones, in registration order |
| ControlTcp.CorrectedServeDrainsOldest | go/cmd/ws_server/internal/tcp/tcp.go:39-56 | both of the above together: the server does not crash, and it closes and removes exactly the oldest connections, as many as the requests acted on asked for |
| ControlTcp.ParsedExamples | go/cmd/ws_server/internal/tcp/tcp.go:41 | "11", "007", "+5" and "-1" are read as the counts 11, 7, 5 and -1 |
| ControlTcp.ServeOne | go/cmd/ws_server/internal/tcp/tcp.go:39-56 | one count served with a working connection is acknowledged and drains the min(n, count) oldest connections |
| ControlTcp.CleanupRequestAcknowledged | go/cmd/ws_server/internal/tcp/tcp.go:37-56 | the line "11" sent with `Fprintln` is read as 11, drains up to 11 connections and is acknowledged with "Closing 11 WS connections\n" |
| ControlTcp.ReplyEchoesText | go/cmd/ws_server/internal/tcp/tcp.go:51 | "007" and "+5" are acknowledged with their own text |
| ControlTcp.ReplyNotCanonical | go/cmd/ws_server/internal/tcp/tcp.go:51 | that text differs from the reply the normalised counts 7 and 5 would give |
| ControlTcp.NegativeCountCrashes | go/cmd/ws_server/internal/tcp/tcp.go:41-48 | "-1" passes `Atoi` and crashes the server in the drain's `make`, before any reply, with either drain |
| ControlIpc.ServeIpc | go/cmd/ws_server/internal/ipc/ipc.go:40-53 | the Unix-socket handler never crashes; it replies at most once per line, to every line when the input ran out, and a stop on a failed write follows at least one reply |
| ControlIpc.IpcReplies | go/cmd/ws_server/internal/ipc/ipc.go:40-53 | reply i is exactly "Closing " + line i + " WS connections\n", written as the next write; only the last write can have failed, and a failed write ends the handler |
| ControlIpc.IpcMatchesTcp | go/cmd/ws_server/internal/ipc/ipc.go:44 | on valid non-negative counts, the Unix-socket handler writes exactly the replies the TCP handler with the intended drain writes, and stops for the same reason, though it drains nothing |
| ControlIpc.IpcAcknowledgesAnything | go/cmd/ws_server/internal/ipc/ipc.go:44 | a line that is not a count is acknowledged here, where the TCP handler skips it |
| Cleanup.HandleFrom | go/cmd/cleanup_svc/main.go:77-99 | the trigger handler fires at the first read that is exactly the trigger; it returns without firing at the first error or empty read; otherwise it keeps reading |
| Cleanup.HandlePeer | go/cmd/cleanup_svc/main.go:73-100 | a handler fires at a read that is exactly the trigger with only non-empty non-trigger reads before it; it hangs up at a failed or empty read after such reads; otherwise every read was quiet and it is still waiting |
| Cleanup.FiresIff | go/cmd/cleanup_svc/main.go:91-98 | a handler fires exactly when some single read is "preStop-trigger\n" and every earlier read was non-empty and not the trigger |
| Cleanup.TriggerMustArriveWhole | go/cmd/cleanup_svc/main.go:94 | the trigger split over two reads, or sent without its newline, never fires |
| Cleanup.CloseGate | go/cmd/cleanup_svc/main.go:94-98 | the cleanup is released exactly when some handler fired. As written, two firings close the shared channel twice and crash the service. With the intended guard it never crashes |
| Cleanup.Listen | go/cmd/cleanup_svc/main.go:47-71 | starting with the gate open, the cleanup is released exactly when some peer fired the trigger; as written the service crashes exactly when two or more peers fire, and with the guard it never crashes |
| Cleanup.SecondTriggerCrashes | go/cmd/cleanup_svc/main.go:96 | two trigger connections crash the service as written; with the guard the cleanup is released once |
| Cleanup.TaskFrom | go/cmd/cleanup_svc/main.go:32-44 | each round sends exactly "11" and consumes at most one reply line. The cleanup task stops exactly at the first failed send, and all rounds send when none fails |
| Cleanup.Task | go/cmd/cleanup_svc/main.go:22-45 | the cleanup task sends only "11" requests, one per round; it stops early exactly when some round's send fails, and then at the first such round; with no failed send every round sends; the replies consumed are the first incoming lines, one per sent round |
| Cleanup.RequestsParse | go/cmd/cleanup_svc/main.go:33 | the requests as written are read back line by line, each as the count 11 |
| Cleanup.ServeRequests | go/cmd/cleanup_svc/main.go:32-41 | requests of 11 served by the intended TCP handler with working writes are all acknowledged, and together drain the 11 × k oldest connections, or all of them |
| Cleanup.RequestsDrainOldest | go/cmd/cleanup_svc/main.go:32-41 | the same, starting from the bytes the cleanup task writes |
| Cleanup.CleanupDrainsOldest | go/cmd/cleanup_svc/main.go:22-45 | whatever the cleanup task managed to send is acknowledged request by request and drains 11 of the oldest connections per request, or all of them |

## Left out

- Locks and goroutines. The mutexes are left out and each registry operation is one atomic step; sessions, control peers and the drain are modelled one at a time.
- The read lock in the slice registry's `CloseAllConnections` (connmanager.go:90-91). That drain holds the read lock while `RemoveConnection` takes the write lock, so it blocks at its first removal. The model shows what the loop does without the lock.
- The shared read buffer (cleanup_svc/main.go:56 and 69). All trigger handlers read into one 1024-byte buffer, which races. Each handler's reads are modelled as its own chunks.
- The wait loop of the slice registry's `CloseAllConnections` (connmanager.go:119-142). It is the same loop as the map registry's, which `MapRegistry.Wait` models.
- Gorilla WebSocket framing, upgrade and close-frame encoding. These belong to a foreign library; a close is the abstract effect (code 1001, reason).
- Clocks, tickers and sleeps. Time is integer milliseconds, and the 10 s sleep between cleanup rounds is a constant only.
- The completion message's RFC 3339 timestamp. It is an opaque string in the environment.
- Float formatting of elapsed time. `%.1f` is modelled on whole tenths of a second, and the reported value is always a whole number of 1 s ticks.
- Logging. No log line has a behavioural effect.
- Listener setup, accept loops and dialing. `net.Listen`, `Accept`, `net.Dial` and the panics when they fail are I/O.
- The `os.Remove` of the Unix socket path. Also I/O.
- Socket reads and writes. They are input sequences and the sets of failing writes.
- The scanner's 64 KiB token limit: a longer line would end the handler's loop.
- Waking a blocked read: while blocked in a read, a message is handled only on its `Arrive` event. Raising the flag does not wake the read, which matches `ReadMessage`. Messages that arrive during slow work are queued and read afterwards.
- HTTP wiring, signal handling and the `RootHandler`/`HealthzHandler` responses. This also covers the earlier `go/main.go` waiting for two signals before shutting down (lines 92-93).
- Go map iteration order. The drain takes the snapshot order as a parameter.
- The Go release. The sources do not pin one, and the range loop's read past the shrunken slice differs between releases (since Go 1.22 `slices.Delete` zeroes the vacated element), so the slice registry's full drain takes the release as a parameter (`Release`).
- The time the map registry's drain spends before its wait. The hook's 10 s context also covers the snapshot and the close loop; `MapRegistry.HookContextNeverCancels` takes that time as a parameter and assumes it stays within 5 s.
- Session.ClassifyAsWritten: messages are Unicode text measured by their UTF-8 length; a binary frame that is not valid UTF-8 is not representable, so its byte length is not modelled.
- Sessions running alongside the drain: their deregistrations during the wait come from the environment's wakes, not from running the sessions alongside the drain.

## Findings

| source | as written | input that shows it | evidently intended | confidence | as-written member | corrected member |
|---|---|---|---|---|---|---|
| go/cmd/ws_server/internal/connmanager/connmanager.go:24 | `make` with length 100 pre-fills 100 nil slots, so a new manager counts 100 connections, and a drain meets a nil first | a new manager, with or without connections added, then `CloseFirstNConnections(1)` | a new manager holds no connections (capacity 100, length 0) | high (not executed) | SliceRegistry.FreshManagerDrainPanics | SliceRegistry.NewCorrected |
| go/cmd/ws_server/internal/connmanager/connmanager.go:85 | `RemoveConnection(i)` on the already shrunk slice removes original entries 0, 2, 4, … | a manager without the line-24 prefill (as `NewCorrected` builds it), register C1, C2, C3, then `CloseFirstNConnections(2)`: C1 and C2 are closed, but the registry keeps the closed C2 and drops the open C3 | remove exactly the n oldest connections that were closed | medium (not executed): the input needs the line-24 defect fixed first | SliceRegistry.CloseFirstNAsWrittenExample | SliceRegistry.CloseOldest |
| go/cmd/ws_server/internal/connmanager/connmanager.go:99-116 | the range loop removes by loop index from the slice it ranges over, and runs past the shrunken slice | a manager without the line-24 prefill and without the read lock of lines 90-91, register C1, C2, then `CloseAllConnections`: C1 is closed and C2 stays registered; the loop then reads the vacated element, which is nil since Go 1.22 (nil-connection panic), and before 1.22 is a stale C2, which it closes (its first close) before the delete panics out of range | close every connection and leave the registry empty | medium (not executed): the input needs the line-24 and lock defects fixed first | SliceRegistry.CloseAllAsWrittenExample | SliceRegistry.CloseAllCorrected |
| go/cmd/ws_server/internal/handlers/handlers.go:121 | `string(message)[:9]` panics on every message shorter than 9 bytes other than "SLOW_REQUEST" | the message "hello" | a prefix test: short messages are echoed | high (not executed) | Session.HelloExample | Session.ClassifyCorrected |
| go/cmd/cleanup_svc/main.go:96 | every trigger handler closes the shared `continueCh`, so a second trigger closes a closed channel | two connections each sending "preStop-trigger\n" | release the cleanup once and ignore later triggers | high (not executed) | Cleanup.SecondTriggerCrashes | Cleanup.CloseGate |
