# quicssh core, modelled in Dafny

quicssh carries an SSH (TCP) byte stream over QUIC. The server accepts QUIC
sessions and bridges every stream opened inside a session to a freshly dialled
sshd connection. The client dials the server, opens one stream and bridges it
to its own stdin/stdout. Nearly all of this is transport plumbing. This project
models the sequential logic inside that plumbing and proves what it promises:

- **Copy pump** (`Pump`, main.go `readAndWrite`). One direction of a relay:
  check for cancellation, read into an 8 KiB buffer, and write what was read to
  the sink. The pump's environment is a script with one entry per loop turn.
  An entry is either "context already done" or a read reply (bytes and maybe an
  error) with the reply the sink would give to the write. The pump is a
  recursive function over that script. It is compared with an independent
  description: the first terminal turn, the non-empty reads before it, and all
  the bytes read before it. The `select` that takes whichever of the two pumps
  finishes first is `FirstToFinish`, a choice between the two outcomes.
- **Log labels** (`Labels`, main.go `withLabel`, `label`, `er`). A context
  holds at most one label string. Nesting joins labels with `>`, and a missing
  or empty label reads as `main`. Errors are wrapped under the label of the
  context they are reported from.
- **Session supervisor** (`Supervisor`, server.go). This covers the
  `activeSessions` and `countDown` counters, the one-second idle timer, the
  accept loop's error classification and the session handler's decrement on
  exit. It is a record with a pure step function over a trace of events:
  `Tick`, `SessionAccepted`, `AcceptFailed(err)` and `SessionEnded`. The
  countdown is an `int64` counted in nanoseconds, and its wrap-around on `Add`
  is modelled.
- **Client address** (`Client`, client.go). An address written
  `txt://domain[:port]` is resolved through the first TXT record of `domain`.
  Any other address is used verbatim. The DNS answer is an input function from
  the name queried to the answer.

`Errors` holds the error values: the `context.Canceled` and `io.EOF`
sentinels, opaque failures, and `er`'s wrapping. It also models `errors.Is`.
`Strings` holds `strings.Split` on one character, its inverse `Join`, and
`HasPrefix`/`TrimPrefix`.

`serverStreamHandler` derives a cancellable context for its two pumps and
cancels it when it returns (server.go:138-139). The deferred calls run in the
order `cancel()`, `rConn.Close()` (server.go:136), `conn.Close()`
(server.go:129). So on the server, a pump that lost the `select` while between
turns sees cancellation at its next turn. A loser blocked in `Read` or `Write`
instead ends with the I/O error from the close and never reaches its
`ctx.Done()` check. The client's relay
(client.go:92-101) does not cancel its pumps' context. In the model a pump
checks for cancellation at the top of every turn, and `FirstToFinish` only
chooses between the two outcomes, so it does not depend on this difference.

Observation about the source: each pump sends its result on an unbuffered
channel (main.go:56), and the relay's `select` receives exactly once
(server.go:143-146, client.go:94-97). The pump that loses the race therefore
blocks forever on its send, and its deferred `close` never runs. Each relay
leaks one goroutine and its 8 KiB buffer.

The shutdown lemmas that count whole seconds assume `NoWrap(timeout)`: a
timeout of at most `MaxWholeSeconds` = 9223372036 seconds. This bound is
exact. Up to it, the countdown reaches the timeout without overflowing. Above
it (up to `2562047h47m16.854775807s`), `CountdownWrapsAboveNoWrap` shows that
the source's `countDown.Add` wraps to a negative value after 9223372036 idle
ticks, and the timer keeps counting instead of shutting down.

## Model

| member | source | states |
|---|---|---|
| Pump.Pump | main.go:55-84 | A pump uses no more turns than the script has. It is still blocked exactly when it used them all without terminating. Every chunk it writes is non-empty and at most 8192 bytes, the buffer size. |
| Pump.PumpStopsAtFirstTerminal | main.go:62-81 | The pump terminates iff some turn is terminal: cancelled, read error, oversized read, or rejected write of a non-empty read. It stops right after the first such turn. Its writes are exactly the non-empty reads before that turn, in order. |
| Pump.SinkIsBytesReadBeforeStop | main.go:68-79 | The sink's bytes are exactly the concatenation of all bytes read before the terminal turn: no loss, duplication or reordering. Bytes returned together with a read error are not written. |
| Pump.PumpOutcome | main.go:63-78 | The single outcome matches the first terminal turn. Cancellation gives the context error. A read error gives that error, and a write error gives that error. Each is wrapped under the pump's label. A read claiming more than the buffer panics. |
| Pump.NothingAfterTermination | main.go:63-78 | After its one outcome the pump does nothing more: extending the script past a terminal turn changes neither the writes nor the outcome. |
| Pump.EmptyReadContinues | main.go:73-79 | A zero-byte read without error writes nothing, whatever the sink would answer, and the loop continues with the next turn. |
| Pump.EofIsVisible | main.go:68-71 | A pump that stopped on end of input reports an error for which `errors.Is(err, io.EOF)` holds, despite `er`'s wrapping. |
| Pump.FirstToFinish | server.go:141-146 | The relay's outcome is one of the two pumps' outcomes. It is present iff at least one pump finished, and it is the only finished pump's outcome when just one has. A panic in either pump is the outcome whenever one occurred, since it ends the process. |
| Pump.RelayEndsWithEitherDirection | client.go:92-101 | A relay of two pumps, each under its own context, ends iff either direction's script reaches a terminal turn. It ends with one of the two directions' outcomes. When the two contexts' labels differ, a reported error carries the first direction's label iff that direction's outcome was taken. |
| Pump.RelayNamesStoppedDirection | server.go:141-146 | With the two pumps labelled by distinct sibling names under one context (`toSSHD`/`fromSSHD`, `stdout`/`stdin`), a reported relay error carries the first name's label iff the relay took the first direction's outcome. When both directions have stopped, the scheduler's choice decides which label appears. |
| Labels.SiblingLabelsDiffer | main.go:99-112 | Two different non-empty labels added under the same context read back as different labels. |
| Labels.WithLabelKeepsParent | main.go:99-104 | After `withLabel` a label is always stored. With no parent it is the new label. With a parent, its `>`-separated parts are the parent's parts followed by the new label's parts. |
| Labels.Label | main.go:106-112 | The label read back is never empty. It is the stored label, except that a missing or empty label reads as `main`. |
| Labels.Er | main.go:86-89 | Wrapping an error under a label keeps its root error and every sentinel `errors.Is` finds in it. |
| Labels.NestedLabel | main.go:99-112 | Labels applied one after another from a fresh context are stored joined by `>`. They read back as that join, or as `main` if the join is empty. |
| Labels.LabelChainRoundTrip | main.go:99-104 | Splitting a nested label at `>` gives back every name applied, in order, provided no name contains `>`. |
| Errors.IsSeesThroughWrapping | server.go:72-73 | `errors.Is(err, target)` for a sentinel holds iff the innermost error beneath all `er` wrappings is that sentinel. |
| Strings.Split | client.go:18-19 | `strings.Split` gives at least one piece, none containing the separator. The first piece is everything before the first separator. There is exactly one piece iff the separator does not occur. |
| Strings.TrimPrefix | client.go:47 | With the prefix present, trimming removes exactly that prefix; otherwise the string is unchanged. |
| Supervisor.WrapInt64 | server.go:43 | `countDown.Add` results are 64-bit two's complement: congruent to the true sum modulo 2^64, and equal to it when it fits. |
| Supervisor.Start | server.go:30-39 | Both counters start at zero and the invariant holds. The idle timer runs iff the timeout is positive. |
| Supervisor.StepPreservesInv | server.go:40-81 | Every event preserves the invariant. `activeSessions` equals the number of running handlers, and a live session keeps the countdown at zero. A counting timer is below the timeout. Without wrap-around the countdown is a non-negative whole number of seconds below timeout + 1s. |
| Supervisor.Invariants | server.go:40-81 | From start, after any trace: `activeSessions` equals the running handlers and is never negative. `activeSessions > 0` implies the countdown is zero. A running timer keeps the countdown below the timeout, and without wrap-around it stays in [0, timeout + 1s). |
| Supervisor.ShutdownOnlyWhenIdle | server.go:42-47 | The root context is cancelled only by a tick finding zero active sessions and zero running handlers, with the updated countdown at or above the timeout. |
| Supervisor.BusyTickChangesNothing | server.go:42 | A tick while any session is active leaves the whole state, countdown included, unchanged. |
| Supervisor.IdleTickAddsOneSecond | server.go:42-44 | A tick with no active session adds exactly 1e9 ns to the countdown. It cancels iff the new countdown reaches the timeout. |
| Supervisor.FiredStaysFired | server.go:44-47 | After cancelling, the timer has returned: no later event restarts it, and a tick changes nothing. |
| Supervisor.NoTimeoutNoShutdown | server.go:37-53 | With a timeout of zero or less no timer runs, and no trace ever makes the server shut itself down. |
| Supervisor.AcceptResetsCountdown | server.go:80-81 | An accepted session sets the countdown to zero and adds one to `activeSessions` and to the running handlers. Every other field, the timer and timeout included, is unchanged. |
| Supervisor.SessionEndDecrements | server.go:111 | A handler's exit subtracts one from `activeSessions` and from the running handlers. Every other field, countdown, timer, timeout and exit included, is unchanged. |
| Supervisor.AcceptErrorHandling | server.go:70-78 | An accept error that is or wraps `context.Canceled` ends the loop, returning it wrapped under `server`. Any other accept error leaves the whole state unchanged, both counters included, and the loop retries. |
| Supervisor.SessionKeepsServerUp | server.go:40-50 | While fewer handlers exit than sessions were live, the countdown stays zero and the server never shuts itself down, whatever ticks, accepts, accept errors and other sessions' exits occur. |
| Supervisor.Ends | server.go:111 | The count of handler exits in a trace is at most its length, and zero iff no handler exits. |
| Supervisor.CountdownAfterIdleTicks | server.go:41-49 | Before the timeout is reached, k idle ticks add exactly k seconds to the countdown and change nothing else, from any starting countdown, negative ones after a wrap included. |
| Supervisor.ShutdownAfterTimeout | server.go:40-47 | Starting idle with a positive timeout, the server shuts down on tick ceil(timeout / 1s) and not on any earlier tick. |
| Supervisor.CountdownWrapsAboveNoWrap | server.go:43-44 | For every timeout above 9223372036 s, an idle countdown reaches 9223372036 s while the timer still counts. The next idle tick wraps it negative, and the timer keeps counting instead of firing. |
| Client.CleanDomain | client.go:18-19 | The looked-up domain contains no `:` and is a prefix of the given domain. It stops at the first `:` or at the end. |
| Client.CleanDomainIsUnique | client.go:18-19 | Any `:`-free prefix ending at the end or at a `:` is the cleaned domain, so the colon rule alone fixes it. |
| Client.NoRecordsMessage | client.go:27 | The no-records error message ends with the cleaned domain. |
| Client.ResolveTxtRecord | client.go:16-32 | The lookup is made for the cleaned domain. Success happens iff it returned at least one record, and the value is the first record unchanged. A lookup failure is passed on as is. An empty list gives the error naming the domain. |
| Client.DialAddress | client.go:42-57 | An address without `txt://` is used verbatim. With it, the rest of the address is resolved. A resolution error comes back wrapped under a label, and a success is the resolved record. |
| Client.TxtAddressUsesFirstRecord | client.go:45-56 | `txt://` followed by a domain strips exactly that prefix. The lookup uses the domain cut at its first `:`, and the result is the first TXT record. |
| Client.TxtAddressFailure | client.go:50-53 | A failed lookup or an empty record list yields an error and no address. The error is wrapped under the client's label and unwraps to the resolver's error, which for an empty list names the cleaned domain. |

## Left out

- QUIC and TLS: `tlsConfig` (server.go:86-107), `quic.ListenAddr`, `quic.Dial`, `OpenStreamSync` and `AcceptStream`. These are foreign library calls and cryptography.
- Network and OS calls: `net.ResolveTCPAddr`, `ResolveUDPAddr`, `ListenUDP`, `DialTCP` and `LookupTXT`. The TXT lookup appears only as its answer, an input to `Client.ResolveTxtRecord`. Address parse errors are therefore not modelled.
- The session handler's stream-accept loop and `serverStreamHandler`'s backend dial (server.go:109-152). Only a handler's exit, with its deferred decrement, is modelled, as `SessionEnded`. The per-stream goroutines are concurrency around the pump.
- Goroutines and channels. A pump's channel is its `end` field: the one value the pump tries to send, or none while the pump is blocked in a call. Whether that send is ever received, and so whether the channel is closed, is not modelled; see the observation above. The two-pump `select` is a free choice, `FirstToFinish`'s `chooseA`.
- The window between `countDown.Store(0)` and `activeSessions.Add(1)` (server.go:80-81), where a tick could interleave. Accept is one atomic step in this model.
- The window between a tick's `activeSessions.Load()` (server.go:42) and its `countDown.Add` (server.go:43), where a whole accept could interleave. A tick is one atomic step in this model.
- Time. The timer's one-second sleep is the `Tick` event, and the one-second back-off after an accept error is not timed.
- `er`'s `runtime.Caller` file and line, and `logf`. Only the label part of `er` is kept. `errors.Is` on opaque failures compares messages, where Go compares identity.
- `WithCancelFromCtx` (main.go:114-124), the CLI wiring in `application`, and `time.ParseDuration`. The timeout is an `int64` input.
- `activeSessions` is an `int32` in the source. Its wrap-around is not modelled: it would need 2^31 sessions running at once.
- Pump.Pump: the bytes a failing `Write` may already have taken are not tracked. The pump ignores that count, and a short write is folded into `Rejected`. A cancelled context always reports `context.Canceled`, because nothing here sets a deadline.
- Pump.FirstToFinish: says nothing about which pump finishes first in real time. It only says the result is one of the finished pumps' outcomes. A panic is taken to end the process. In Go, the panicking goroutine's deferred `close` (main.go:58) can first let the `select` receive `nil`, so the server may log "Piping finished" (server.go:147-151) or the client return `nil` (client.go:98-101) just before the process dies. That last moment is not modelled.
- Pump.Pump: the panic that `bytes.Reader.WriteTo` raises when a sink's `Write` claims more bytes than it was given is not modelled. Such a reply is folded into `Accepted` or `Rejected`.
- Supervisor.Step: events the source cannot produce in a given state leave the state unchanged. These are a tick with no timer goroutine, an accept after the loop returned, and a handler exit with no handler running.
- Supervisor.ShutdownAfterTimeout: proved only for timeouts up to 9223372036 s, because above that the countdown wraps (see `CountdownWrapsAboveNoWrap`).
- Supervisor.IdleTickAddsOneSecond: proved under the same bound on the timeout, for the same reason.
- Supervisor.ShutdownOnlyWhenIdle: a tick is one atomic step here. In the source, its `activeSessions.Load()` (server.go:42) and `countDown.Add` (server.go:43) are separate atomic operations. An accept's `countDown.Store(0)` and `activeSessions.Add(1)` (server.go:80-81) can run between them. The tick then leaves the countdown at 1s with a session live, and with a timeout of at most 1s it cancels the server under that session.
- Supervisor.StepPreservesInv: a tick is one atomic step here. In the source, a tick whose `Load` (server.go:42) sees no session, followed by a whole accept (server.go:80-81) and then the tick's `Add` (server.go:43), leaves one session live with the countdown at 1s. So "a live session keeps the countdown at zero" does not hold of the source under that interleaving. Once that session ends, the idle shutdown comes one second early.
- Supervisor.Invariants: holds only with a tick as one atomic step. Under the interleaving described for `Supervisor.StepPreservesInv`, the source reaches `activeSessions > 0` with a countdown of 1s.
- Supervisor.SessionKeepsServerUp: a tick is one atomic step here, so the interleaving described for `Supervisor.ShutdownOnlyWhenIdle` is excluded. In the source, a session accepted between a tick's `Load` and `Add` (server.go:42-43) does not keep a server with a timeout of at most 1s up.
- Supervisor.AcceptErrorHandling: the server's context is taken to carry no label from its caller, as when run from `main`, so the returned error is labelled `server`.
