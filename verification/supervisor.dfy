/**
  The server's session supervisor (server.go:30-83, 109-125) as a state
  machine over a trace of events: the once-a-second tick of the idle timer,
  a session returned by the listener's `Accept`, an error returned by it, and
  the exit of a session handler.

  `active` is the `activeSessions` counter and `countDown` the `countDown`
  counter in nanoseconds. The counter update at accept time (`Store(0)` then
  `Add(1)`) is one atomic step here, and so is a tick (`Load` then `Add`).
  `handlers` counts the session-handler goroutines still running; it is not a
  variable of the server, but it says which events can happen and what
  `active` is meant to count.
 */
module Supervisor {
  import opened Errors
  import Labels

  /** `time.Second` in nanoseconds. */
  const Second: int := 1_000_000_000

  const MinInt64: int := -0x8000_0000_0000_0000
  const MaxInt64: int := 0x7fff_ffff_ffff_ffff
  const TwoTo64: int := 0x1_0000_0000_0000_0000

  type Int64 = x: int | MinInt64 <= x <= MaxInt64

  /** Two's-complement wrap-around of `atomic.Int64.Add`. */
  function WrapInt64(x: int): (r: Int64)
    ensures (x - r) % TwoTo64 == 0
    ensures MinInt64 <= x <= MaxInt64 ==> r == x
  {
    (x - MinInt64) % TwoTo64 + MinInt64
  }

  /** The idle-timer goroutine: never started (timeout not positive), counting,
      or returned after cancelling the server's context. */
  datatype Timer = Disabled | Counting | Fired

  datatype Server = Server(
    timeout: Int64,        // parsed --idletimeout, nanoseconds
    active: int,           // activeSessions
    countDown: Int64,      // countDown, nanoseconds
    handlers: nat,         // session-handler goroutines still running
    timer: Timer,
    exit: Option<Error>)   // the error `server` returned once its accept loop ended

  datatype Event =
    | Tick                    // the idle timer wakes up after its one-second sleep
    | SessionAccepted         // listener.Accept returned a session
    | AcceptFailed(err: Error) // listener.Accept returned an error
    | SessionEnded            // a session handler exits and runs its deferred decrement

  /** The context the accept loop reports errors from. */
  const ServerContext: Labels.Context := Labels.WithLabel(Labels.Background, "server")

  /** The state once the counters exist and the timer goroutine (if any) started. */
  function Start(timeout: Int64): (s: Server)
    ensures Inv(s)
    ensures s.active == 0 && s.countDown == 0 && s.exit.None?
    ensures s.timer == Disabled <==> timeout <= 0
  {
    Server(timeout, 0, 0, 0, if timeout > 0 then Counting else Disabled, None)
  }

  /** The effect of one event. An event the server cannot see in its current
      state (a tick with no timer goroutine, an accept after the loop has ended, a
      handler exit with no handler running) changes nothing. */
  function Step(s: Server, e: Event): Server
  {
    match e
    case Tick =>
      if s.timer != Counting || s.active != 0 then s
      else
        var n := WrapInt64(s.countDown + Second);
        s.(countDown := n, timer := if n >= s.timeout then Fired else Counting)
    case SessionAccepted =>
      if s.exit.Some? then s
      else s.(countDown := 0, active := s.active + 1, handlers := s.handlers + 1)
    case AcceptFailed(err) =>
      if s.exit.Some? then s
      else if Is(err, ContextCanceled) then s.(exit := Some(Labels.Er(ServerContext, err)))
      else s
    case SessionEnded =>
      if s.handlers == 0 then s
      else s.(active := s.active - 1, handlers := s.handlers - 1)
  }

  /** The state after a trace of events, first event first. */
  function Run(s: Server, trace: seq<Event>): Server
    decreases |trace|
  {
    if |trace| == 0 then s else Run(Step(s, trace[0]), trace[1..])
  }

  /** The most whole seconds an `int64` count of nanoseconds can hold. */
  const MaxWholeSeconds: nat := MaxInt64 / Second

  /** Timeouts the countdown reaches without wrapping around: exactly those
      of at most `MaxWholeSeconds` seconds (see `CountdownWrapsAboveNoWrap`). */
  predicate NoWrap(timeout: int)
  {
    timeout <= MaxWholeSeconds * Second
  }

  /** What the supervisor keeps true. */
  ghost predicate Inv(s: Server)
  {
    && s.active == s.handlers
    && (s.active > 0 ==> s.countDown == 0)
    && (s.timer == Disabled <==> s.timeout <= 0)
    && (s.timer == Disabled ==> s.countDown == 0)
    && (s.timer == Counting ==> s.countDown < s.timeout)
    && (0 < s.timeout && NoWrap(s.timeout) ==>
          0 <= s.countDown < s.timeout + Second && s.countDown % Second == 0)
  }

  lemma StepPreservesInv(s: Server, e: Event)
    requires Inv(s)
    ensures Inv(Step(s, e))
  {
    if e.Tick? && s.timer == Counting && s.active == 0 && NoWrap(s.timeout) {
      var q := s.countDown / Second;
      assert s.countDown == q * Second;
      assert q < MaxWholeSeconds by {
        assert q * Second < MaxWholeSeconds * Second;
      }
      assert s.countDown + Second <= MaxWholeSeconds * Second <= MaxInt64;
    }
  }

  lemma {:induction false} RunPreservesInv(s: Server, trace: seq<Event>)
    requires Inv(s)
    ensures Inv(Run(s, trace))
    decreases |trace|
  {
    if |trace| > 0 {
      StepPreservesInv(s, trace[0]);
      RunPreservesInv(Step(s, trace[0]), trace[1..]);
    }
  }

  /** From a fresh start, at every point of any trace: the counter equals the
      number of running session handlers (so it is never negative), a running
      session holds the countdown at zero, and a counting timer is below the
      timeout. */
  lemma Invariants(timeout: Int64, trace: seq<Event>)
    ensures var s := Run(Start(timeout), trace);
            && s.active == s.handlers >= 0
            && (s.active > 0 ==> s.countDown == 0)
            && (s.timer == Counting ==> s.countDown < timeout)
            && (0 < timeout && NoWrap(timeout) ==> 0 <= s.countDown < timeout + Second)
  {
    RunPreservesInv(Start(timeout), trace);
    RunKeepsTimeout(Start(timeout), trace);
  }

  lemma {:induction false} RunKeepsTimeout(s: Server, trace: seq<Event>)
    ensures Run(s, trace).timeout == s.timeout
    decreases |trace|
  {
    if |trace| > 0 {
      RunKeepsTimeout(Step(s, trace[0]), trace[1..]);
    }
  }

  /** The idle shutdown fires only on a tick that finds no session active and
      no session handler running, and only once the countdown has reached the
      timeout. */
  lemma ShutdownOnlyWhenIdle(s: Server, e: Event)
    requires Inv(s)
    requires s.timer != Fired && Step(s, e).timer == Fired
    ensures e == Tick
    ensures s.active == 0 && s.handlers == 0
    ensures Step(s, e).countDown >= s.timeout
  {
  }

  /** A tick while a session is active changes nothing. */
  lemma BusyTickChangesNothing(s: Server)
    requires s.active > 0
    ensures Step(s, Tick) == s
  {
  }

  /** A tick while the timer counts and no session is active adds exactly one
      second to the countdown, and cancels iff the sum reached the timeout. */
  lemma IdleTickAddsOneSecond(s: Server)
    requires Inv(s) && NoWrap(s.timeout)
    requires s.timer == Counting && s.active == 0
    ensures Step(s, Tick).countDown == s.countDown + Second
    ensures Step(s, Tick).timer == Fired <==> s.countDown + Second >= s.timeout
    ensures Step(s, Tick).active == s.active && Step(s, Tick).exit == s.exit
  {
  }

  /** Once the timer has fired it is gone: it stays fired whatever happens. */
  lemma {:induction false} FiredStaysFired(s: Server, trace: seq<Event>)
    requires s.timer == Fired
    ensures Run(s, trace).timer == Fired
    ensures Step(s, Tick) == s
    decreases |trace|
  {
    if |trace| > 0 {
      FiredStaysFired(Step(s, trace[0]), trace[1..]);
    }
  }

  /** With a timeout that is not positive there is no timer goroutine, so the
      server never shuts itself down, whatever happens. */
  lemma NoTimeoutNoShutdown(timeout: Int64, trace: seq<Event>)
    requires timeout <= 0
    ensures Run(Start(timeout), trace).timer == Disabled
  {
    DisabledStaysDisabled(Start(timeout), trace);
  }

  lemma {:induction false} DisabledStaysDisabled(s: Server, trace: seq<Event>)
    requires s.timer == Disabled
    ensures Run(s, trace).timer == Disabled
    decreases |trace|
  {
    if |trace| > 0 {
      DisabledStaysDisabled(Step(s, trace[0]), trace[1..]);
    }
  }

  /** Accepting a session resets the countdown to zero and counts the new
      session, and touches nothing else. */
  lemma AcceptResetsCountdown(s: Server)
    requires s.exit.None?
    ensures Step(s, SessionAccepted) ==
              s.(countDown := 0, active := s.active + 1, handlers := s.handlers + 1)
  {
  }

  /** A session handler's exit takes one off the counter and touches
      nothing else. */
  lemma SessionEndDecrements(s: Server)
    requires s.handlers > 0
    ensures Step(s, SessionEnded) == s.(active := s.active - 1, handlers := s.handlers - 1)
  {
  }

  /** An accept error that is (or wraps) `context.Canceled` ends the accept
      loop with that error wrapped under the `server` label; any other accept
      error is slept off and retried with both counters untouched. */
  lemma AcceptErrorHandling(s: Server, err: Error)
    requires s.exit.None?
    ensures Root(err) == ContextCanceled ==>
              Step(s, AcceptFailed(err)) == s.(exit := Some(Wrapped("server", err)))
    ensures Root(err) != ContextCanceled ==> Step(s, AcceptFailed(err)) == s
  {
    IsSeesThroughWrapping(err, ContextCanceled);
  }

  /** The number of handler exits in a trace. */
  function Ends(trace: seq<Event>): (n: nat)
    ensures n <= |trace|
    ensures n == 0 <==> forall k :: 0 <= k < |trace| ==> trace[k] != SessionEnded
    decreases |trace|
  {
    if |trace| == 0 then 0
    else (if trace[0] == SessionEnded then 1 else 0) + Ends(trace[1..])
  }

  /** While fewer handlers exit than sessions were live, some session is
      still connected, and the server never shuts itself down. */
  lemma {:induction false} SessionKeepsServerUp(s: Server, trace: seq<Event>)
    requires Inv(s) && s.timer != Fired
    requires Ends(trace) < s.active
    ensures Run(s, trace).timer != Fired
    ensures Run(s, trace).countDown == 0
    decreases |trace|
  {
    if |trace| > 0 {
      StepPreservesInv(s, trace[0]);
      SessionKeepsServerUp(Step(s, trace[0]), trace[1..]);
    }
  }

  /** `k` ticks and nothing else. */
  function Ticks(k: nat): (trace: seq<Event>)
    ensures |trace| == k
    ensures forall j :: 0 <= j < k ==> trace[j] == Tick
  {
    if k == 0 then [] else [Tick] + Ticks(k - 1)
  }

  /** The number of whole seconds needed to reach `timeout`, rounded up. */
  function SecondsUntil(timeout: int): (n: nat)
    requires timeout > 0
    ensures (n - 1) * Second < timeout <= n * Second
  {
    (timeout + Second - 1) / Second
  }

  lemma {:induction false} IdleTicksFrom(s: Server, j: nat, k: nat)
    requires Inv(s) && 0 < s.timeout && NoWrap(s.timeout)
    requires s.timer == Counting && s.active == 0 && s.countDown == j * Second
    ensures Run(s, Ticks(k)).timer == Fired <==> j + k >= SecondsUntil(s.timeout)
    decreases k
  {
    var c := SecondsUntil(s.timeout);
    assert j < c by {
      assert j * Second < s.timeout;
    }
    if k > 0 {
      IdleTickAddsOneSecond(s);
      var t := Step(s, Tick);
      assert Ticks(k)[1..] == Ticks(k - 1);
      assert t.countDown == (j + 1) * Second;
      if j + 1 >= c {
        FiredStaysFired(t, Ticks(k - 1));
      } else {
        assert (j + 1) * Second < s.timeout;
        StepPreservesInv(s, Tick);
        IdleTicksFrom(t, j + 1, k - 1);
      }
    }
  }

  /** With a positive timeout and no session ever arriving, the server shuts
      itself down on tick number ceil(timeout / 1s) and not before. */
  lemma ShutdownAfterTimeout(timeout: Int64, k: nat)
    requires 0 < timeout && NoWrap(timeout)
    ensures Run(Start(timeout), Ticks(k)).timer == Fired <==> k >= SecondsUntil(timeout)
  {
    IdleTicksFrom(Start(timeout), 0, k);
  }

  /** Before the timeout is reached, `k` idle ticks leave exactly `k` seconds
      on the countdown and the timer still counting. */
  lemma {:induction false} CountdownAfterIdleTicks(s: Server, k: nat)
    requires s.timer == Counting && s.active == 0
    requires s.countDown + k * Second < s.timeout
    ensures Run(s, Ticks(k)) == s.(countDown := s.countDown + k * Second)
    decreases k
  {
    if k > 0 {
      assert Ticks(k)[1..] == Ticks(k - 1);
      var t := Step(s, Tick);
      assert t == s.(countDown := s.countDown + Second);
      CountdownAfterIdleTicks(t, k - 1);
    }
  }

  /** The countdown is an `int64`: with any timeout above `MaxWholeSeconds`
      seconds, an idle server reaches `MaxWholeSeconds` seconds on the
      countdown while still counting, and the next tick wraps it to a
      negative value instead of shutting down. So `NoWrap` is exactly the
      range where `ShutdownAfterTimeout` can hold. */
  lemma CountdownWrapsAboveNoWrap(timeout: Int64)
    requires !NoWrap(timeout)
    ensures MaxWholeSeconds == 9223372036
    ensures var s := Run(Start(timeout), Ticks(MaxWholeSeconds));
            && s.timer == Counting && s.countDown == MaxWholeSeconds * Second
            && Step(s, Tick).timer == Counting && Step(s, Tick).countDown < 0
  {
    CountdownAfterIdleTicks(Start(timeout), MaxWholeSeconds);
  }
}
