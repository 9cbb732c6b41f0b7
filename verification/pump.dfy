/**
  The unidirectional copy pump `readAndWrite` (main.go:55-84) and the
  first-to-finish join of two pumps that the stream relay and the client use
  (server.go:141-151, client.go:92-101).

  The pump's environment is scripted: entry `k` of the script is what the pump
  meets on the `k`-th turn of its loop, either a context already done, or the
  reply of one `Read` into the 8 KiB buffer together with the reply the sink
  would give to the `Write` of those bytes. A script that runs out leaves the
  pump blocked in a call, with nothing reported yet.
 */
module Pump {
  import opened Errors
  import Labels

  newtype byte = b: int | 0 <= b < 256

  /** Size of the one buffer every `Read` fills (main.go:60). */
  const BufferSize: nat := 8 * 1024

  /** `nr, err := r.Read(buff)`: `data` is `buff[:nr]` as the reader reports it. */
  datatype ReadReply = ReadReply(data: seq<byte>, err: Option<Error>)

  /** The sink's answer to the one `Write` that `io.Copy` from a `bytes.Reader`
      makes: every byte taken, or an error (a short write counts as one). */
  datatype WriteReply = Accepted | Rejected(err: Error)

  /** What one turn of the loop meets. */
  datatype Turn = CtxDone | Io(read: ReadReply, write: WriteReply)

  /** How a pump ends: the one error the pump tries to send on its channel,
      or a panic from slicing the buffer past its capacity when a reader
      claims more bytes than the buffer holds. */
  datatype Termination = Reported(err: Error) | Panicked

  /** The outcome of running a pump over a script: the chunks the sink
      accepted, in order; how many turns of the script were used; and the
      termination, if the pump got that far. */
  datatype PumpRun = PumpRun(written: seq<seq<byte>>, turns: nat, end: Option<Termination>)

  /** The run of `readAndWrite(ctx, r, w)` against the script. */
  function Pump(ctx: Labels.Context, script: seq<Turn>): (run: PumpRun)
    ensures run.turns <= |script|
    ensures run.end.None? ==> run.turns == |script|
    ensures run.end.Some? ==> 1 <= run.turns
    ensures forall k :: 0 <= k < |run.written| ==> 0 < |run.written[k]| <= BufferSize
    ensures run.end.Some? && run.end.value.Reported? ==>
              run.end.value.err.Wrapped? && run.end.value.err.tag == Labels.Label(ctx)
    decreases |script|
  {
    if |script| == 0 then PumpRun([], 0, None)
    else match script[0]
      case CtxDone =>
        PumpRun([], 1, Some(Reported(Labels.Er(ctx, ContextCanceled))))
      case Io(rd, wr) =>
        if rd.err.Some? then PumpRun([], 1, Some(Reported(Labels.Er(ctx, rd.err.value))))
        else if |rd.data| > BufferSize then PumpRun([], 1, Some(Panicked))
        else if |rd.data| == 0 then Then([], Pump(ctx, script[1..]))
        else if wr.Rejected? then PumpRun([], 1, Some(Reported(Labels.Er(ctx, wr.err))))
        else Then([rd.data], Pump(ctx, script[1..]))
  }

  /** One more turn, which wrote `chunks`, in front of a later run. */
  function Then(chunks: seq<seq<byte>>, later: PumpRun): PumpRun
  {
    PumpRun(chunks + later.written, later.turns + 1, later.end)
  }

  // Reference description of a pump run, independent of the loop.

  /** A turn after which the pump stops. */
  predicate Terminal(t: Turn)
  {
    || t.CtxDone?
    || t.read.err.Some?
    || |t.read.data| > BufferSize
    || (|t.read.data| > 0 && t.write.Rejected?)
  }

  /** Index of the first terminal turn, `|script|` when there is none. */
  function FirstTerminal(script: seq<Turn>): (k: nat)
    ensures k <= |script|
    ensures k < |script| ==> Terminal(script[k])
    ensures forall j :: 0 <= j < k ==> !Terminal(script[j])
    decreases |script|
  {
    if |script| == 0 then 0
    else if Terminal(script[0]) then 0
    else 1 + FirstTerminal(script[1..])
  }

  /** The non-empty chunks read by the `Io` turns of `script`, in order. */
  function NonEmptyReads(script: seq<Turn>): seq<seq<byte>>
    decreases |script|
  {
    if |script| == 0 then []
    else if script[0].Io? && |script[0].read.data| > 0 then [script[0].read.data] + NonEmptyReads(script[1..])
    else NonEmptyReads(script[1..])
  }

  /** All bytes read by the `Io` turns of `script`, in order. */
  function BytesRead(script: seq<Turn>): seq<byte>
    decreases |script|
  {
    if |script| == 0 then []
    else (if script[0].Io? then script[0].read.data else []) + BytesRead(script[1..])
  }

  /** What the sink holds after accepting `chunks`. */
  function Flatten(chunks: seq<seq<byte>>): seq<byte>
    decreases |chunks|
  {
    if |chunks| == 0 then [] else chunks[0] + Flatten(chunks[1..])
  }

  /** The pump stops exactly at the first terminal turn and reads nothing
      after it; before it, every non-empty read reaches the sink as one write,
      in order, and nothing else does. */
  lemma {:induction false} PumpStopsAtFirstTerminal(ctx: Labels.Context, script: seq<Turn>)
    ensures Pump(ctx, script).written == NonEmptyReads(script[..FirstTerminal(script)])
    ensures Pump(ctx, script).end.Some? <==> FirstTerminal(script) < |script|
    ensures Pump(ctx, script).turns ==
              if FirstTerminal(script) < |script| then FirstTerminal(script) + 1 else |script|
    decreases |script|
  {
    if |script| > 0 && !Terminal(script[0]) {
      PumpStopsAtFirstTerminal(ctx, script[1..]);
      var k := FirstTerminal(script[1..]);
      assert script[..k + 1] == [script[0]] + script[1..][..k];
    }
  }

  lemma {:induction false} FlattenNonEmptyReads(script: seq<Turn>)
    ensures Flatten(NonEmptyReads(script)) == BytesRead(script)
    decreases |script|
  {
    if |script| > 0 {
      FlattenNonEmptyReads(script[1..]);
    }
  }

  /** The sink receives exactly the bytes read before the terminal turn,
      concatenated in the order they were read: nothing lost, duplicated or
      reordered, and the bytes that came with a failed read left out. */
  lemma SinkIsBytesReadBeforeStop(ctx: Labels.Context, script: seq<Turn>)
    ensures Flatten(Pump(ctx, script).written) == BytesRead(script[..FirstTerminal(script)])
  {
    PumpStopsAtFirstTerminal(ctx, script);
    FlattenNonEmptyReads(script[..FirstTerminal(script)]);
  }

  /** The one reported outcome is the one the first terminal turn calls for,
      labelled with the pump's context: cancellation seen at the top of the
      loop, a read error, a slice panic on an oversized read, or a write error. */
  lemma {:induction false} PumpOutcome(ctx: Labels.Context, script: seq<Turn>)
    requires FirstTerminal(script) < |script|
    ensures var t := script[FirstTerminal(script)];
            var end := Pump(ctx, script).end;
            && (t.CtxDone? ==> end == Some(Reported(Wrapped(Labels.Label(ctx), ContextCanceled))))
            && (t.Io? && t.read.err.Some? ==> end == Some(Reported(Wrapped(Labels.Label(ctx), t.read.err.value))))
            && (t.Io? && t.read.err.None? && |t.read.data| > BufferSize ==> end == Some(Panicked))
            && (t.Io? && t.read.err.None? && 0 < |t.read.data| <= BufferSize ==>
                  t.write.Rejected? && end == Some(Reported(Wrapped(Labels.Label(ctx), t.write.err))))
    decreases |script|
  {
    if !Terminal(script[0]) {
      PumpOutcome(ctx, script[1..]);
    }
  }

  /** Once the pump has reported, later turns of the environment make no
      difference: no further read and no further write. */
  lemma {:induction false} NothingAfterTermination(ctx: Labels.Context, script: seq<Turn>, more: seq<Turn>)
    requires FirstTerminal(script) < |script|
    ensures Pump(ctx, script + more) == Pump(ctx, script)
    decreases |script|
  {
    assert (script + more)[0] == script[0];
    if !Terminal(script[0]) {
      assert (script + more)[1..] == script[1..] + more;
      NothingAfterTermination(ctx, script[1..], more);
    }
  }

  /** A read of zero bytes without error writes nothing and the loop goes on
      with the next turn, whatever the sink would have answered. */
  lemma EmptyReadContinues(ctx: Labels.Context, w: WriteReply, rest: seq<Turn>)
    ensures var run := Pump(ctx, [Io(ReadReply([], None), w)] + rest);
            var later := Pump(ctx, rest);
            run.written == later.written && run.end == later.end && run.turns == later.turns + 1
  {
    assert ([Io(ReadReply([], None), w)] + rest)[1..] == rest;
  }

  /** `errors.Is(err, io.EOF)` holds of a pump that stopped on end of input,
      so a caller can tell a normal hang-up from a failure. */
  lemma EofIsVisible(ctx: Labels.Context, script: seq<Turn>)
    requires FirstTerminal(script) < |script|
    requires script[FirstTerminal(script)].Io? && script[FirstTerminal(script)].read.err == Some(Eof)
    ensures Pump(ctx, script).end.Some? && Pump(ctx, script).end.value.Reported?
    ensures Is(Pump(ctx, script).end.value.err, Eof)
  {
    PumpOutcome(ctx, script);
  }

  /** The `select` over the two pumps' channels: the relay's single outcome
      is one of the two pumps' outcomes, present as soon as either pump has
      finished; when both have, the scheduler's choice decides. A panic in
      either pump ends the whole process, so it outranks any reported error. */
  function FirstToFinish(a: Option<Termination>, b: Option<Termination>, chooseA: bool): (r: Option<Termination>)
    ensures r.Some? <==> a.Some? || b.Some?
    ensures r == a || r == b
    ensures r == Some(Panicked) <==> a == Some(Panicked) || b == Some(Panicked)
    ensures a.None? ==> r == b
    ensures b.None? ==> r == a
  {
    if b == Some(Panicked) then b
    else if a.Some? && (chooseA || b.None? || a == Some(Panicked)) then a
    else b
  }

  /** A relay of two pumps, each under its own direction's context, finishes
      as soon as either direction reaches a terminal turn, with the outcome
      of a direction that stopped; when both have, the scheduler picks. When
      the two directions carry different labels, a reported error carries
      the first direction's label iff the relay took its outcome. */
  lemma RelayEndsWithEitherDirection(ctxUp: Labels.Context, up: seq<Turn>,
                                     ctxDown: Labels.Context, down: seq<Turn>, chooseUp: bool)
    ensures var r := FirstToFinish(Pump(ctxUp, up).end, Pump(ctxDown, down).end, chooseUp);
            && (r.Some? <==> FirstTerminal(up) < |up| || FirstTerminal(down) < |down|)
            && (r == Pump(ctxUp, up).end || r == Pump(ctxDown, down).end)
            && (r.Some? && r.value.Reported? && Labels.Label(ctxUp) != Labels.Label(ctxDown) ==>
                  (r.value.err.tag == Labels.Label(ctxUp) <==> r == Pump(ctxUp, up).end))
  {
    PumpStopsAtFirstTerminal(ctxUp, up);
    PumpStopsAtFirstTerminal(ctxDown, down);
    var ea, eb := Pump(ctxUp, up).end, Pump(ctxDown, down).end;
    var r := FirstToFinish(ea, eb, chooseUp);
    assert r == ea || r == eb;
    assert ea.Some? && ea.value.Reported? ==> ea.value.err.tag == Labels.Label(ctxUp);
    assert eb.Some? && eb.value.Reported? ==> eb.value.err.tag == Labels.Label(ctxDown);
  }

  /** Both relays give their two pumps sibling labels under one context,
      `stdout` and `stdin` in the client (client.go:92-93), `toSSHD` and
      `fromSSHD` in the server (server.go:141-142): a reported error then
      carries the first name's label iff the relay took the first
      direction's outcome. */
  lemma RelayNamesStoppedDirection(ctx: Labels.Context, a: string, b: string,
                                   up: seq<Turn>, down: seq<Turn>, chooseUp: bool)
    requires a != b && a != "" && b != ""
    ensures var r := FirstToFinish(Pump(Labels.WithLabel(ctx, a), up).end,
                                   Pump(Labels.WithLabel(ctx, b), down).end, chooseUp);
            r.Some? && r.value.Reported? ==>
              (r.value.err.tag == Labels.Label(Labels.WithLabel(ctx, a)) <==>
                 r == Pump(Labels.WithLabel(ctx, a), up).end)
  {
    Labels.SiblingLabelsDiffer(ctx, a, b);
    RelayEndsWithEitherDirection(Labels.WithLabel(ctx, a), up, Labels.WithLabel(ctx, b), down, chooseUp);
  }
}
