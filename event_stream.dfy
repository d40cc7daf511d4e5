/// EventStream (eventStream.go): writes a Server-Sent-Events stream to one response writer.
/// Begin sends the headers and the status, writes one frame per payload of the channel, in
/// order, stops at the first failed write, and closes the stream once the channel is drained.
module Goose {
  import opened Options
  import opened Frame
  import opened Sink

  const StatusOK: int := 200

  /** The calls writeHeaders makes: three headers, then the status. */
  function HeaderActions(): seq<Action>
  {
    [ SetHeader("Content-Type", "text/event-stream"),
      SetHeader("Cache-Control", "no-cache"),
      SetHeader("Connection", "keep-alive"),
      WriteStatus(StatusOK) ]
  }

  /** The calls Close makes: a flush if the writer can flush, then a close if it can close. */
  function CloseActions(script: Script): seq<Action>
  {
    (if script.canFlush then [Flush] else []) + (if script.canClose then [CloseSink] else [])
  }

  /** What Close returns: the writer's close error if it can close, nil otherwise. */
  function CloseOutcome(script: Script): Outcome
  {
    if script.canClose then script.closeResult else Nil
  }

  /** One successful Write per payload, in order. */
  function Frames(payloads: seq<string>): seq<Action>
  {
    seq(|payloads|, i requires 0 <= i < |payloads| => Action.Write(ProcessData(payloads[i])))
  }

  /** The position of the first of `count` payloads whose Write fails, on a sink that has
      taken `issued` writes already, or `count` when every one of them succeeds. */
  function FailIndex(count: nat, issued: nat, failAt: Option<nat>): (k: nat)
    ensures k <= count
    ensures forall n :: issued <= n < issued + k ==> !WriteFails(n, failAt)
    ensures k < count ==> WriteFails(issued + k, failAt)
  {
    if failAt.None? || failAt.value >= issued + count then count
    else if failAt.value <= issued then 0
    else failAt.value - issued
  }

  /** The calls Begin makes on a sink that has taken `issued` writes already: the headers,
      the frames that were accepted, then either the one failed write or the close. */
  function BeginTrace(payloads: seq<string>, issued: nat, script: Script): seq<Action>
  {
    var k := FailIndex(|payloads|, issued, script.failAt);
    HeaderActions() + Frames(payloads[..k]) +
      if k < |payloads| then [FailedWrite(ProcessData(payloads[k]))] else CloseActions(script)
  }

  /** What Begin returns: the write error if a write failed, else what Close returns. */
  function BeginResult(payloads: seq<string>, issued: nat, script: Script): Outcome
  {
    if FailIndex(|payloads|, issued, script.failAt) < |payloads| then Fail(script.writeError)
    else CloseOutcome(script)
  }

  /** The number of Write calls Begin makes: one per payload up to and including the first
      that fails. */
  function BeginWrites(payloads: seq<string>, issued: nat, script: Script): (n: nat)
    ensures n <= |payloads|
    ensures n < |payloads| ==> n > 0 && WriteFails(issued + n - 1, script.failAt)
  {
    var k := FailIndex(|payloads|, issued, script.failAt);
    if k < |payloads| then k + 1 else k
  }

  class EventStream {
    const writer: ResponseSink

    /** NewEventStream: binds the writer and makes no call on it. */
    constructor (w: ResponseSink)
      ensures writer == w
      ensures unchanged(w)
    {
      writer := w;
    }

    /** Begin: the headers, then one Write per payload of the stream; the first failed
        Write ends it with that error and without Close; a drained stream ends with Close. */
    method Begin(stream: seq<string>) returns (err: Outcome)
      modifies writer
      ensures writer.trace == old(writer.trace) + BeginTrace(stream, old(writer.writes), writer.script)
      ensures err == BeginResult(stream, old(writer.writes), writer.script)
      ensures writer.writes == old(writer.writes) + BeginWrites(stream, old(writer.writes), writer.script)
    {
      ghost var issued := writer.writes;
      ghost var k := FailIndex(|stream|, issued, writer.script.failAt);
      err := WriteHeaders();
      if err.Fail? {
        return;
      }
      var i := 0;
      while i < |stream|
        invariant i <= k
        invariant writer.writes == issued + i
        invariant writer.trace == old(writer.trace) + HeaderActions() + Frames(stream[..i])
      {
        err := writer.Write(ProcessData(stream[i]));
        if err.Fail? {
          assert stream[..k] == stream[..i];
          return;
        }
        assert Frames(stream[..i + 1]) == Frames(stream[..i]) + [Action.Write(ProcessData(stream[i]))];
        i := i + 1;
      }
      assert stream[..k] == stream;
      err := Close();
    }

    /** writeHeaders: sets the three stream headers, writes status 200, and never fails. */
    method WriteHeaders() returns (err: Outcome)
      modifies writer
      ensures err == Nil
      ensures writer.trace == old(writer.trace) + HeaderActions()
      ensures writer.writes == old(writer.writes)
    {
      writer.SetHeader("Content-Type", "text/event-stream");
      writer.SetHeader("Cache-Control", "no-cache");
      writer.SetHeader("Connection", "keep-alive");
      writer.WriteHeader(StatusOK);
      err := Nil;
    }

    /** Close: flushes if the writer can flush; closes if it can close and returns the close
        error; returns nil otherwise. */
    method Close() returns (err: Outcome)
      modifies writer
      ensures err == CloseOutcome(writer.script)
      ensures writer.trace == old(writer.trace) + CloseActions(writer.script)
      ensures writer.writes == old(writer.writes)
    {
      if writer.script.canFlush {
        writer.Flush();
      }
      if writer.script.canClose {
        err := writer.Close();
        return;
      }
      err := Nil;
    }
  }
}
