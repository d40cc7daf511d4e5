/// What a client of the response writer observes of Begin: the order of the calls, the
/// bytes accepted by successful Write calls, and how the run ends.
module GooseProperties {
  import opened Options
  import opened Frame
  import opened Sink
  import opened Goose

  /** The bytes a trace's successful Write calls accepted, in order. A failed Write counts
      as accepting none of its bytes. */
  function Body(trace: seq<Action>): Bytes
  {
    if trace == [] then []
    else (if trace[0].Write? then trace[0].data else []) + Body(trace[1..])
  }

  /** The data of every Write call in a trace, successful or not, in order. */
  function Attempts(trace: seq<Action>): seq<Bytes>
  {
    if trace == [] then []
    else (if trace[0].Write? || trace[0].FailedWrite? then [trace[0].data] else []) + Attempts(trace[1..])
  }

  /** The frame of each payload, in order. */
  function FrameList(payloads: seq<string>): seq<Bytes>
  {
    seq(|payloads|, i requires 0 <= i < |payloads| => ProcessData(payloads[i]))
  }

  lemma {:induction false} BodyAppend(a: seq<Action>, b: seq<Action>)
    ensures Body(a + b) == Body(a) + Body(b)
  {
    if a == [] {
      assert a + b == b;
    } else {
      assert (a + b)[1..] == a[1..] + b;
      BodyAppend(a[1..], b);
    }
  }

  lemma {:induction false} AttemptsAppend(a: seq<Action>, b: seq<Action>)
    ensures Attempts(a + b) == Attempts(a) + Attempts(b)
  {
    if a == [] {
      assert a + b == b;
    } else {
      assert (a + b)[1..] == a[1..] + b;
      AttemptsAppend(a[1..], b);
    }
  }

  /** A trace without Write calls accepts no bytes and attempts nothing. */
  lemma {:induction false} NoWrites(trace: seq<Action>)
    requires forall i :: 0 <= i < |trace| ==> !trace[i].Write? && !trace[i].FailedWrite?
    ensures Body(trace) == [] && Attempts(trace) == []
  {
    if trace != [] {
      NoWrites(trace[1..]);
    }
  }

  /** Header negotiation writes no body bytes. */
  lemma HeadersWriteNothing()
    ensures Body(HeaderActions()) == [] && Attempts(HeaderActions()) == []
  {
  }

  /** Successful writes of the frames of the payloads accept exactly the encoded payloads. */
  lemma {:induction false} BodyOfFrames(payloads: seq<string>)
    ensures Body(Frames(payloads)) == Encoded(payloads)
  {
    if payloads != [] {
      assert Frames(payloads)[1..] == Frames(payloads[1..]);
      BodyOfFrames(payloads[1..]);
    }
  }

  /** The frames of the payloads are one Write call per payload, in order. */
  lemma {:induction false} AttemptsOfFrames(payloads: seq<string>)
    ensures Attempts(Frames(payloads)) == FrameList(payloads)
  {
    if payloads != [] {
      assert Frames(payloads)[1..] == Frames(payloads[1..]);
      AttemptsOfFrames(payloads[1..]);
      assert FrameList(payloads) == [ProcessData(payloads[0])] + FrameList(payloads[1..]);
    }
  }

  /** Frames between calls that write nothing accept the encoded payloads and nothing else. */
  lemma FramesBetween(head: seq<Action>, payloads: seq<string>, tail: seq<Action>)
    requires Body(head) == [] && Attempts(head) == []
    requires Body(tail) == [] && Attempts(tail) == []
    ensures Body(head + Frames(payloads) + tail) == Encoded(payloads)
    ensures Attempts(head + Frames(payloads) + tail) == FrameList(payloads)
  {
    var frames := Frames(payloads);
    BodyAppend(head + frames, tail);
    BodyAppend(head, frames);
    BodyOfFrames(payloads);
    AttemptsAppend(head + frames, tail);
    AttemptsAppend(head, frames);
    AttemptsOfFrames(payloads);
  }

  /** Header negotiation happens once, first: the trace opens with the three headers and the
      status, and no header or status call comes after them. */
  lemma HeadersFirstAndOnce(payloads: seq<string>, issued: nat, script: Script)
    ensures var trace := BeginTrace(payloads, issued, script);
      |trace| >= 4 && trace[..4] == HeaderActions() &&
      forall i :: 4 <= i < |trace| ==> !trace[i].SetHeader? && !trace[i].WriteStatus?
  {
  }

  /** When no write fails, the writer accepts the frames of all payloads, one Write per
      payload in order, then Close runs as the last calls and Begin returns its result. With
      no payloads at all the trace is the headers, the status and the Close calls. */
  lemma AcceptsAllWhenNoWriteFails(payloads: seq<string>, issued: nat, script: Script)
    requires FailIndex(|payloads|, issued, script.failAt) == |payloads|
    ensures var trace := BeginTrace(payloads, issued, script);
      && Body(trace) == Encoded(payloads)
      && Attempts(trace) == FrameList(payloads)
      && trace == HeaderActions() + Frames(payloads) + CloseActions(script)
      && BeginResult(payloads, issued, script) == CloseOutcome(script)
  {
    assert payloads[..|payloads|] == payloads;
    HeadersWriteNothing();
    CloseOrder(script);
    FramesBetween(HeaderActions(), payloads, CloseActions(script));
  }

  /** When the write of payload k fails: Begin returns that write error, successful writes
      have accepted the frames of payloads 0..k-1 only, payload k's Write is the last call, no
      later payload is attempted, and neither Flush nor Close is called. */
  lemma AbortsOnWriteFailure(payloads: seq<string>, issued: nat, script: Script)
    requires FailIndex(|payloads|, issued, script.failAt) < |payloads|
    ensures var k := FailIndex(|payloads|, issued, script.failAt);
      var trace := BeginTrace(payloads, issued, script);
      && BeginResult(payloads, issued, script) == Fail(script.writeError)
      && Body(trace) == Encoded(payloads[..k])
      && Attempts(trace) == FrameList(payloads[..k + 1])
      && trace[|trace| - 1] == FailedWrite(ProcessData(payloads[k]))
      && Flush !in trace && CloseSink !in trace
  {
    var k := FailIndex(|payloads|, issued, script.failAt);
    var head, frames := HeaderActions(), Frames(payloads[..k]);
    var last := [FailedWrite(ProcessData(payloads[k]))];
    var trace := BeginTrace(payloads, issued, script);
    assert trace == head + frames + last;
    HeadersWriteNothing();
    assert last[1..] == [];
    assert Body(last) == [] && Attempts(last) == [ProcessData(payloads[k])];
    BodyAppend(head + frames, last);
    BodyAppend(head, frames);
    BodyOfFrames(payloads[..k]);
    AttemptsAppend(head + frames, last);
    AttemptsAppend(head, frames);
    AttemptsOfFrames(payloads[..k]);
    assert payloads[..k + 1][..k] == payloads[..k];
    assert FrameList(payloads[..k + 1]) == FrameList(payloads[..k]) + [ProcessData(payloads[k])];
    assert forall i :: 0 <= i < |frames| ==> frames[i].Write?;
  }

  /** Close flushes only if the writer can flush and closes only if it can close, flushing
      first; it makes no Write, header or status call. */
  lemma CloseOrder(script: Script)
    ensures var trace := CloseActions(script);
      && (Flush in trace <==> script.canFlush)
      && (CloseSink in trace <==> script.canClose)
      && (script.canClose ==> trace[|trace| - 1] == CloseSink)
      && |trace| <= 2
      && Body(trace) == [] && Attempts(trace) == []
      && forall a :: a in trace ==> a == Flush || a == CloseSink
  {
    NoWrites(CloseActions(script));
  }

  /** Scenario: payloads "hello" and "world" on a writer that neither fails nor has the
      optional capabilities. */
  method HelloWorld() returns (body: Bytes, err: Outcome)
    ensures body == "data: hello\n\ndata: world\n\n"
    ensures err == Nil
  {
    var sink := new ResponseSink(Script(false, false, None, Error("broken pipe"), Nil));
    var stream := new EventStream(sink);
    err := stream.Begin(["hello", "world"]);
    assert sink.trace == BeginTrace(["hello", "world"], 0, sink.script);
    AcceptsAllWhenNoWriteFails(["hello", "world"], 0, sink.script);
    body := Body(sink.trace);
    assert body == Encoded(["hello", "world"]);
    assert ["hello", "world"][1..] == ["world"];
    assert ["world"][1..] == [];
    assert Encoded(["world"]) == ProcessData("world");
    assert Encoded(["hello", "world"]) == ProcessData("hello") + ProcessData("world");
  }

  /** Scenario: payload "a" on a writer whose first write fails: Begin returns the write
      error and no Write call succeeded. */
  method FirstWriteFails() returns (body: Bytes, err: Outcome, trace: seq<Action>)
    ensures err == Fail(Error("broken pipe"))
    ensures body == []
    ensures trace == HeaderActions() + [FailedWrite("data: a\n\n")]
  {
    var sink := new ResponseSink(Script(true, true, Some(0), Error("broken pipe"), Nil));
    var stream := new EventStream(sink);
    err := stream.Begin(["a"]);
    assert sink.trace == BeginTrace(["a"], 0, sink.script);
    AbortsOnWriteFailure(["a"], 0, sink.script);
    assert FailIndex(1, 0, Some(0)) == 0;
    assert ["a"][..0] == [] && Frames([]) == [];
    assert ProcessData("a") == "data: a\n\n";
    body := Body(sink.trace);
    trace := sink.trace;
  }
}
