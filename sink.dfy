/// The response writer an EventStream drives (net/http's ResponseWriter, with the optional
/// Flusher and Closer capabilities), reduced to the calls eventStream.go makes on it. The
/// sink records every call in a trace; what it answers is fixed up front by a script.
module Sink {
  import opened Options
  import opened Frame

  /** A Go error value other than nil. */
  datatype Error = Error(reason: string)

  /** The result of a call that returns an error: nil, or a failure carrying the error. */
  datatype Outcome = Nil | Fail(error: Error)

  /** One call made on the response writer. */
  datatype Action =
    | SetHeader(key: string, value: string)  // Header().Set(key, value)
    | WriteStatus(code: int)                  // WriteHeader(code)
    | Write(data: Bytes)                      // Write(data), answered with a nil error
    | FailedWrite(data: Bytes)                // Write(data), answered with an error
    | Flush                                   // Flush(), on a writer that is an http.Flusher
    | CloseSink                               // Close(), on a writer that is an io.Closer

  /** How a sink answers: whether it can flush and close, the first Write call (counted
      from 0 over the sink's life) that fails, if any, the error that Write returns, and
      what Close returns. */
  datatype Script = Script(
    canFlush: bool,
    canClose: bool,
    failAt: Option<nat>,
    writeError: Error,
    closeResult: Outcome)

  /** Write number n fails once the connection has broken, at write number failAt; a
      broken connection stays broken. */
  predicate WriteFails(n: nat, failAt: Option<nat>)
  {
    failAt.Some? && failAt.value <= n
  }

  class ResponseSink {
    /** Every call made on the sink, oldest first. */
    var trace: seq<Action>
    /** The number of Write calls made so far. */
    var writes: nat
    const script: Script

    constructor (script: Script)
      ensures this.script == script
      ensures trace == [] && writes == 0
    {
      this.script := script;
      trace := [];
      writes := 0;
    }

    method SetHeader(key: string, value: string)
      modifies this`trace
      ensures trace == old(trace) + [Action.SetHeader(key, value)]
    {
      trace := trace + [Action.SetHeader(key, value)];
    }

    method WriteHeader(statusCode: int)
      modifies this`trace
      ensures trace == old(trace) + [WriteStatus(statusCode)]
    {
      trace := trace + [WriteStatus(statusCode)];
    }

    method Write(data: Bytes) returns (err: Outcome)
      modifies this`trace, this`writes
      ensures writes == old(writes) + 1
      ensures err == if WriteFails(old(writes), script.failAt) then Fail(script.writeError) else Nil
      ensures trace == old(trace) + [if err.Nil? then Action.Write(data) else FailedWrite(data)]
    {
      if WriteFails(writes, script.failAt) {
        err := Fail(script.writeError);
        trace := trace + [FailedWrite(data)];
      } else {
        err := Nil;
        trace := trace + [Action.Write(data)];
      }
      writes := writes + 1;
    }

    method Flush()
      requires script.canFlush
      modifies this`trace
      ensures trace == old(trace) + [Action.Flush]
    {
      trace := trace + [Action.Flush];
    }

    method Close() returns (err: Outcome)
      requires script.canClose
      modifies this`trace
      ensures err == script.closeResult
      ensures trace == old(trace) + [CloseSink]
    {
      err := script.closeResult;
      trace := trace + [CloseSink];
    }
  }
}
