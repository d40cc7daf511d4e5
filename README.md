# goose EventStream, modelled in Dafny

`EventStream` (eventStream.go) writes a Server-Sent-Events stream to one HTTP response
writer. `NewEventStream` binds the writer. `Begin` sets three headers, writes status 200 and
then drains a channel of payload strings, writing one frame `data: <payload>\n\n` per
payload. The first failed write ends `Begin` with that error. A drained channel ends with
`Close`, which flushes the writer if it is an `http.Flusher` and closes it if it is an
`io.Closer`, returning the close error.

The model:

- `frame.dfy` (module `Frame`): `ProcessData`, the frame of one payload; `FramePayload`, its
  inverse; `Encoded`, the bytes of a run of frames.
- `sse_parsing.dfy` (module `EventStreamParsing`): a reader of the `text/event-stream`
  format after sections 9.2.5 (lines) and 9.2.6 (fields, the data buffer and dispatch) of
  the WHATWG HTML Living Standard, kept to the data field. It is the independent partner of
  the encoder. A client reads back a payload as written if and only if it holds no line
  break. For a payload that holds a line feed, what arrives depends on the text after the
  line feed:
  - text that does not read as a data field is dropped from the data, so the payload is cut
    short (an `event:`, `id:` or `retry:` line is also acted on by a real client);
  - a line that reads as a data field is merged into the event without its field name;
  - a blank line ends the event there and starts a new one.
- `sink.dfy` (module `Sink`): the response writer as a class `ResponseSink` that records
  every call in a trace (`SetHeader`, `WriteStatus`, `Write`, `FailedWrite`, `Flush`,
  `CloseSink`). A `Script` fixes what it answers: whether it can flush and close, the first
  write that fails, the write error, and the close result.
- `event_stream.dfy` (module `Goose`): the class `EventStream` with its constructor,
  `Begin`, `WriteHeaders` and `Close`. Each method is proved against a specification
  function of the trace it appends and the value it returns (`BeginTrace`, `BeginResult`,
  `HeaderActions`, `CloseActions`, `CloseOutcome`).
- `event_stream_properties.dfy` (module `GooseProperties`): what a client observes of a
  run: the order of the calls, the bytes accepted by successful `Write` calls (`Body`), the write attempts
  (`Attempts`), and how the run ends. It also holds two concrete runs.

The model follows the code as written:

- `Begin` does not flush after each write. The only flush is inside `Close`.
- On a write error, `Begin` returns at once and does not call `Close`.
- `writeHeaders` cannot fail, so the early return at eventStream.go:16-18 is never taken.

## Model

| member | source | states |
|---|---|---|
| `Frame.ProcessData` | eventStream.go:51-54 | the frame is eight bytes longer than the payload |
| `Frame.FramePayloadInverse` | eventStream.go:51-54 | bytes are the frame of a payload if and only if reading the frame gives that payload back: the payload is copied between `data: ` and `\n\n` verbatim |
| `Frame.ProcessDataInjective` | eventStream.go:51-54 | two different payloads never share a frame |
| `Frame.EncodedAppend` | eventStream.go:20-25 | the bytes of consecutive frames are the frames one after the other, with nothing between them |
| `Frame.EncodedLength` | eventStream.go:20-25 | each payload adds exactly eight bytes of framing to the stream |
| `EventStreamParsing.ParseEncoded` | eventStream.go:51-53 | when no payload holds CR or LF, a client reading the stream per sections 9.2.5 and 9.2.6 of the WHATWG HTML Living Standard gets exactly the payloads back, one event each, in order |
| `EventStreamParsing.LineBreakCutsPayload` | eventStream.go:51-53 | no escaping: a payload `a\nb` whose second line is not a data field reaches the client with data `a` alone; when that line is an `event:` or `id:` field it also retypes the event or changes the last event id, which the reader does not track |
| `EventStreamParsing.BlankLineSplitsPayload` | eventStream.go:51-53 | no escaping: a payload `a\n\ndata: b` reaches the client as two events, `a` and then `b` |
| `EventStreamParsing.DataLineMergesIntoPayload` | eventStream.go:51-53 | no escaping: a payload `a\ndata: b` reaches the client as `a\nb`, which differs from the payload |
| `EventStreamParsing.BrokenPayloadNeverRoundTrips` | eventStream.go:51-53 | no escaping: a payload that holds CR or LF never reaches the client as the single event it was |
| `EventStreamParsing.FrameRoundTripsIffSingleLine` | eventStream.go:51-53 | a single frame reads back as exactly its payload if and only if the payload holds no CR and no LF |
| `EventStreamParsing.EventCharsBound` | eventStream.go:51-53 | the counting step behind `BrokenPayloadNeverRoundTrips`, about the reader alone: a reader takes out of any stream no more characters than it holds, less one per line feed |
| `EventStreamParsing.DispatchFrame` | eventStream.go:51-53 | one frame of a single-line payload dispatches exactly one event carrying that payload |
| `Sink.ResponseSink.SetHeader` | eventStream.go:32-34 | `Header().Set` is recorded as one header call |
| `Sink.ResponseSink.WriteHeader` | eventStream.go:35 | `WriteHeader` is recorded as one status call |
| `Sink.ResponseSink.Write` | eventStream.go:22 | a write succeeds until the scripted write number and fails from then on with the scripted error; it is recorded either way |
| `Sink.ResponseSink.Flush` | eventStream.go:41-43 | flush is only callable on a writer that can flush, and is recorded |
| `Sink.ResponseSink.Close` | eventStream.go:45-46 | close is only callable on a writer that can close; it returns the scripted close result |
| `Goose.FailIndex` | eventStream.go:20-24 | the index of the first payload whose write fails: every earlier write succeeds and this one fails, or no write fails |
| `Goose.BeginWrites` | eventStream.go:20-24 | `Begin` makes one write per payload up to and including the first that fails, and the last of them failed if it stopped early |
| `Goose.EventStream.constructor` | eventStream.go:56-59 | binds the writer and makes no call on it |
| `Goose.EventStream.WriteHeaders` | eventStream.go:30-37 | appends the three stream headers then status 200, writes no bytes, and returns nil |
| `Goose.EventStream.Close` | eventStream.go:39-49 | appends a flush if the writer can flush, then a close if it can close; returns the close error, or nil if the writer cannot close |
| `Goose.EventStream.Begin` | eventStream.go:14-28 | appends the headers, one successful write per payload up to the first failed write, then either that failed write or the close calls; returns the write error or the close result; advances the sink's write count by the number of writes made |
| `GooseProperties.BodyOfFrames` | eventStream.go:20-25 | the successful writes of a run accept exactly the concatenated frames of its payloads |
| `GooseProperties.AttemptsOfFrames` | eventStream.go:20-25 | a run makes one write per payload, in payload order |
| `GooseProperties.HeadersFirstAndOnce` | eventStream.go:30-36 | every run opens with the three headers and the status, and no header or status call follows them |
| `GooseProperties.AcceptsAllWhenNoWriteFails` | eventStream.go:20-27 | with no failed write, successful `Write` calls accept the frames of all payloads in order, `Close` runs as the last calls, and `Begin` returns its result; with no payloads the trace is the headers, the status and the close calls |
| `GooseProperties.AbortsOnWriteFailure` | eventStream.go:20-24 | if the write of payload k fails, `Begin` returns that error, successful `Write` calls accepted only the frames of payloads before k, payload k's write is the last call, no later payload is attempted, and neither flush nor close is called |
| `GooseProperties.CloseOrder` | eventStream.go:39-49 | `Close` flushes if and only if the writer can flush, closes if and only if it can close, closes last, and writes nothing |
| `GooseProperties.HelloWorld` | eventStream.go:14-28 | payloads `hello` and `world` on a writer that never fails are accepted as `data: hello\n\ndata: world\n\n`, and `Begin` returns nil |
| `GooseProperties.FirstWriteFails` | eventStream.go:14-24 | payload `a` on a writer whose first write fails: `Begin` returns that error, no `Write` call succeeds, so no bytes are accepted, and no flush or close follows |

## Left out

- The `net/http` response writer itself. It is replaced by the trace-recording `ResponseSink`. Header-map semantics (`Set` replacing an earlier value, canonical keys) and the transport are not modelled.
- The runtime type assertions to `http.Flusher` and `io.Closer`. They are the two flags `canFlush` and `canClose` of the sink's script.
- `Sink.ResponseSink.Write`: the byte count that Go's `Write` returns is not modelled, because `Begin` discards it.
- `Sink.ResponseSink.Write`: a failed write is modelled as accepting none of its bytes, though Go's `Write` may write part of the frame before it fails. So `Body` is a lower bound on what the writer accepted.
- An accepted write is not a guarantee of transmission. `Begin` does not flush after each write, and the transport's buffering is not modelled.
- The channel's concurrency: the producer goroutine, blocking and an unbounded lifetime. The channel is a finite sequence drained in order, and closing it is reaching its end.
- `fmt.Sprintf` and the conversion to `[]byte`, which copies the bytes of the Go string. A frame is string concatenation, and one character stands for one byte of the Go string: a Dafny `char` is a Unicode scalar value, while a Go string is a sequence of bytes.
- The reader in `sse_parsing.dfy` keeps only the data buffer. It drops `event:`, `id:` and `retry:` field lines, and it leaves out the byte-order mark and stream decoding. The emitter writes such field lines only when a payload holds a line break (CR or LF), so the reader is exact for single-line payloads. For other payloads a real client may also retype the event, change the last event id or change the retry time, and the model does not show that.
- Reconnection and the `id:`, `event:` and `retry:` fields. The code does not implement them.
