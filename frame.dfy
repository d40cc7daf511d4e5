/// The wire encoding of one Server-Sent-Events frame: processData in eventStream.go.
module Frame {
  import opened Options

  /** The bytes handed to the response writer. Go's []byte conversion copies the bytes of
      the formatted string; here one character stands for one byte of that string. */
  type Bytes = seq<char>

  /** The start of the only line a frame carries: the data field name, a colon and a space. */
  const DataPrefix: string := "data: "

  /** The end of the data line and the blank line that ends the event. */
  const EventEnd: string := "\n\n"

  /** processData: the frame of one payload. The payload is copied verbatim between the
      prefix and the terminator, with no escaping and no splitting. */
  function ProcessData(data: string): (frame: Bytes)
    ensures |frame| == |data| + 8
  {
    DataPrefix + data + EventEnd
  }

  /** The payload a frame carries, or None when the bytes are not a frame. */
  function FramePayload(frame: Bytes): (payload: Option<string>)
    ensures payload.Some? ==> |payload.value| + 8 == |frame|
  {
    if |frame| >= 8 && frame[..6] == DataPrefix && frame[|frame| - 2..] == EventEnd
    then Some(frame[6..|frame| - 2])
    else None
  }

  /** FramePayload inverts ProcessData exactly: the bytes are the frame of a payload if and
      only if reading the frame gives that payload back. */
  lemma FramePayloadInverse(frame: Bytes, payload: string)
    ensures FramePayload(frame) == Some(payload) <==> frame == ProcessData(payload)
  {
  }

  /** Two payloads with the same frame are the same payload. */
  lemma ProcessDataInjective(a: string, b: string)
    requires ProcessData(a) == ProcessData(b)
    ensures a == b
  {
    FramePayloadInverse(ProcessData(a), a);
    FramePayloadInverse(ProcessData(a), b);
  }

  /** The bytes of a run of frames: one frame per payload, in order, nothing between them. */
  function Encoded(payloads: seq<string>): (bytes: Bytes)
  {
    if payloads == [] then [] else ProcessData(payloads[0]) + Encoded(payloads[1..])
  }

  /** Encoding a run of payloads is encoding its parts one after the other. */
  lemma {:induction false} EncodedAppend(ps: seq<string>, qs: seq<string>)
    ensures Encoded(ps + qs) == Encoded(ps) + Encoded(qs)
  {
    if ps == [] {
      assert ps + qs == qs;
    } else {
      assert (ps + qs)[1..] == ps[1..] + qs;
      EncodedAppend(ps[1..], qs);
    }
  }

  /** Every payload costs exactly eight bytes of framing. */
  lemma {:induction false} EncodedLength(payloads: seq<string>)
    ensures |Encoded(payloads)| == PayloadBytes(payloads) + 8 * |payloads|
  {
    if payloads != [] {
      EncodedLength(payloads[1..]);
    }
  }

  /** The number of payload characters in a run of payloads. */
  function PayloadBytes(payloads: seq<string>): nat
  {
    if payloads == [] then 0 else |payloads[0]| + PayloadBytes(payloads[1..])
  }
}
