/// A reader for the text/event-stream format of the WHATWG HTML Living Standard, after
/// section 9.2.5 ("Parsing an event stream": lines and their terminators) and section 9.2.6
/// ("Interpreting an event stream": fields, the data buffer and dispatch), reduced to what
/// a client sees of the frames this emitter writes: the data of each dispatched event.
module EventStreamParsing {
  import opened Options
  import opened Frame

  predicate IsLineBreak(c: char)
  {
    c == '\n' || c == '\r'
  }

  /** A string with no CR and no LF in it. */
  predicate SingleLine(s: string)
  {
    forall i :: 0 <= i < |s| ==> !IsLineBreak(s[i])
  }

  /** The first line of s and what follows its end-of-line (CRLF, LF or CR), or None when
      s holds no complete line. */
  function NextLine(s: string): (r: Option<(string, string)>)
    ensures r.None? <==> SingleLine(s)
    ensures r.Some? ==> SingleLine(r.value.0)
    ensures r.Some? ==> |r.value.0| < |s| && s[..|r.value.0|] == r.value.0
    ensures r.Some? ==> |r.value.1| < |s| - |r.value.0|
    ensures r.Some? ==> IsLineBreak(s[|r.value.0|]) && s[|s| - |r.value.1|..] == r.value.1
  {
    if s == [] then None
    else if s[0] == '\n' then Some(([], s[1..]))
    else if s[0] == '\r' then Some(([], if |s| > 1 && s[1] == '\n' then s[2..] else s[1..]))
    else
      match NextLine(s[1..])
      case None => None
      case Some((line, rest)) => Some(([s[0]] + line, rest))
  }

  /** The position of the first colon in a line, or its length when it has none. */
  function ColonIndex(line: string): (k: nat)
    ensures k <= |line|
    ensures forall i :: 0 <= i < k ==> line[i] != ':'
    ensures k < |line| ==> line[k] == ':'
  {
    if line == [] || line[0] == ':' then 0 else 1 + ColonIndex(line[1..])
  }

  /** A field line as name and value: the name runs up to the first colon and the value
      follows it, less one leading space; a line with no colon is a name with an empty value. */
  function Field(line: string): (string, string)
  {
    var k := ColonIndex(line);
    if k == |line| then (line, [])
    else
      var value := line[k + 1..];
      (line[..k], if value != [] && value[0] == ' ' then value[1..] else value)
  }

  /** The data buffer after one non-blank line: a comment (leading colon) or a field other
      than data leaves it alone; a data field appends its value and a line feed. */
  function ProcessLine(line: string, data: string): string
  {
    if line != [] && line[0] == ':' then data
    else
      var (name, value) := Field(line);
      if name == "data" then data + value + "\n" else data
  }

  /** The data of every event dispatched while reading s, given the data buffer so far.
      A blank line dispatches the buffer, less its last line feed, unless it is empty;
      whatever is pending when the stream ends is discarded. */
  function Dispatch(s: string, data: string): seq<string>
    decreases |s|
  {
    match NextLine(s)
    case None => []
    case Some((line, rest)) =>
      if line != [] then Dispatch(rest, ProcessLine(line, data))
      else if data == [] then Dispatch(rest, [])
      else [if data[|data| - 1] == '\n' then data[..|data| - 1] else data] + Dispatch(rest, [])
  }

  /** The data of the events a client reads from a whole stream. */
  function Parse(stream: string): seq<string>
  {
    Dispatch(stream, [])
  }

  /** A line followed by LF is read as that line, leaving what follows. */
  lemma {:induction false} NextLineOf(line: string, rest: string)
    requires SingleLine(line)
    ensures NextLine(line + "\n" + rest) == Some((line, rest))
  {
    if line == [] {
      assert line + "\n" + rest == "\n" + rest;
    } else {
      assert (line + "\n" + rest)[1..] == line[1..] + "\n" + rest;
      NextLineOf(line[1..], rest);
      assert [line[0]] + line[1..] == line;
    }
  }

  /** Reading one LF-terminated line: a non-blank line updates the data buffer, a blank one
      dispatches it. */
  lemma DispatchLine(line: string, rest: string, data: string)
    requires SingleLine(line)
    ensures Dispatch(line + "\n" + rest, data) ==
      if line != [] then Dispatch(rest, ProcessLine(line, data))
      else if data == [] then Dispatch(rest, [])
      else [if data[|data| - 1] == '\n' then data[..|data| - 1] else data] + Dispatch(rest, [])
  {
    NextLineOf(line, rest);
  }

  /** The line of a frame appends its payload and a line feed to the data buffer. */
  lemma DataLine(payload: string, data: string)
    ensures ProcessLine(DataPrefix + payload, data) == data + payload + "\n"
  {
    var line := DataPrefix + payload;
    assert line[4] == ':';
    assert line[0] != ':' && line[1] != ':' && line[2] != ':' && line[3] != ':';
    assert ColonIndex(line) == 4;
    assert line[..4] == "data";
    assert line[5..] == " " + payload;
  }

  /** The line of a frame sets an empty data buffer to its payload and a line feed. */
  lemma FirstDataLine(payload: string)
    ensures ProcessLine(DataPrefix + payload, []) == payload + "\n"
  {
    DataLine(payload, []);
    assert [] + payload + "\n" == payload + "\n";
  }

  /** The line of a frame holds no line break when its payload holds none. */
  lemma DataLineSingle(payload: string)
    requires SingleLine(payload)
    ensures SingleLine(DataPrefix + payload)
  {
    var line := DataPrefix + payload;
    forall i | 0 <= i < |line| ensures !IsLineBreak(line[i]) {
      if i >= 6 { assert line[i] == payload[i - 6]; }
    }
  }

  /** Reading the line of a frame appends its payload and a line feed to the data buffer. */
  lemma ReadDataLine(payload: string, rest: string, data: string)
    requires SingleLine(payload)
    ensures Dispatch(DataPrefix + payload + "\n" + rest, data) == Dispatch(rest, data + payload + "\n")
  {
    DataLineSingle(payload);
    DispatchLine(DataPrefix + payload, rest, data);
    DataLine(payload, data);
  }

  /** A blank line dispatches a buffer holding a payload and a line feed as one event
      carrying that payload, and empties the buffer. */
  lemma ReadBlankLine(payload: string, rest: string)
    ensures Dispatch("\n" + rest, payload + "\n") == [payload] + Dispatch(rest, [])
  {
    assert [] + "\n" + rest == "\n" + rest;
    DispatchLine([], rest, payload + "\n");
    var data := payload + "\n";
    assert data[..|data| - 1] == payload;
  }

  /** A client reads nothing more from a lone blank line with an empty buffer. */
  lemma ReadLastBlankLine()
    ensures Dispatch("\n", []) == []
  {
    assert [] + "\n" + [] == "\n";
    DispatchLine([], [], []);
  }

  /** A client reads the frame of a single-line payload as one event carrying exactly
      that payload, and then goes on with what follows. */
  lemma DispatchFrame(payload: string, rest: string)
    requires SingleLine(payload)
    ensures Dispatch(ProcessData(payload) + rest, []) == [payload] + Dispatch(rest, [])
  {
    calc {
      Dispatch(ProcessData(payload) + rest, []);
      { assert ProcessData(payload) + rest == DataPrefix + payload + "\n" + ("\n" + rest); }
      Dispatch(DataPrefix + payload + "\n" + ("\n" + rest), []);
      { ReadFirstDataLine(payload, "\n" + rest); }
      Dispatch("\n" + rest, payload + "\n");
      { ReadBlankLine(payload, rest); }
      [payload] + Dispatch(rest, []);
    }
  }

  /** Round trip: when no payload holds a line break, a client reads back from the
      encoded stream exactly the payloads written, one event each, in order. */
  lemma {:induction false} ParseEncoded(payloads: seq<string>)
    requires forall i :: 0 <= i < |payloads| ==> SingleLine(payloads[i])
    ensures Parse(Encoded(payloads)) == payloads
  {
    if payloads != [] {
      DispatchFrame(payloads[0], Encoded(payloads[1..]));
      ParseEncoded(payloads[1..]);
    }
  }

  /** Reading a non-blank line that is not a data field leaves the data buffer alone. */
  lemma ReadOtherLine(line: string, rest: string, data: string)
    requires SingleLine(line) && line != []
    requires Field(line).0 != "data"
    ensures Dispatch(line + "\n" + rest, data) == Dispatch(rest, data)
  {
    DispatchLine(line, rest, data);
  }

  /** The frame of a payload "a\nb", line by line. */
  lemma CutFrame(a: string, b: string)
    ensures ProcessData(a + "\n" + b) == DataPrefix + a + "\n" + (b + "\n" + "\n")
  {
  }

  /** The frame of a payload "a\n\ndata: b", line by line. */
  lemma SplitFrame(a: string, b: string)
    ensures ProcessData(a + "\n\ndata: " + b) ==
      DataPrefix + a + "\n" + ("\n" + (DataPrefix + b + "\n" + "\n"))
  {
  }

  /** The frame of a payload "a\ndata: b", line by line. */
  lemma MergeFrame(a: string, b: string)
    ensures ProcessData(a + "\ndata: " + b) == DataPrefix + a + "\n" + (DataPrefix + b + "\n" + "\n")
  {
  }

  /** Reading the first line of a frame puts its payload and a line feed in the empty
      data buffer. */
  lemma ReadFirstDataLine(payload: string, rest: string)
    requires SingleLine(payload)
    ensures Dispatch(DataPrefix + payload + "\n" + rest, []) == Dispatch(rest, payload + "\n")
  {
    DataLineSingle(payload);
    DispatchLine(DataPrefix + payload, rest, []);
    FirstDataLine(payload);
  }

  /** What follows the first line of the frame of "a\nb": the line b, which is not a data
      field, then the blank line, which dispatches a alone. */
  lemma ReadCutRest(a: string, b: string)
    requires SingleLine(b)
    requires Field(b).0 != "data"
    ensures Dispatch(b + "\n" + "\n", a + "\n") == [a]
  {
    if b == [] {
      assert b + "\n" + "\n" == "\n" + "\n";
      ReadBlankLine(a, "\n");
      ReadLastBlankLine();
    } else {
      ReadOtherLine(b, "\n", a + "\n");
      assert "\n" == "\n" + [];
      ReadBlankLine(a, []);
    }
  }

  /** What follows the first line of the frame of "a\ndata: b": the data line b, which
      joins the buffer, then the blank line, which dispatches "a\nb". */
  lemma ReadMergedRest(a: string, b: string)
    requires SingleLine(b)
    ensures Dispatch(DataPrefix + b + "\n" + "\n", a + "\n") == [a + "\n" + b]
  {
    ReadDataLine(b, "\n", a + "\n");
    assert "\n" == "\n" + [];
    ReadBlankLine(a + "\n" + b, []);
  }

  /** The framing is not escaped: a payload with a line feed in it reaches the client with
      its data cut short at the line feed whenever the text after it does not itself read as
      a data field ("a\nb" arrives as data "a"). When that text is an event, id or retry
      field, a real client also acts on it; this reader keeps only the data. */
  lemma LineBreakCutsPayload(a: string, b: string)
    requires SingleLine(a) && SingleLine(b)
    requires Field(b).0 != "data"
    ensures Parse(ProcessData(a + "\n" + b)) == [a]
    ensures a + "\n" + b != a
  {
    CutFrame(a, b);
    ReadFirstDataLine(a, b + "\n" + "\n");
    ReadCutRest(a, b);
    assert |a + "\n" + b| > |a|;
  }

  /** A payload holding a blank line followed by a data line reaches the client as two
      events: "a\n\ndata: b" arrives as "a" and then "b". */
  lemma BlankLineSplitsPayload(a: string, b: string)
    requires SingleLine(a) && SingleLine(b)
    ensures Parse(ProcessData(a + "\n\ndata: " + b)) == [a, b]
  {
    var tail := DataPrefix + b + "\n" + "\n";
    calc {
      Parse(ProcessData(a + "\n\ndata: " + b));
      { SplitFrame(a, b); ReadFirstDataLine(a, "\n" + tail); }
      Dispatch("\n" + tail, a + "\n");
      { ReadBlankLine(a, tail); }
      [a] + Dispatch(tail, []);
      { ReadFirstDataLine(b, "\n"); }
      [a] + Dispatch("\n", b + "\n");
      { assert "\n" == "\n" + []; ReadBlankLine(b, []); }
      [a] + [b];
    }
  }

  /** A payload holding a line that reads as a data field reaches the client with that line
      merged into it, less its field name: "a\ndata: b" arrives as "a\nb". */
  lemma DataLineMergesIntoPayload(a: string, b: string)
    requires SingleLine(a) && SingleLine(b)
    ensures Parse(ProcessData(a + "\ndata: " + b)) == [a + "\n" + b]
    ensures a + "\n" + b != a + "\ndata: " + b
  {
    MergeFrame(a, b);
    ReadFirstDataLine(a, DataPrefix + b + "\n" + "\n");
    ReadMergedRest(a, b);
    assert |a + "\n" + b| == |a| + |b| + 1 < |a + "\ndata: " + b|;
  }

  /** The number of line feeds in s. */
  function LineFeeds(s: string): (n: nat)
    ensures n <= |s|
  {
    if s == [] then 0 else (if s[0] == '\n' then 1 else 0) + LineFeeds(s[1..])
  }

  lemma {:induction false} LineFeedsAppend(a: string, b: string)
    ensures LineFeeds(a + b) == LineFeeds(a) + LineFeeds(b)
  {
    if a == [] {
      assert a + b == b;
    } else {
      assert (a + b)[0] == a[0];
      assert (a + b)[1..] == a[1..] + b;
      LineFeedsAppend(a[1..], b);
    }
  }

  lemma {:induction false} SingleLineFeeds(s: string)
    requires SingleLine(s)
    ensures LineFeeds(s) == 0
  {
    if s != [] {
      assert !IsLineBreak(s[0]);
      SingleLineFeeds(s[1..]);
    }
  }

  /** The characters a client takes from a run of events: the data of each and the line
      feed that the blank line ending it stands for. */
  function EventChars(events: seq<string>): nat
  {
    if events == [] then 0 else |events[0]| + 1 + EventChars(events[1..])
  }

  /** A field's value is shorter than its non-empty line. */
  lemma FieldValueShorter(line: string)
    requires line != []
    ensures |Field(line).1| < |line|
  {
  }

  /** A reader takes out no more characters than the stream holds, less one for every line
      feed in it: each line feed ends a line that is either dropped or, if blank, dispatches
      a buffer that already counts its own line feed. */
  lemma {:induction false} EventCharsBound(s: string, data: string)
    requires data == [] || data[|data| - 1] == '\n'
    ensures EventChars(Dispatch(s, data)) + LineFeeds(s) <= |data| + |s|
    decreases |s|
  {
    match NextLine(s)
    case None =>
      SingleLineFeeds(s);
    case Some((line, rest)) =>
      var term := s[|line|..|s| - |rest|];
      assert s == line + term + rest;
      LineFeedsAppend(line + term, rest);
      LineFeedsAppend(line, term);
      SingleLineFeeds(line);
      if line != [] {
        FieldValueShorter(line);
        EventCharsBound(rest, ProcessLine(line, data));
      } else if data == [] {
        EventCharsBound(rest, []);
      } else {
        var events := [data[..|data| - 1]] + Dispatch(rest, []);
        assert events[1..] == Dispatch(rest, []);
        EventCharsBound(rest, []);
      }
  }

  /** The first line of a frame whose payload holds a line break is a data line carrying
      the payload up to its first break. */
  lemma BrokenFrameFirstLine(p: string) returns (m: nat)
    requires !SingleLine(p)
    ensures m < |p| && NextLine(ProcessData(p)).Some?
    ensures NextLine(ProcessData(p)).value.0 == DataPrefix + p[..m]
  {
    var s := ProcessData(p);
    var i :| 0 <= i < |p| && IsLineBreak(p[i]);
    assert s[6 + i] == p[i];
    var line := NextLine(s).value.0;
    m := |line| - 6;
    assert line == s[..6 + m] == DataPrefix + p[..m];
  }

  /** A tail of a stream that ends in a blank line holds at least two line feeds, or is
      that last line feed alone. */
  lemma TailLineFeeds(s: string, rest: string)
    requires |s| >= 2 && s[|s| - 2..] == EventEnd
    requires |rest| <= |s| && s[|s| - |rest|..] == rest
    ensures |rest| >= 2 ==> LineFeeds(rest) >= 2
    ensures |rest| == 1 ==> LineFeeds(rest) == 1
  {
    if |rest| >= 2 {
      assert rest == rest[..|rest| - 2] + EventEnd;
      LineFeedsAppend(rest[..|rest| - 2], EventEnd);
    } else if |rest| == 1 {
      assert rest == "\n";
    }
  }

  /** A client reads a frame whose payload holds a line break as what follows its first
      line, with the data buffer holding the payload up to the break. */
  lemma ReadBrokenFrame(p: string, m: nat)
    requires m < |p| && NextLine(ProcessData(p)).Some?
    requires NextLine(ProcessData(p)).value.0 == DataPrefix + p[..m]
    ensures Parse(ProcessData(p)) == Dispatch(NextLine(ProcessData(p)).value.1, p[..m] + "\n")
  {
    FirstDataLine(p[..m]);
  }

  /** The converse of the round trip: a payload that holds a line break never reaches the
      client as the single event it was. The reader hands out at most the characters after
      the frame's first line, less one per line feed among them, plus the buffer that line
      left; that falls short of the payload and the line feed closing its event. */
  lemma BrokenPayloadNeverRoundTrips(p: string)
    requires !SingleLine(p)
    ensures Parse(ProcessData(p)) != [p]
  {
    var m := BrokenFrameFirstLine(p);
    var rest := NextLine(ProcessData(p)).value.1;
    TailLineFeeds(ProcessData(p), rest);
    ReadBrokenFrame(p, m);
    EventCharsBound(rest, p[..m] + "\n");
    assert EventChars(Parse(ProcessData(p))) <= |p|;
    assert EventChars([p]) == |p| + 1;
  }

  /** A single frame reads back as exactly its payload if and only if the payload holds no
      line break. */
  lemma FrameRoundTripsIffSingleLine(p: string)
    ensures Parse(ProcessData(p)) == [p] <==> SingleLine(p)
  {
    if SingleLine(p) {
      DispatchFrame(p, []);
      assert ProcessData(p) + [] == ProcessData(p);
    } else {
      BrokenPayloadNeverRoundTrips(p);
    }
  }
}
