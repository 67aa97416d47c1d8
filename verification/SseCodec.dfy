/** The server's event stream writer and the browser's incremental reader of it
    (section 9.2.6 of the WHATWG HTML Standard, restricted to the fields used).
    JSON encoding is left uninterpreted: a payload is its serialised text. */
module SseCodec {
  import opened Text

  const BLANK_LINE := "\n\n"
  const DATA := "data: "
  const KEEP_ALIVE := ": keep-alive"

  // ------------------------------------------------------------------ writer

  /** What wakes the generator: a queued payload, with the organisation it is for
      ("" when it has none), or the fifteen second timeout. */
  datatype Wakeup = Payload(json: string, org: string) | Timeout

  function Frame(w: Wakeup, org: string): string {
    match w
    case Timeout => KEEP_ALIVE + BLANK_LINE
    case Payload(json, owner) => if owner != "" && owner != org then "" else DATA + json + BLANK_LINE
  }

  function Stream(events: seq<Wakeup>, org: string): string {
    if events == [] then "" else Frame(events[0], org) + Stream(events[1..], org)
  }

  // What a client of an organisation is meant to see, without regard to frames.

  function OwnOf(w: Wakeup, org: string): seq<string> {
    if w.Payload? && w.org in {"", org} then [w.json] else []
  }

  /** The payloads of the organisation and those for everybody. */
  function Own(events: seq<Wakeup>, org: string): seq<string> {
    if events == [] then [] else OwnOf(events[0], org) + Own(events[1..], org)
  }

  predicate Foreign(w: Wakeup, org: string) {
    w.Payload? && w.org != "" && w.org != org
  }

  /** The events without the payloads of other organisations. */
  function WithoutForeign(events: seq<Wakeup>, org: string): seq<Wakeup> {
    if events == [] then []
    else if Foreign(events[0], org) then WithoutForeign(events[1..], org)
    else [events[0]] + WithoutForeign(events[1..], org)
  }

  ghost predicate SingleLines(payloads: seq<string>) {
    forall i :: 0 <= i < |payloads| ==> '\n' !in payloads[i]
  }

  lemma {:induction false} SingleLinesSplit(a: seq<string>, b: seq<string>)
    ensures SingleLines(a + b) <==> SingleLines(a) && SingleLines(b)
  {
    assert forall i :: 0 <= i < |a| ==> (a + b)[i] == a[i];
    assert forall i :: 0 <= i < |b| ==> (a + b)[|a| + i] == b[i];
  }

  lemma {:induction false} StreamSnoc(events: seq<Wakeup>, w: Wakeup, org: string)
    ensures Stream(events + [w], org) == Stream(events, org) + Frame(w, org)
  {
    if events == [] {
      assert events + [w] == [w];
    } else {
      assert (events + [w])[1..] == events[1..] + [w];
      StreamSnoc(events[1..], w, org);
    }
  }

  /** The generator loop. */
  method Generate(events: seq<Wakeup>, org: string) returns (text: string)
    ensures text == Stream(events, org)
  {
    text := "";
    for i := 0 to |events|
      invariant text == Stream(events[..i], org)
    {
      assert Stream(events[..i + 1], org) == text + Frame(events[i], org) by {
        assert events[..i + 1] == events[..i] + [events[i]];
        StreamSnoc(events[..i], events[i], org);
      }
      match events[i] {
        case Timeout =>
          text := text + KEEP_ALIVE + BLANK_LINE;
        case Payload(json, owner) =>
          if owner != "" && owner != org {
            continue;
          }
          text := text + DATA + json + BLANK_LINE;
      }
    }
    assert events[..|events|] == events;
  }

  // ------------------------------------------------------------------ reader

  predicate IsData(line: string) {
    DATA <= line
  }

  /** The text of the first data line of a frame, if it has one. */
  function DataOf(lines: seq<string>): seq<string> {
    if lines == [] then []
    else if IsData(lines[0]) then [lines[0][|DATA|..]]
    else DataOf(lines[1..])
  }

  function Payloads(frames: seq<string>): seq<string> {
    if frames == [] then [] else DataOf(Split(frames[0], "\n")) + Payloads(frames[1..])
  }

  /** What a reader has delivered, and still buffers, after all of `text`. */
  function Delivered(text: string): seq<string> {
    Payloads(Init(Split(text, BLANK_LINE)))
  }

  function Buffered(text: string): string {
    Last(Split(text, BLANK_LINE))
  }

  lemma {:induction false} PayloadsAppend(a: seq<string>, b: seq<string>)
    ensures Payloads(a + b) == Payloads(a) + Payloads(b)
  {
    if a == [] {
      assert a + b == b;
    } else {
      assert (a + b)[1..] == a[1..] + b;
      PayloadsAppend(a[1..], b);
    }
  }

  /** Reading on from the buffer is reading the whole text: chunking is invisible. */
  lemma {:induction false} ReadingResumes(text: string, chunk: string)
    ensures Buffered(text + chunk) == Buffered(Buffered(text) + chunk)
    ensures Delivered(text + chunk) == Delivered(text) + Delivered(Buffered(text) + chunk)
  {
    SplitResumes(text, chunk, BLANK_LINE);
    var before := Init(Split(text, BLANK_LINE));
    var after := Split(Buffered(text) + chunk, BLANK_LINE);
    assert Init(before + after) == before + Init(after);
    PayloadsAppend(before, Init(after));
  }

  /** The read loop of one connection. Its state is a function of the text received
      so far, however that text was cut into chunks. */
  class FrameReader {
    var buffer: string
    var delivered: seq<string>
    ghost var received: string

    ghost predicate Valid()
      reads this
    {
      buffer == Buffered(received) && delivered == Delivered(received)
    }

    constructor ()
      ensures Valid() && received == "" && delivered == []
    {
      buffer, delivered, received := "", [], "";
    }

    method FirstData(lines: seq<string>) returns (found: seq<string>)
      ensures found == DataOf(lines)
    {
      for i := 0 to |lines|
        invariant DataOf(lines) == DataOf(lines[i..])
      {
        if IsData(lines[i]) {
          return [lines[i][|DATA|..]];
        }
      }
      return [];
    }

    /** The loop over the complete frames of one read. */
    method Extract(frames: seq<string>) returns (payloads: seq<string>)
      ensures payloads == Payloads(frames)
    {
      payloads := [];
      for i := 0 to |frames|
        invariant payloads == Payloads(frames[..i])
      {
        var data := FirstData(Split(frames[i], "\n"));
        payloads := payloads + data;
        assert frames[..i + 1] == frames[..i] + [frames[i]];
        PayloadsAppend(frames[..i], [frames[i]]);
        assert Payloads([frames[i]]) == data + Payloads([]);
      }
      assert frames[..|frames|] == frames;
    }

    method Feed(chunk: string)
      requires Valid()
      modifies this
      ensures Valid() && received == old(received) + chunk
      ensures delivered == Delivered(old(received) + chunk) && buffer == Buffered(old(received) + chunk)
    {
      ReadingResumes(received, chunk);
      var chunks := Split(buffer + chunk, BLANK_LINE);
      var payloads := Extract(Init(chunks));
      buffer := Last(chunks);
      delivered := delivered + payloads;
      received := received + chunk;
    }
  }

  function Concat(chunks: seq<string>): string {
    if chunks == [] then "" else Concat(Init(chunks)) + Last(chunks)
  }

  /** Reads a response body to its end. */
  method ReadAll(chunks: seq<string>) returns (payloads: seq<string>, leftover: string)
    ensures payloads == Delivered(Concat(chunks)) && leftover == Buffered(Concat(chunks))
  {
    var reader := new FrameReader();
    for i := 0 to |chunks|
      invariant reader.Valid() && fresh(reader) && reader.received == Concat(chunks[..i])
    {
      reader.Feed(chunks[i]);
      assert Init(chunks[..i + 1]) == chunks[..i];
    }
    assert chunks[..|chunks|] == chunks;
    payloads, leftover := reader.delivered, reader.buffer;
  }

  // -------------------------------------------------------------- round trip

  /** One whole frame at the front of the text. */
  lemma {:induction false} WholeFrame(frame: string, rest: string)
    requires '\n' !in frame
    ensures Delivered(frame + BLANK_LINE + rest) == (if IsData(frame) then [frame[|DATA|..]] else []) + Delivered(rest)
    ensures Buffered(frame + BLANK_LINE + rest) == Buffered(rest)
  {
    SplitFirst(frame, rest, BLANK_LINE);
    var tail := Split(rest, BLANK_LINE);
    assert Init([frame] + tail) == [frame] + Init(tail);
    SplitNone(frame, "\n");
    assert DataOf([frame]) == if IsData(frame) then [frame[|DATA|..]] else [];
  }

  /** The frames as they go out. */
  lemma {:induction false} FrameText(json: string, owner: string, org: string)
    ensures Frame(Timeout, org) == ": keep-alive\n\n"
    ensures Frame(Payload(json, owner), org) == if owner in {"", org} then "data: " + json + "\n\n" else ""
  {
  }

  lemma {:induction false} FrameReads(w: Wakeup, org: string, rest: string)
    requires SingleLines(OwnOf(w, org))
    ensures Delivered(Frame(w, org) + rest) == OwnOf(w, org) + Delivered(rest)
    ensures Buffered(Frame(w, org) + rest) == Buffered(rest)
  {
    if w.Timeout? {
      WholeFrame(KEEP_ALIVE, rest);
      assert Frame(w, org) + rest == KEEP_ALIVE + BLANK_LINE + rest;
      assert KEEP_ALIVE[0] != DATA[0];
    } else if w.org in {"", org} {
      assert OwnOf(w, org)[0] == w.json;
      var frame := DATA + w.json;
      WholeFrame(frame, rest);
      assert frame[|DATA|..] == w.json && frame[..|DATA|] == DATA;
    } else {
      assert Frame(w, org) + rest == rest;
    }
  }

  /** The browser receives exactly the payloads meant for its organisation or for all,
      in order, and is left with an empty buffer. */
  lemma {:induction false} RoundTrip(events: seq<Wakeup>, org: string)
    requires SingleLines(Own(events, org))
    ensures Delivered(Stream(events, org)) == Own(events, org)
    ensures Buffered(Stream(events, org)) == ""
  {
    if events != [] {
      SingleLinesSplit(OwnOf(events[0], org), Own(events[1..], org));
      RoundTrip(events[1..], org);
      FrameReads(events[0], org, Stream(events[1..], org));
    }
  }

  /** Payloads of other organisations leave no trace in the text: not even their number
      or their timing relative to the others shows. */
  lemma {:induction false} OthersLeaveNoTrace(events: seq<Wakeup>, org: string)
    ensures Stream(events, org) == Stream(WithoutForeign(events, org), org)
  {
    if events != [] {
      OthersLeaveNoTrace(events[1..], org);
      if Foreign(events[0], org) {
        assert Frame(events[0], org) == "";
      } else {
        assert WithoutForeign(events, org)[1..] == WithoutForeign(events[1..], org);
      }
    }
  }

  /** Hence what is sent to others can be changed at will without a client noticing. */
  lemma {:induction false} OthersDoNotInterfere(a: seq<Wakeup>, b: seq<Wakeup>, org: string)
    requires WithoutForeign(a, org) == WithoutForeign(b, org)
    ensures Stream(a, org) == Stream(b, org)
  {
    OthersLeaveNoTrace(a, org);
    OthersLeaveNoTrace(b, org);
  }

  /** The same, for any way the network cuts the stream into chunks. */
  method Transfer(events: seq<Wakeup>, org: string, chunks: seq<string>) returns (payloads: seq<string>, leftover: string)
    requires SingleLines(Own(events, org))
    requires Concat(chunks) == Stream(events, org)
    ensures payloads == Own(events, org) && leftover == ""
  {
    RoundTrip(events, org);
    payloads, leftover := ReadAll(chunks);
  }

  // ------------------------------------------------ why payloads must be one line

  lemma {:induction false} FirstPieceGrows(x: string, y: string)
    requires '\n' !in x && y != "" && y[0] == '\n'
    ensures Split(x + y, BLANK_LINE)[0] == x + Split(y, BLANK_LINE)[0]
  {
    if x == "" {
      assert x + y == y;
    } else {
      assert x + y == [x[0]] + (x[1..] + y);
      assert (x + y)[..2][0] == x[0];
      SplitSkip(x[0], x[1..] + y, BLANK_LINE);
      FirstPieceGrows(x[1..], y);
    }
  }

  lemma {:induction false} SeparatorSplits(a: string, b: string)
    ensures |Split(a + BLANK_LINE + b, BLANK_LINE)| >= 2
  {
    var s := a + BLANK_LINE + b;
    if a == "" {
      assert s[..2] == BLANK_LINE;
    } else {
      assert s[1..] == a[1..] + BLANK_LINE + b;
      SeparatorSplits(a[1..], b);
    }
  }

  /** A payload with a line break is delivered cut off at the break. */
  lemma {:induction false} BrokenFrame(q: string, r: string, rest: string)
    requires '\n' !in q
    ensures var text := DATA + (q + "\n" + r) + BLANK_LINE + rest;
            Delivered(text) != [] && Delivered(text)[0] == q
  {
    var x, y := DATA + q, "\n" + (r + BLANK_LINE + rest);
    var text := DATA + (q + "\n" + r) + BLANK_LINE + rest;
    assert text == x + y;
    FirstPieceGrows(x, y);
    SeparatorSplits(DATA + (q + "\n" + r), rest);
    var first, head := Split(text, BLANK_LINE)[0], Split(y, BLANK_LINE)[0];
    if head == "" {
      assert first == x;
      SplitNone(x, "\n");
    } else {
      assert first == x + "\n" + head[1..];
      SplitFirst(x, head[1..], "\n");
    }
    assert x[..|DATA|] == DATA && x[|DATA|..] == q;
    assert Split(first, "\n")[0] == x && IsData(x);
    assert DataOf(Split(first, "\n")) == [q];
    assert Init(Split(text, BLANK_LINE))[0] == first;
  }

  lemma {:induction false} LineBreakBreaksStream(events: seq<Wakeup>, org: string)
    requires !SingleLines(Own(events, org))
    ensures Delivered(Stream(events, org)) != Own(events, org)
  {
    SingleLinesSplit(OwnOf(events[0], org), Own(events[1..], org));
    var w, rest := events[0], Stream(events[1..], org);
    var own, expected := OwnOf(w, org), Own(events[1..], org);
    if !SingleLines(own) {
      assert own == [w.json];
      var k :| 0 <= k < |w.json| && w.json[k] == '\n' && '\n' !in w.json[..k] by { FirstBreak(w.json); }
      assert w.json == w.json[..k] + "\n" + w.json[k + 1..];
      BrokenFrame(w.json[..k], w.json[k + 1..], rest);
    } else {
      LineBreakBreaksStream(events[1..], org);
      FrameReads(w, org, rest);
      var tail := Delivered(rest);
      assert (own + tail)[|own|..] == tail && (own + expected)[|own|..] == expected;
    }
  }

  lemma {:induction false} FirstBreak(s: string)
    requires '\n' in s
    ensures exists k :: 0 <= k < |s| && s[k] == '\n' && '\n' !in s[..k]
  {
    if s[0] == '\n' {
      assert '\n' !in s[..0];
    } else {
      FirstBreak(s[1..]);
      var k :| 0 <= k < |s[1..]| && s[1..][k] == '\n' && '\n' !in s[1..][..k];
      assert s[..k + 1] == [s[0]] + s[1..][..k];
      assert s[k + 1] == '\n' && '\n' !in s[..k + 1];
    }
  }

  /** The stream is read back as it was written exactly when every payload meant for
      the client is a single line. */
  lemma {:induction false} RoundTripIff(events: seq<Wakeup>, org: string)
    ensures Delivered(Stream(events, org)) == Own(events, org) <==> SingleLines(Own(events, org))
  {
    if SingleLines(Own(events, org)) {
      RoundTrip(events, org);
    } else {
      LineBreakBreaksStream(events, org);
    }
  }
}
