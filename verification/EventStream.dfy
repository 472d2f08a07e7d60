/** The event stream of the chat: the server's framing and the browser's incremental reader. */
module EventStream {
  import opened Wrappers
  import opened Text

  // ---------- the reader ----------

  /** What a line carries: the text after "data:", both trimmed, unless there is none. */
  function PayloadOf(raw: string): Option<string>
  {
    var line := Trim(raw, JsSpace);
    if !("data:" <= line) then None else
    var payload := Trim(line[5..], JsSpace);
    if payload == "" then None else Some(payload)
  }

  /** The line is "data:" and the payload, with blanks before, between and behind them. */
  ghost predicate Around(raw: string, a: string, b: string, p: string, c: string)
  {
    Blank(a, JsSpace) && Blank(b, JsSpace) && Blank(c, JsSpace) && raw == a + "data:" + b + p + c
  }

  ghost predicate HoldsPayload(raw: string, p: string)
  {
    Unpadded(p, JsSpace) && exists a, b, c :: Around(raw, a, b, p, c)
  }

  /** A line carries exactly what it holds in this way. */
  lemma {:induction false} PayloadIsHeld(raw: string, p: string)
    ensures PayloadOf(raw) == Some(p) <==> HoldsPayload(raw, p)
  {
    if PayloadOf(raw) == Some(p) {
      CarriedIsHeld(raw, Trim(raw, JsSpace), p);
    }
    if HoldsPayload(raw, p) {
      var a, b, c :| Around(raw, a, b, p, c);
      HeldIsCarried(a, b, p, c);
    }
  }

  lemma {:induction false} CarriedIsHeld(raw: string, line: string, p: string)
    requires line == Trim(raw, JsSpace) && "data:" <= line && p == Trim(line[5..], JsSpace) && p != ""
    ensures HoldsPayload(raw, p)
  {
    var a, c := TrimTakesBlanks(raw, JsSpace);
    var b, d := TrimTakesBlanks(line[5..], JsSpace);
    TrimIsUnpadded(line[5..], JsSpace);
    InParts(a, "data:", b, p, d, c);
    assert line == "data:" + line[5..];
    assert Around(raw, a, b, p, d + c);
  }

  lemma {:induction false} InParts(a: string, mark: string, b: string, p: string, d: string, c: string)
    ensures a + (mark + (b + p + d)) + c == a + mark + b + p + (d + c)
  {
  }

  lemma {:induction false} HeldIsCarried(a: string, b: string, p: string, c: string)
    requires Blank(a, JsSpace) && Blank(b, JsSpace) && Blank(c, JsSpace) && Unpadded(p, JsSpace)
    ensures PayloadOf(a + "data:" + b + p + c) == Some(p)
  {
    var line := "data:" + b + p;
    assert line[|line| - 1] == p[|p| - 1] && line[0] == 'd';
    TrimDropsBlanks(a, line, c, JsSpace);
    assert a + line + c == a + "data:" + b + p + c;
    TrimDropsBlanks(b, p, "", JsSpace);
    assert line[5..] == b + p + "" && "data:" <= line;
  }

  function Payloads(lines: seq<string>): seq<string>
  {
    if lines == [] then []
    else (match PayloadOf(lines[0]) case None => [] case Some(p) => [p]) + Payloads(lines[1..])
  }

  /** Payloads that do not parse are skipped. */
  function Parsed<E>(payloads: seq<string>, parse: string -> Option<E>): seq<E>
  {
    if payloads == [] then []
    else (match parse(payloads[0]) case None => [] case Some(e) => [e]) + Parsed(payloads[1..], parse)
  }

  /** The lines of a text that are terminated, and the piece behind the last newline. */
  function Terminated(text: string): seq<string>
  {
    var lines := Split(text, "\n");
    lines[..|lines| - 1]
  }

  function Unterminated(text: string): string
  {
    var lines := Split(text, "\n");
    lines[|lines| - 1]
  }

  /** What a reader of the whole text at once would deliver. */
  function Delivered<E>(text: string, parse: string -> Option<E>): seq<E>
  {
    Parsed(Payloads(Terminated(text)), parse)
  }

  lemma {:induction false} PayloadsConcat(a: seq<string>, b: seq<string>)
    ensures Payloads(a + b) == Payloads(a) + Payloads(b)
  {
    if a == [] {
      assert a + b == b;
    } else {
      assert (a + b)[1..] == a[1..] + b;
      PayloadsConcat(a[1..], b);
    }
  }

  lemma {:induction false} ParsedConcat<E>(a: seq<string>, b: seq<string>, parse: string -> Option<E>)
    ensures Parsed(a + b, parse) == Parsed(a, parse) + Parsed(b, parse)
  {
    if a == [] {
      assert a + b == b;
    } else {
      assert (a + b)[1..] == a[1..] + b;
      ParsedConcat(a[1..], b, parse);
    }
  }

  lemma {:induction false} SplitGrows(text: string, more: string, c: char)
    ensures var parts := Split(text, [c]);
            var last := parts[|parts| - 1];
            Split(text + more, [c]) == parts[..|parts| - 1] + Split(last + more, [c])
    decreases |text|
  {
    FindChar(text, c);
    match Find(text, [c], 0)
    case None =>
      NothingInFront(text, Split(text + more, [c]));
    case Some(i) =>
      var head, tail := text[..i], text[i + 1..];
      SplitGrows(tail, more, c);
      CharSplittable(head, c);
      SplitGrowsBehind(head, tail, more, c);
  }

  lemma {:induction false} NothingInFront(text: string, parts: seq<string>)
    ensures [text][..0] + parts == parts
  {
  }

  lemma {:induction false} SplitGrowsBehind(head: string, tail: string, more: string, c: char)
    requires Splittable(head, [c])
    requires var rest := Split(tail, [c]);
             Split(tail + more, [c]) == rest[..|rest| - 1] + Split(rest[|rest| - 1] + more, [c])
    ensures var parts := Split(head + [c] + tail, [c]);
            Split(head + [c] + tail + more, [c]) == parts[..|parts| - 1] + Split(parts[|parts| - 1] + more, [c])
  {
    var rest := Split(tail, [c]);
    assert head + [c] + tail + more == head + [c] + (tail + more);
    SplitFirst(head, [c], tail + more);
    SplitFirst(head, [c], tail);
    PrependToFront(head, rest, Split(rest[|rest| - 1] + more, [c]));
  }

  lemma {:induction false} PrependToFront(head: string, a: seq<string>, b: seq<string>)
    requires a != []
    ensures [head] + (a[..|a| - 1] + b) == ([head] + a)[..|a|] + b
    ensures ([head] + a)[|a|] == a[|a| - 1]
  {
  }

  /** More text behind a prefix: the prefix's unterminated end is continued, its terminated lines stand. */
  lemma {:induction false} TerminatedGrows(text: string, more: string)
    ensures Terminated(text + more) == Terminated(text) + Terminated(Unterminated(text) + more)
    ensures Unterminated(text + more) == Unterminated(Unterminated(text) + more)
  {
    SplitGrows(text, more, '\n');
  }

  /** Append the events of one line. */
  method TakeLine<E>(raw: string, parse: string -> Option<E>, events: seq<E>) returns (events': seq<E>)
    ensures events' == events + Parsed(Payloads([raw]), parse)
  {
    events' := events;
    var line := Trim(raw, JsSpace);
    if !("data:" <= line) {
      return;
    }
    var payload := Trim(line[5..], JsSpace);
    if payload == "" {
      return;
    }
    assert Payloads([raw]) == [payload];
    var event := parse(payload);
    if event.Some? {
      events' := events' + [event.value];
    }
  }

  lemma {:induction false} LineBehind<E>(lines: seq<string>, i: nat, parse: string -> Option<E>)
    requires i < |lines|
    ensures Parsed(Payloads(lines[..i + 1]), parse)
         == Parsed(Payloads(lines[..i]), parse) + Parsed(Payloads([lines[i]]), parse)
  {
    assert lines[..i + 1] == lines[..i] + [lines[i]];
    PayloadsConcat(lines[..i], [lines[i]]);
    ParsedConcat(Payloads(lines[..i]), Payloads([lines[i]]), parse);
  }

  method TakeLines<E>(lines: seq<string>, parse: string -> Option<E>, events: seq<E>) returns (events': seq<E>)
    ensures events' == events + Parsed(Payloads(lines), parse)
  {
    events' := events;
    for i := 0 to |lines|
      invariant events' == events + Parsed(Payloads(lines[..i]), parse)
    {
      LineBehind(lines, i, parse);
      events' := TakeLine(lines[i], parse, events');
    }
    assert lines[..|lines|] == lines;
  }

  /** The read loop: however the stream is cut into chunks, what is delivered and what is left over
      depend on the whole text only. */
  method ReadStream<E>(chunks: seq<string>, parse: string -> Option<E>) returns (events: seq<E>, buffer: string)
    ensures events == Delivered(Flatten(chunks), parse) && buffer == Unterminated(Flatten(chunks))
  {
    events, buffer := [], "";
    ghost var read := "";
    for i := 0 to |chunks|
      invariant read == Flatten(chunks[..i])
      invariant events == Delivered(read, parse) && buffer == Unterminated(read)
    {
      TerminatedGrows(read, chunks[i]);
      FlattenSnoc(chunks, i);
      var lines := Split(buffer + chunks[i], "\n");
      var complete := lines[..|lines| - 1];
      buffer := lines[|lines| - 1];
      PayloadsConcat(Terminated(read), complete);
      ParsedConcat(Payloads(Terminated(read)), Payloads(complete), parse);
      events := TakeLines(complete, parse, events);
      read := read + chunks[i];
    }
    assert chunks[..|chunks|] == chunks;
  }

  lemma {:induction false} FlattenSnoc(chunks: seq<string>, i: nat)
    requires i < |chunks|
    ensures Flatten(chunks[..i + 1]) == Flatten(chunks[..i]) + chunks[i]
  {
    assert chunks[..i + 1] == chunks[..i] + [chunks[i]];
    FlattenConcat(chunks[..i], [chunks[i]]);
  }

  // ---------- the server's framing ----------

  /** A frame of the server, or a line of something else. */
  datatype Piece = Frame(payload: string) | Noise(line: string)

  function Printed(p: Piece): string
  {
    match p
    case Frame(payload) => "data: " + payload + "\n\n"
    case Noise(line) => line + "\n"
  }

  function Transcript(pieces: seq<Piece>): string
  {
    if pieces == [] then "" else Printed(pieces[0]) + Transcript(pieces[1..])
  }

  function FramePayloads(pieces: seq<Piece>): seq<string>
  {
    if pieces == [] then []
    else (if pieces[0].Frame? then [pieces[0].payload] else []) + FramePayloads(pieces[1..])
  }

  /** Payloads hold no newline and have no blank ends, as printed JSON; noise is a line without a payload that
      parses. */
  predicate Clean<E>(p: Piece, parse: string -> Option<E>)
  {
    match p
    case Frame(payload) => '\n' !in payload && Unpadded(payload, JsSpace)
    case Noise(line) => '\n' !in line && (PayloadOf(line).None? || parse(PayloadOf(line).value).None?)
  }

  lemma {:induction false} FrameCarries(payload: string)
    requires Unpadded(payload, JsSpace)
    ensures PayloadOf("data: " + payload) == Some(payload)
  {
    var line := "data: " + payload;
    TrimUnpadded(line, JsSpace);
    assert line[5..] == " " + payload;
    TrimLeftDrops(" ", payload, JsSpace);
    TrimUnpadded(payload, JsSpace);
  }

  lemma {:induction false} LineFirst(line: string, rest: string)
    requires '\n' !in line
    ensures Terminated(line + "\n" + rest) == [line] + Terminated(rest)
    ensures Unterminated(line + "\n" + rest) == Unterminated(rest)
  {
    CharSplittable(line, '\n');
    SplitFirst(line, "\n", rest);
  }

  lemma {:induction false} FrameFirst<E>(payload: string, rest: string, parse: string -> Option<E>)
    requires '\n' !in payload && Unpadded(payload, JsSpace)
    ensures Delivered(Printed(Frame(payload)) + rest, parse) == Parsed([payload], parse) + Delivered(rest, parse)
    ensures Unterminated(Printed(Frame(payload)) + rest) == Unterminated(rest)
  {
    var line := "data: " + payload;
    assert Printed(Frame(payload)) + rest == line + "\n" + ("" + "\n" + rest);
    LineFirst(line, "" + "\n" + rest);
    LineFirst("", rest);
    FrameCarries(payload);
    FrameLines(line, payload, Terminated(rest));
    ParsedConcat([payload], Payloads(Terminated(rest)), parse);
  }

  lemma {:induction false} FrameLines(line: string, payload: string, rest: seq<string>)
    requires PayloadOf(line) == Some(payload)
    ensures Payloads([line] + ([""] + rest)) == [payload] + Payloads(rest)
  {
    PayloadsConcat([line], [""] + rest);
    PayloadsConcat([""], rest);
    assert Payloads([line]) == [payload] && Payloads([""]) == [];
  }

  lemma {:induction false} NoiseFirst<E>(line: string, rest: string, parse: string -> Option<E>)
    requires Clean(Noise(line), parse)
    ensures Delivered(Printed(Noise(line)) + rest, parse) == Delivered(rest, parse)
    ensures Unterminated(Printed(Noise(line)) + rest) == Unterminated(rest)
  {
    LineFirst(line, rest);
    PayloadsConcat([line], Terminated(rest));
    ParsedConcat(Payloads([line]), Payloads(Terminated(rest)), parse);
    assert Parsed(Payloads([line]), parse) == [];
  }

  /** The reader gets exactly the framed payloads that parse, in order, whatever lies between the
      frames, and its buffer is left with the unterminated tail. */
  lemma {:induction false} FramesArrive<E>(pieces: seq<Piece>, tail: string, parse: string -> Option<E>)
    requires (forall p :: p in pieces ==> Clean(p, parse)) && '\n' !in tail
    ensures Delivered(Transcript(pieces) + tail, parse) == Parsed(FramePayloads(pieces), parse)
    ensures Unterminated(Transcript(pieces) + tail) == tail
  {
    if pieces == [] {
      assert Transcript(pieces) + tail == tail;
      FindChar(tail, '\n');
    } else {
      var rest := Transcript(pieces[1..]) + tail;
      FramesArrive(pieces[1..], tail, parse);
      assert Transcript(pieces) + tail == Printed(pieces[0]) + rest;
      match pieces[0] {
        case Frame(payload) => FrameFirst(payload, rest, parse);
        case Noise(line) => NoiseFirst(line, rest, parse);
      }
      ParsedConcat(if pieces[0].Frame? then [pieces[0].payload] else [], FramePayloads(pieces[1..]), parse);
    }
  }

  /** The printer makes one clean line of every event; the reader's parser makes of it what its schema
      keeps of the event, or refuses it if the schema does not accept it. */
  ghost predicate Inverse<E(!new), V>(print_: E -> string, parse: string -> Option<V>, accepts: E -> bool, keep: E -> V)
  {
    forall e :: '\n' !in print_(e) && Unpadded(print_(e), JsSpace)
                && parse(print_(e)) == if accepts(e) then Some(keep(e)) else None
  }

  function Frames<E>(events: seq<E>, print_: E -> string): seq<Piece>
  {
    if events == [] then [] else [Frame(print_(events[0]))] + Frames(events[1..], print_)
  }

  /** What is kept of the accepted events, in order. */
  function Accepted<E, V>(events: seq<E>, accepts: E -> bool, keep: E -> V): seq<V>
  {
    if events == [] then []
    else (if accepts(events[0]) then [keep(events[0])] else []) + Accepted(events[1..], accepts, keep)
  }

  lemma {:induction false} EventFirst<E(!new), V>(e: E, rest: string, print_: E -> string, parse: string -> Option<V>,
                                                  accepts: E -> bool, keep: E -> V)
    requires Inverse(print_, parse, accepts, keep)
    ensures Delivered(Printed(Frame(print_(e))) + rest, parse)
         == (if accepts(e) then [keep(e)] else []) + Delivered(rest, parse)
    ensures Unterminated(Printed(Frame(print_(e))) + rest) == Unterminated(rest)
  {
    var payload := print_(e);
    assert '\n' !in payload && Unpadded(payload, JsSpace);
    FrameFirst(payload, rest, parse);
    ParsedOne(payload, parse);
  }

  lemma {:induction false} ParsedOne<V>(payload: string, parse: string -> Option<V>)
    ensures Parsed([payload], parse) == if parse(payload).Some? then [parse(payload).value] else []
  {
    assert [payload][1..] == [];
  }

  /** The server's frames, read back in any chunks, are what the schema keeps of the events it accepts. */
  lemma {:induction false} EventsArrive<E(!new), V>(events: seq<E>, print_: E -> string, parse: string -> Option<V>,
                                                    accepts: E -> bool, keep: E -> V)
    requires Inverse(print_, parse, accepts, keep)
    ensures Delivered(Transcript(Frames(events, print_)), parse) == Accepted(events, accepts, keep)
    ensures Unterminated(Transcript(Frames(events, print_))) == ""
  {
    if events != [] {
      EventsArrive(events[1..], print_, parse, accepts, keep);
      EventFirst(events[0], Transcript(Frames(events[1..], print_)), print_, parse, accepts, keep);
      TranscriptFirst(Frame(print_(events[0])), Frames(events[1..], print_));
    }
  }

  lemma {:induction false} TranscriptFirst(p: Piece, rest: seq<Piece>)
    ensures Transcript([p] + rest) == Printed(p) + Transcript(rest)
  {
    assert ([p] + rest)[1..] == rest;
  }

  // ---------- against the WHATWG HTML Standard, section 9.2.6 ----------

  /** The standard's interpretation of the lines of a stream: data lines collect in a buffer, a blank
      line dispatches it as one event. `data` holds the lines collected so far. */
  function Dispatched(lines: seq<string>, data: seq<string>): seq<string>
  {
    if lines == [] then []
    else if lines[0] == "" then (if data == [] then [] else [Join(data, "\n")]) + Dispatched(lines[1..], [])
    else if "data:" <= lines[0] then Dispatched(lines[1..], data + [StandardValue(lines[0])])
    else Dispatched(lines[1..], data)
  }

  /** The field value: one leading space is dropped. */
  function StandardValue(line: string): string
    requires "data:" <= line
  {
    var value := line[5..];
    if " " <= value then value[1..] else value
  }

  /** One event whose data has the given lines. */
  function BlockLines(data: seq<string>): seq<string>
  {
    if data == [] then [""] else ["data: " + data[0]] + BlockLines(data[1..])
  }

  function StreamLines(blocks: seq<seq<string>>): seq<string>
  {
    if blocks == [] then [] else BlockLines(blocks[0]) + StreamLines(blocks[1..])
  }

  function Joined(blocks: seq<seq<string>>): seq<string>
  {
    if blocks == [] then [] else [Join(blocks[0], "\n")] + Joined(blocks[1..])
  }

  lemma {:induction false} BlockDispatches(data: seq<string>, before: seq<string>, rest: seq<string>)
    requires data != [] || before != []
    ensures Dispatched(BlockLines(data) + rest, before) == [Join(before + data, "\n")] + Dispatched(rest, [])
    decreases data
  {
    var lines := BlockLines(data) + rest;
    if data == [] {
      assert lines[1..] == rest && before + data == before;
    } else {
      assert lines[1..] == BlockLines(data[1..]) + rest;
      assert lines[0] == "data: " + data[0] && lines[0][5..] == " " + data[0];
      BlockDispatches(data[1..], before + [data[0]], rest);
      assert before + [data[0]] + data[1..] == before + data;
    }
  }

  /** Events with at least one data line each, none of which has blank ends. */
  ghost predicate CleanBlocks(blocks: seq<seq<string>>)
  {
    forall i :: 0 <= i < |blocks| ==> blocks[i] != [] && CleanLines(blocks[i])
  }

  ghost predicate CleanLines(data: seq<string>)
  {
    forall i :: 0 <= i < |data| ==> Unpadded(data[i], JsSpace)
  }

  ghost predicate SingleLines(blocks: seq<seq<string>>)
  {
    forall i :: 0 <= i < |blocks| ==> |blocks[i]| == 1
  }

  lemma {:induction false} StandardReadsBlocks(blocks: seq<seq<string>>)
    requires CleanBlocks(blocks)
    ensures Dispatched(StreamLines(blocks), []) == Joined(blocks)
  {
    if blocks != [] {
      BlockDispatches(blocks[0], [], StreamLines(blocks[1..]));
      assert [] + blocks[0] == blocks[0];
      StandardReadsBlocks(blocks[1..]);
    }
  }

  lemma {:induction false} ReaderReadsBlock(data: seq<string>)
    requires CleanLines(data)
    ensures Payloads(BlockLines(data)) == data
  {
    if data != [] {
      FrameCarries(data[0]);
      ReaderReadsBlock(data[1..]);
      PayloadsConcat(["data: " + data[0]], BlockLines(data[1..]));
    }
  }

  lemma {:induction false} ReaderReadsBlocks(blocks: seq<seq<string>>)
    requires CleanBlocks(blocks)
    ensures Payloads(StreamLines(blocks)) == Flatten(blocks)
  {
    if blocks != [] {
      ReaderReadsBlock(blocks[0]);
      ReaderReadsBlocks(blocks[1..]);
      PayloadsConcat(BlockLines(blocks[0]), StreamLines(blocks[1..]));
    }
  }

  lemma {:induction false} JoinedIsShorter(blocks: seq<seq<string>>)
    requires CleanBlocks(blocks)
    ensures |Joined(blocks)| == |blocks| <= |Flatten(blocks)|
    ensures |blocks| == |Flatten(blocks)| <==> SingleLines(blocks)
  {
    if blocks != [] {
      JoinedIsShorter(blocks[1..]);
      assert SingleLines(blocks) <==> |blocks[0]| == 1 && SingleLines(blocks[1..]);
    }
  }

  lemma {:induction false} SingleLinesJoin(blocks: seq<seq<string>>)
    requires SingleLines(blocks)
    ensures Joined(blocks) == Flatten(blocks)
  {
    if blocks != [] {
      SingleLinesJoin(blocks[1..]);
      assert blocks[0] == [Join(blocks[0], "\n")];
    }
  }

  /** The reader takes every data line for an event of its own, so it agrees with the standard exactly
      on streams whose events have one data line each, as the server's have. */
  lemma {:induction false} AgreesWithStandard(blocks: seq<seq<string>>)
    requires CleanBlocks(blocks)
    ensures Payloads(StreamLines(blocks)) == Dispatched(StreamLines(blocks), []) <==> SingleLines(blocks)
  {
    StandardReadsBlocks(blocks);
    ReaderReadsBlocks(blocks);
    JoinedIsShorter(blocks);
    if SingleLines(blocks) {
      SingleLinesJoin(blocks);
    }
  }
}
