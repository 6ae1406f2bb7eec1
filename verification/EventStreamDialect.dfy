/**
 The dialect the chat stream reader understands: one `event: ` line and one `data: ` line a frame.
 Printing in it and reading back loses nothing. Against section 9.2.6 of the WHATWG HTML standard it is
 narrower: on lines both take alike the two agree exactly up to one data line a frame, and below are
 differences on the other lines and on line ends. Comments, `id` and `retry` lines carry no data in
 either; carriage returns within a frame and the byte order mark are not compared.
 */
module EventStreamDialect {
  import opened Options
  import opened Text
  import opened EventStream

  predicate OneLine(s: string) {
    '\n' !in s
  }

  function PrintFrame(e: Event): string {
    "event: " + e.name + ['\n'] + ("data: " + e.data)
  }

  function PrintFrames(events: seq<Event>): seq<string> {
    seq(|events|, i requires 0 <= i < |events| => PrintFrame(events[i]))
  }

  /** A list of events on the wire: every frame ends in a blank line. */
  function PrintAll(events: seq<Event>): string {
    Joined(PrintFrames(events))
  }

  function ReadAll(frames: seq<string>): seq<Event> {
    seq(|frames|, i requires 0 <= i < |frames| => ReadFrame(frames[i]))
  }

  lemma LinesOfTwo(first: string, second: string)
    requires OneLine(first) && OneLine(second)
    ensures Lines(first + ['\n'] + second) == [first, second]
  {
    var s := first + ['\n'] + second;
    assert s[|first|] == '\n';
    assert forall k :: 0 <= k < |first| ==> s[k] == first[k];
    assert IndexOfNewline(s) == |first|;
    assert s[..|first|] == first && s[|first| + 1..] == second;
    assert Lines(second) == [second];
  }

  /** One frame comes back as it was printed exactly when its name carries no outer white space. */
  lemma FrameRoundTrip(e: Event)
    requires OneLine(e.name) && OneLine(e.data)
    ensures ReadFrame(PrintFrame(e)) == Event(Trim(e.name), e.data)
    ensures ReadFrame(PrintFrame(e)) == e <==> Trimmed(e.name)
  {
    var first, second := "event: " + e.name, "data: " + e.data;
    assert OneLine(first) && OneLine(second);
    LinesOfTwo(first, second);
    assert [first, second][..1] == [first];
    assert ReadLines([first]) == ReadLine(ReadLines([]), first);
    assert first[7..] == e.name && second[6..] == e.data && !StartsWith(second, "event: ");
    assert "" + e.data == e.data;
    TrimIsIdempotent(e.name);
    if Trimmed(e.name) {
      TrimKeepsTrimmed(e.name);
    }
  }

  lemma PrintedFrameHasNoBlank(e: Event)
    requires OneLine(e.name) && OneLine(e.data)
    ensures NoBlank(PrintFrame(e) + ['\n'])
  {
    var s := PrintFrame(e) + ['\n'];
    var n := 7 + |e.name|;
    assert forall k :: 0 <= k < |s| && s[k] == '\n' ==> k == n || k == |s| - 1 by {
      assert forall k :: 0 <= k < |e.name| ==> s[7 + k] == e.name[k];
      assert forall k :: 0 <= k < |e.data| ==> s[n + 7 + k] == e.data[k];
    }
    assert s[n + 1] == 'd';
  }

  /**
   Printing and reading back, however the network cuts the text: the frames a reader sees are the
   events that were printed.
   */
  lemma StreamRoundTrip(events: seq<Event>, chunks: seq<string>)
    requires forall i :: 0 <= i < |events| ==>
      OneLine(events[i].name) && Trimmed(events[i].name) && OneLine(events[i].data)
    requires Concat(chunks) == PrintAll(events)
    ensures ReadAll(Frames(Concat(chunks))) == events
  {
    var frames := PrintFrames(events);
    forall i | 0 <= i < |frames| ensures NoBlank(frames[i] + ['\n']) && ReadFrame(frames[i]) == events[i] {
      PrintedFrameHasNoBlank(events[i]);
      FrameRoundTrip(events[i]);
    }
    assert IsSplit(PrintAll(events), frames, "") by {
      assert PrintAll(events) + "" == PrintAll(events);
    }
    SplitIsUnique(PrintAll(events), frames, "");
  }

  // ---- what the handlers get

  /** The events handed over one after the other, up to the first that ends the stream. */
  function Delivered(events: seq<Event>, parse: string -> Option<Payload>): Reading {
    if events == [] then Reading([], Open)
    else
      var so := Delivered(events[..|events| - 1], parse);
      if so.ending != Open then so else Handle(so, events[|events| - 1], parse)
  }

  lemma {:induction false} FramesDeliverTheirEvents(frames: seq<string>, parse: string -> Option<Payload>)
    ensures ReadFrames(frames, parse) == Delivered(ReadAll(frames), parse)
  {
    if frames != [] {
      FramesDeliverTheirEvents(frames[..|frames| - 1], parse);
      assert ReadAll(frames)[..|frames| - 1] == ReadAll(frames[..|frames| - 1]);
    }
  }

  /** An event of an answer that goes well: it has data that parses, and a handler that takes it. */
  predicate Answers(e: Event, parse: string -> Option<Payload>) {
    e.data != "" && parse(e.data).Some?
    && (e.name == "start" || e.name == "done" || (e.name == "delta" && !parse(e.data).value.Null?))
  }

  /** The call such an event is for. */
  function CallFor(e: Event, parse: string -> Option<Payload>): Call
    requires Answers(e, parse)
  {
    var payload := parse(e.data).value;
    if e.name == "start" then OnStart(payload)
    else if e.name == "done" then OnDone(payload)
    else OnDelta(Or(payload.content, ""))
  }

  predicate AllAnswer(events: seq<Event>, parse: string -> Option<Payload>) {
    forall i :: 0 <= i < |events| ==> Answers(events[i], parse)
  }

  /** One call for every event, in order. */
  function Calls(events: seq<Event>, parse: string -> Option<Payload>): (calls: seq<Call>)
    requires AllAnswer(events, parse)
    ensures |calls| == |events| && forall i :: 0 <= i < |events| ==> calls[i] == CallFor(events[i], parse)
  {
    seq(|events|, i requires 0 <= i < |events| => CallFor(events[i], parse))
  }

  lemma {:induction false} EveryEventIsCalled(events: seq<Event>, parse: string -> Option<Payload>)
    requires AllAnswer(events, parse)
    ensures Delivered(events, parse) == Reading(Calls(events, parse), Open)
  {
    if events != [] {
      EveryEventIsCalled(events[..|events| - 1], parse);
      assert Answers(events[|events| - 1], parse);
    }
  }

  predicate Printable(events: seq<Event>) {
    forall i :: 0 <= i < |events| ==>
      OneLine(events[i].name) && Trimmed(events[i].name) && OneLine(events[i].data)
  }

  /**
   The round trip up to the handlers, however the network cuts the text: they are called as if each
   printed event had been handed to them.
   */
  lemma StreamReachesTheHandlers(events: seq<Event>, chunks: seq<string>, parse: string -> Option<Payload>)
    requires Printable(events) && Concat(chunks) == PrintAll(events)
    ensures ReadFrames(Frames(Concat(chunks)), parse) == Delivered(events, parse)
  {
    StreamRoundTrip(events, chunks);
    FramesDeliverTheirEvents(Frames(Concat(chunks)), parse);
  }

  /** For an answer that goes well that is one call for every event, in order, and no ending. */
  lemma AnswersReachTheHandlers(events: seq<Event>, chunks: seq<string>, parse: string -> Option<Payload>)
    requires Printable(events) && AllAnswer(events, parse) && Concat(chunks) == PrintAll(events)
    ensures ReadFrames(Frames(Concat(chunks)), parse) == Reading(Calls(events, parse), Open)
  {
    StreamReachesTheHandlers(events, chunks, parse);
    EveryEventIsCalled(events, parse);
  }

  // ---- the standard's reading of the same lines (section 9.2.6 of the WHATWG HTML standard)

  /** The standard's two buffers. */
  datatype Buffers = Buffers(name: string, data: string)

  function IndexOfColon(s: string): (i: int)
    ensures -1 <= i < |s|
    ensures i >= 0 ==> s[i] == ':'
    ensures forall k :: 0 <= k < (if i < 0 then |s| else i) ==> s[k] != ':'
  {
    if s == [] then -1
    else if s[0] == ':' then 0
    else
      var rest := IndexOfColon(s[1..]);
      if rest < 0 then -1 else rest + 1
  }

  function FieldOf(line: string): string {
    var i := IndexOfColon(line);
    if i < 0 then line else line[..i]
  }

  function ValueOf(line: string): string {
    var i := IndexOfColon(line);
    if i < 0 then ""
    else if StartsWith(line[i + 1..], " ") then line[i + 2..]
    else line[i + 1..]
  }

  function StandardLine(so: Buffers, line: string): Buffers {
    if FieldOf(line) == "event" then so.(name := ValueOf(line))
    else if FieldOf(line) == "data" then so.(data := so.data + ValueOf(line) + ['\n'])
    else so
  }

  function StandardLines(lines: seq<string>): Buffers {
    if lines == [] then Buffers("", "")
    else StandardLine(StandardLines(lines[..|lines| - 1]), lines[|lines| - 1])
  }

  /** The event the standard dispatches for a frame, if any. */
  function StandardEvent(lines: seq<string>): Option<Event> {
    var b := StandardLines(lines);
    if b.data == "" then None
    else Some(Event(if b.name == "" then "message" else b.name, b.data[..|b.data| - 1]))
  }

  /** A line both readings take the same way. */
  predicate Common(line: string) {
    || (StartsWith(line, "event: ") && line[7..] != "" && Trimmed(line[7..]))
    || (StartsWith(line, "data: ") && line[6..] != "")
    || (FieldOf(line) != "event" && FieldOf(line) != "data")
  }

  function DataLines(lines: seq<string>): nat {
    if lines == [] then 0
    else DataLines(lines[..|lines| - 1]) + (if StartsWith(lines[|lines| - 1], "data: ") then 1 else 0)
  }

  /** A field line splits at its first colon, and one leading space of the value is dropped. */
  lemma FieldLine(field: string, rest: string)
    requires ':' !in field
    ensures FieldOf(field + [':'] + rest) == field
    ensures ValueOf(field + [':'] + rest) == if StartsWith(rest, " ") then rest[1..] else rest
  {
    var line := field + [':'] + rest;
    assert line[|field|] == ':';
    assert forall k :: 0 <= k < |field| ==> line[k] == field[k];
    assert IndexOfColon(line) == |field|;
    assert line[..|field|] == field && line[|field| + 1..] == rest;
  }

  lemma EventLine(v: string)
    ensures "event: " + v == "event" + [':'] + (" " + v) && ("event: " + v)[7..] == v
    ensures FieldOf("event: " + v) == "event" && ValueOf("event: " + v) == v
    ensures StartsWith("event: " + v, "event: ") && !StartsWith("event: " + v, "data: ")
  {
    assert "event: " + v == "event" + [':'] + (" " + v);
    FieldLine("event", " " + v);
    assert (" " + v)[..1] == " " && (" " + v)[1..] == v;
    assert ("event: " + v)[..7] == "event: ";
    assert ("event: " + v)[0] == 'e' && "data: "[0] == 'd';
  }

  lemma DataLine(v: string)
    ensures "data: " + v == "data" + [':'] + (" " + v) && ("data: " + v)[6..] == v
    ensures FieldOf("data: " + v) == "data" && ValueOf("data: " + v) == v
    ensures StartsWith("data: " + v, "data: ") && !StartsWith("data: " + v, "event: ")
  {
    assert "data: " + v == "data" + [':'] + (" " + v);
    FieldLine("data", " " + v);
    assert (" " + v)[..1] == " " && (" " + v)[1..] == v;
    assert ("data: " + v)[..6] == "data: ";
    assert ("data: " + v)[0] == 'd' && "event: "[0] == 'e';
  }

  lemma CommonLine(line: string)
    requires Common(line)
    ensures StartsWith(line, "event: ") ==> FieldOf(line) == "event" && ValueOf(line) == line[7..]
    ensures StartsWith(line, "data: ") ==> FieldOf(line) == "data" && ValueOf(line) == line[6..]
    ensures FieldOf(line) == "event" ==> StartsWith(line, "event: ")
    ensures FieldOf(line) == "data" ==> StartsWith(line, "data: ")
  {
    if StartsWith(line, "event: ") {
      assert line == "event: " + line[7..];
      EventLine(line[7..]);
    } else if StartsWith(line, "data: ") {
      assert line == "data: " + line[6..];
      DataLine(line[6..]);
    }
  }

  /** The two readings of common lines, side by side: each data line is one character longer in the standard's. */
  lemma {:induction false} SideBySide(lines: seq<string>)
    requires forall i :: 0 <= i < |lines| ==> Common(lines[i])
    ensures var b, e := StandardLines(lines), ReadLines(lines);
      && e.name == (if b.name == "" then "message" else b.name)
      && |b.data| == |e.data| + DataLines(lines)
      && (DataLines(lines) == 0 <==> e.data == "")
      && (DataLines(lines) == 1 ==> b.data == e.data + ['\n'])
  {
    if lines != [] {
      var front, line := lines[..|lines| - 1], lines[|lines| - 1];
      SideBySide(front);
      CommonLine(line);
      if StartsWith(line, "event: ") {
        TrimKeepsTrimmed(line[7..]);
      } else if StartsWith(line, "data: ") {
        assert "" + line[6..] == line[6..];
      }
    }
  }

  /** The event the client hands over for a frame, if any. */
  function ClientEvent(lines: seq<string>): Option<Event> {
    if ReadLines(lines).data == "" then None else Some(ReadLines(lines))
  }

  /** On common lines the client dispatches what the standard does if and only if there is one data line at most. */
  lemma AgreesWithTheStandardIff(lines: seq<string>)
    requires forall i :: 0 <= i < |lines| ==> Common(lines[i])
    ensures StandardEvent(lines) == ClientEvent(lines) <==> DataLines(lines) <= 1
  {
    SideBySide(lines);
    var b, e := StandardLines(lines), ReadLines(lines);
    if DataLines(lines) == 1 {
      assert b.data[..|b.data| - 1] == e.data;
    }
    assert DataLines(lines) > 1 ==> |b.data[..|b.data| - 1]| > |e.data|;
  }

  // ---- where the dialect is narrower

  lemma OneFieldLine(a: string)
    ensures ReadLines([a]) == ReadLine(Event("message", ""), a)
    ensures StandardLines([a]) == StandardLine(Buffers("", ""), a)
  {
    var none: seq<string> := [];
    assert [a][..0] == none;
  }

  lemma TwoLines(a: string, b: string)
    ensures ReadLines([a, b]) == ReadLine(ReadLine(Event("message", ""), a), b)
    ensures StandardLines([a, b]) == StandardLine(StandardLine(Buffers("", ""), a), b)
  {
    OneFieldLine(a);
    var both := [a, b];
    assert both[..|both| - 1] == [a] && both[|both| - 1] == b;
    assert ReadLines(both) == ReadLine(ReadLines([a]), b);
    assert StandardLines(both) == StandardLine(StandardLines([a]), b);
  }

  /** Several data lines are run together, where the standard keeps them lines. */
  lemma DataLinesRunTogether(x: string, y: string)
    ensures ReadLines(["data: " + x, "data: " + y]) == Event("message", x + y)
    ensures StandardEvent(["data: " + x, "data: " + y]) == Some(Event("message", x + ['\n'] + y))
  {
    TwoLines("data: " + x, "data: " + y);
    DataLine(x);
    DataLine(y);
    assert "" + x == x;
    var data := "" + x + ['\n'] + y + ['\n'];
    assert StandardLines(["data: " + x, "data: " + y]) == Buffers("", data);
    assert data[..|data| - 1] == x + ['\n'] + y;
  }

  /** A data line without the space after its colon is not seen at all. */
  lemma SpaceIsRequired(x: string)
    requires !StartsWith(x, " ")
    ensures ReadLines(["data" + [':'] + x]).data == ""
    ensures StandardEvent(["data" + [':'] + x]) == Some(Event("message", x))
  {
    var line := "data" + [':'] + x;
    FieldLine("data", x);
    OneFieldLine(line);
    assert x != "" ==> x[..1] == [x[0]];
    assert "data: "[5] == ' ';
    if |line| > 5 {
      assert line[..6][5] == line[5] == x[0];
    }
    assert line[0] == 'd' && "event: "[0] == 'e';
    assert StandardLine(Buffers("", ""), line) == Buffers("", "" + x + ['\n']);
    assert ("" + x + ['\n'])[..|x|] == x;
  }

  /** A data line with nothing in it: no event here, and one with empty data in the standard. */
  lemma EmptyDataIsNoEvent()
    ensures ClientEvent(["data: "]) == None
    ensures StandardEvent(["data: "]) == Some(Event("message", ""))
  {
    OneFieldLine("data: ");
    DataLine("");
    assert "data: " + "" == "data: ";
    EmptyDataDispatches("data: ");
  }

  /** A data line that is the bare field name is not seen; the standard takes its value to be empty. */
  lemma BareDataIsNoEvent()
    ensures ClientEvent(["data"]) == None
    ensures StandardEvent(["data"]) == Some(Event("message", ""))
  {
    OneFieldLine("data");
    assert IndexOfColon("data") == -1;
    EmptyDataDispatches("data");
  }

  lemma EmptyDataDispatches(line: string)
    requires FieldOf(line) == "data" && ValueOf(line) == ""
    ensures StandardEvent([line]) == Some(Event("message", ""))
  {
    OneFieldLine(line);
    assert StandardLine(Buffers("", ""), line) == Buffers("", ['\n']);
  }

  /** An empty name stays empty here; in the standard the event is then a message. */
  lemma EmptyNameIsKept(data: string)
    requires data != ""
    ensures ClientEvent(["event: ", "data: " + data]) == Some(Event("", data))
    ensures StandardEvent(["event: ", "data: " + data]) == Some(Event("message", data))
  {
    EventLine("");
    DataLine(data);
    assert "event: " + "" == "event: ";
    TwoLines("event: ", "data: " + data);
    assert "" + data == data;
    var both := ["event: ", "data: " + data];
    assert StandardLines(both) == Buffers("", data + ['\n']);
    assert (data + ['\n'])[..|data|] == data;
  }

  lemma NameThenData(a: string, b: string, name: string, data: string)
    requires StartsWith(a, "event: ") && a[7..] == name && FieldOf(a) == "event" && ValueOf(a) == name
    requires !StartsWith(b, "event: ") && StartsWith(b, "data: ") && b[6..] == data
    requires FieldOf(b) == "data" && ValueOf(b) == data && name != ""
    ensures ReadLines([a, b]) == Event(Trim(name), data)
    ensures StandardEvent([a, b]) == Some(Event(name, data))
  {
    TwoLines(a, b);
    assert "" + data == data;
    var buffers := StandardLines([a, b]);
    assert buffers.name == name && buffers.data == data + ['\n'];
    assert buffers.data[..|data|] == data;
  }

  /** A name is trimmed, so the two readings name the event alike exactly when it needs no trimming. */
  lemma NamesAreTrimmed(name: string, data: string)
    requires name != ""
    ensures ReadLines(["event: " + name, "data: " + data]) == Event(Trim(name), data)
    ensures StandardEvent(["event: " + name, "data: " + data]) == Some(Event(name, data))
    ensures Trim(name) == name <==> Trimmed(name)
  {
    EventLine(name);
    DataLine(data);
    NameThenData("event: " + name, "data: " + data, name, data);
    TrimIsIdempotent(name);
    if Trimmed(name) {
      TrimKeepsTrimmed(name);
    }
  }

  /** In a text whose lines end in CR LF there is no frame at all. */
  lemma CrLfHasNoFrames(s: string)
    requires forall i :: 0 <= i < |s| && s[i] == '\n' ==> i > 0 && s[i - 1] == '\r'
    ensures Frames(s) == []
  {
    assert NoBlank(s);
  }
}
