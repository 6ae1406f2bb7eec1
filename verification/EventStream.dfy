/**
 The chat stream reader: a buffer that grows by what the network delivers and is drained at every
 blank line, one frame at a time.
 */
module EventStream {
  import opened Options
  import opened Text
  import opened Sequences

  // ---- frames of a whole text

  /** The first blank line, as `indexOf("\n\n")` answers it. */
  function IndexOfBlank(s: string): (i: int)
    ensures -1 <= i <= |s| - 2 || (i == -1 && |s| < 2)
    ensures i >= 0 ==> BlankAt(s, i)
    ensures forall k :: 0 <= k < |s| - 1 && (i < 0 || k < i) ==> !BlankAt(s, k)
  {
    if |s| < 2 then -1
    else if s[0] == '\n' && s[1] == '\n' then 0
    else
      var rest := IndexOfBlank(s[1..]);
      assert forall k :: 0 <= k < |s| - 2 ==> (BlankAt(s[1..], k) <==> BlankAt(s, k + 1));
      assert forall k :: 0 < k < |s| - 1 ==> BlankAt(s, k) ==> BlankAt(s[1..], k - 1);
      if rest < 0 then -1 else rest + 1
  }

  predicate BlankAt(s: string, i: int) {
    0 <= i < |s| - 1 && s[i] == '\n' && s[i + 1] == '\n'
  }

  predicate NoBlank(s: string) {
    forall i :: 0 <= i < |s| - 1 ==> !BlankAt(s, i)
  }

  /** A text split at its blank lines, leftmost first; what follows the last one is not a frame yet. */
  function Frames(s: string): seq<string>
    decreases |s|
  {
    var i := IndexOfBlank(s);
    if i < 0 then [] else [s[..i]] + Frames(s[i + 2..])
  }

  function Tail(s: string): string
    decreases |s|
  {
    var i := IndexOfBlank(s);
    if i < 0 then s else Tail(s[i + 2..])
  }

  function Concat(chunks: seq<string>): string {
    if chunks == [] then [] else Concat(chunks[..|chunks| - 1]) + chunks[|chunks| - 1]
  }

  /** Where the network cuts the text does not matter: the tail of one part goes on in the next. */
  lemma {:induction false} FramesOfAppend(a: string, b: string)
    ensures Frames(a + b) == Frames(a) + Frames(Tail(a) + b)
    ensures Tail(a + b) == Tail(Tail(a) + b)
    decreases |a|
  {
    var i := IndexOfBlank(a);
    if i >= 0 {
      BlankOfAppend(a, b);
      assert (a + b)[..i] == a[..i];
      assert (a + b)[i + 2..] == a[i + 2..] + b;
      FramesOfAppend(a[i + 2..], b);
    }
  }

  lemma BlankOfAppend(a: string, b: string)
    requires IndexOfBlank(a) >= 0
    ensures IndexOfBlank(a + b) == IndexOfBlank(a)
  {
    var i, k := IndexOfBlank(a), IndexOfBlank(a + b);
    assert BlankAt(a + b, i);
    assert k >= 0 && k <= i;
    assert k < i ==> BlankAt(a, k);
  }

  // ---- the frames are the only such split

  function Joined(frames: seq<string>): string {
    if frames == [] then [] else frames[0] + ['\n', '\n'] + Joined(frames[1..])
  }

  predicate IsSplit(s: string, frames: seq<string>, tail: string) {
    && s == Joined(frames) + tail && NoBlank(tail)
    && (forall i :: 0 <= i < |frames| ==> NoBlank(frames[i] + ['\n']))
  }

  lemma FirstFrameHasNoBlank(s: string)
    requires IndexOfBlank(s) >= 0
    ensures NoBlank(s[..IndexOfBlank(s)] + ['\n'])
  {
    var i := IndexOfBlank(s);
    assert forall k :: 0 <= k < i ==> (BlankAt(s[..i] + ['\n'], k) <==> BlankAt(s, k));
  }

  lemma {:induction false} FramesSplitTheText(s: string)
    ensures IsSplit(s, Frames(s), Tail(s))
    decreases |s|
  {
    var i := IndexOfBlank(s);
    if i >= 0 {
      var first, rest := s[..i], s[i + 2..];
      FramesSplitTheText(rest);
      FirstFrameHasNoBlank(s);
      CutAtBlank(s, i);
      OneMoreFrame(first, Frames(rest), Tail(rest));
    }
  }

  lemma CutAtBlank(s: string, i: nat)
    requires BlankAt(s, i)
    ensures s == s[..i] + ['\n', '\n'] + s[i + 2..]
  {
  }

  lemma OneMoreFrame(first: string, frames: seq<string>, tail: string)
    requires NoBlank(first + ['\n']) && IsSplit(Joined(frames) + tail, frames, tail)
    ensures IsSplit(first + ['\n', '\n'] + (Joined(frames) + tail), [first] + frames, tail)
  {
    var longer := [first] + frames;
    assert longer[1..] == frames;
    Regroup(first + ['\n', '\n'], Joined(frames), tail);
  }

  lemma {:induction false} OnlyOneSplit(s: string, frames: seq<string>, tail: string)
    requires IsSplit(s, frames, tail)
    ensures frames == Frames(s) && tail == Tail(s)
    decreases |frames|
  {
    if frames == [] {
      assert s == tail;
    } else {
      var f, rest := frames[0], Joined(frames[1..]) + tail;
      RestIsSplit(s, frames, tail);
      FirstBlank(f, rest);
      OnlyOneSplit(rest, frames[1..], tail);
      assert [f] + frames[1..] == frames;
    }
  }

  lemma RestIsSplit(s: string, frames: seq<string>, tail: string)
    requires IsSplit(s, frames, tail) && frames != []
    ensures s == frames[0] + ['\n', '\n'] + (Joined(frames[1..]) + tail) && NoBlank(frames[0] + ['\n'])
    ensures IsSplit(Joined(frames[1..]) + tail, frames[1..], tail)
  {
    Regroup(frames[0] + ['\n', '\n'], Joined(frames[1..]), tail);
  }

  /** A frame without a blank line in it ends at the first blank line of the text. */
  lemma FirstBlank(f: string, rest: string)
    requires NoBlank(f + ['\n'])
    ensures var s := f + ['\n', '\n'] + rest;
      IndexOfBlank(s) == |f| && s[..|f|] == f && s[|f| + 2..] == rest
  {
    var s := f + ['\n', '\n'] + rest;
    assert BlankAt(s, |f|);
    var i := IndexOfBlank(s);
    assert 0 <= i < |f| ==> BlankAt(f + ['\n'], i);
  }

  /** A text is split at its leftmost blank lines in exactly one way: into its frames and its tail. */
  lemma SplitIsUnique(s: string, frames: seq<string>, tail: string)
    ensures IsSplit(s, frames, tail) <==> frames == Frames(s) && tail == Tail(s)
  {
    FramesSplitTheText(s);
    if IsSplit(s, frames, tail) {
      OnlyOneSplit(s, frames, tail);
    }
  }

  // ---- one frame

  function Lines(s: string): seq<string>
    decreases |s|
  {
    var i := IndexOfNewline(s);
    if i < 0 then [s] else [s[..i]] + Lines(s[i + 1..])
  }

  function IndexOfNewline(s: string): (i: int)
    ensures -1 <= i < |s|
    ensures i >= 0 ==> s[i] == '\n'
    ensures forall k :: 0 <= k < (if i < 0 then |s| else i) ==> s[k] != '\n'
  {
    if s == [] then -1
    else if s[0] == '\n' then 0
    else
      var rest := IndexOfNewline(s[1..]);
      if rest < 0 then -1 else rest + 1
  }

  /** What a frame's lines say: the event's name and its data. */
  datatype Event = Event(name: string, data: string)

  function ReadLine(so: Event, line: string): Event {
    if StartsWith(line, "event: ") then so.(name := Trim(line[7..]))
    else if StartsWith(line, "data: ") then so.(data := so.data + line[6..])
    else so
  }

  function ReadLines(lines: seq<string>): Event {
    if lines == [] then Event("message", "")
    else ReadLine(ReadLines(lines[..|lines| - 1]), lines[|lines| - 1])
  }

  function ReadFrame(frame: string): Event {
    ReadLines(Lines(frame))
  }

  // ---- what the handlers see

  /** A parsed payload: an object's three fields the reader looks at, or a value without fields. */
  datatype Payload = Fields(content: Option<string>, code: Option<string>, message: Option<string>) | Null

  datatype Call = OnStart(info: Payload) | OnDelta(content: string) | OnDone(done: Payload)

  /** How far a stream has come: still readable, stopped by an error frame, or broken by bad data. */
  datatype Ending = Open | ApiError(code: string, message: string) | Broken

  datatype Reading = Reading(calls: seq<Call>, ending: Ending)

  function Or(value: Option<string>, default: string): string {
    match value
    case None => default
    case Some(v) => v
  }

  /** One event handed to the handlers. An event without data is skipped before it is parsed. */
  function Handle(so: Reading, e: Event, parse: string -> Option<Payload>): Reading {
    if e.data == "" then so
    else match parse(e.data)
      case None => so.(ending := Broken)
      case Some(payload) =>
        if e.name == "start" then so.(calls := so.calls + [OnStart(payload)])
        else if e.name == "delta" then
          if payload.Null? then so.(ending := Broken)
          else so.(calls := so.calls + [OnDelta(Or(payload.content, ""))])
        else if e.name == "done" then so.(calls := so.calls + [OnDone(payload)])
        else if e.name == "error" then
          if payload.Null? then so.(ending := Broken)
          else so.(ending := ApiError(Or(payload.code, "provider_error"),
                                      Or(payload.message, "The AI provider failed.")))
        else so
  }

  /** A list of frames handed over in order, up to the first one that ends the stream. */
  function ReadFrames(frames: seq<string>, parse: string -> Option<Payload>): Reading {
    if frames == [] then Reading([], Open)
    else
      var so := ReadFrames(frames[..|frames| - 1], parse);
      if so.ending != Open then so else Handle(so, ReadFrame(frames[|frames| - 1]), parse)
  }

  lemma {:induction false} NothingFollowsAnEnding(frames: seq<string>, more: seq<string>,
                                                  parse: string -> Option<Payload>)
    requires ReadFrames(frames, parse).ending != Open
    ensures ReadFrames(frames + more, parse) == ReadFrames(frames, parse)
  {
    if more == [] {
      assert frames + more == frames;
    } else {
      NothingFollowsAnEnding(frames, more[..|more| - 1], parse);
      assert (frames + more)[..|frames + more| - 1] == frames + more[..|more| - 1];
    }
  }

  // ---- the reader

  /** The lines of one frame, folded as the inner loop folds them. */
  method FoldLines(frame: string) returns (event: string, data: string)
    ensures Event(event, data) == ReadFrame(frame)
  {
    event, data := "message", "";
    var lines := Lines(frame);
    for i := 0 to |lines|
      invariant Event(event, data) == ReadLines(lines[..i])
    {
      var line := lines[i];
      assert lines[..i + 1][..i] == lines[..i];
      if StartsWith(line, "event: ") {
        event := Trim(line[7..]);
      } else if StartsWith(line, "data: ") {
        data := data + line[6..];
      }
    }
    assert lines[..|lines|] == lines;
  }

  /** The frames the chunks after the first `k` complete. */
  function FramesAfter(chunks: seq<string>, k: nat): seq<string>
    requires k <= |chunks|
  {
    Frames(Tail(Concat(chunks[..k])) + Concat(chunks[k..]))
  }

  lemma {:induction false} ConcatSplits(chunks: seq<string>, k: nat)
    requires k <= |chunks|
    ensures Concat(chunks) == Concat(chunks[..k]) + Concat(chunks[k..])
  {
    if k == |chunks| {
      assert chunks[..k] == chunks;
    } else {
      var front := chunks[..|chunks| - 1];
      ConcatSplits(front, k);
      assert front[..k] == chunks[..k] && chunks[k..][..|chunks[k..]| - 1] == front[k..];
    }
  }

  lemma TextHasFramesOfPrefix(chunks: seq<string>, k: nat)
    requires k <= |chunks|
    ensures Frames(Concat(chunks)) == Frames(Concat(chunks[..k])) + FramesAfter(chunks, k)
  {
    ConcatSplits(chunks, k);
    FramesOfAppend(Concat(chunks[..k]), Concat(chunks[k..]));
  }

  /** Taking the first frame off the buffer. */
  lemma OneFrame(read: seq<string>, buffer: string, parse: string -> Option<Payload>)
    requires IndexOfBlank(buffer) >= 0 && ReadFrames(read, parse).ending == Open
    ensures var i := IndexOfBlank(buffer);
      && read + Frames(buffer) == (read + [buffer[..i]]) + Frames(buffer[i + 2..])
      && Tail(buffer) == Tail(buffer[i + 2..])
      && ReadFrames(read + [buffer[..i]], parse) ==
         Handle(ReadFrames(read, parse), ReadFrame(buffer[..i]), parse)
  {
    var i := IndexOfBlank(buffer);
    var frame, rest := buffer[..i], Frames(buffer[i + 2..]);
    assert Frames(buffer) == [frame] + rest;
    Regroup(read, [frame], rest);
    assert (read + [frame])[..|read|] == read;
  }

  /** What was read when the stream ended is what the whole text says. */
  lemma EndedReadingIsTheWhole(chunks: seq<string>, k: nat, read: seq<string>, buffer: string,
                               parse: string -> Option<Payload>)
    requires k < |chunks| && ReadFrames(read, parse).ending != Open
    requires Frames(Concat(chunks[..k + 1])) == read + Frames(buffer)
    ensures ReadFrames(Frames(Concat(chunks)), parse) == ReadFrames(read, parse)
  {
    NothingFollowsAnEnding(read, Frames(buffer), parse);
    TextHasFramesOfPrefix(chunks, k + 1);
    NothingFollowsAnEnding(read + Frames(buffer), FramesAfter(chunks, k + 1), parse);
  }

  /** One more chunk: the frames of the text so far, and the buffer that is left to drain. */
  lemma OneChunk(chunks: seq<string>, k: nat)
    requires k < |chunks|
    ensures var text, buffer := Concat(chunks[..k]), Tail(Concat(chunks[..k])) + chunks[k];
      && Frames(Concat(chunks[..k + 1])) == Frames(text) + Frames(buffer)
      && Tail(Concat(chunks[..k + 1])) == Tail(buffer)
  {
    assert chunks[..k + 1][..k] == chunks[..k];
    FramesOfAppend(Concat(chunks[..k]), chunks[k]);
  }

  /**
   The streaming loop. Whatever the chunks are, the handlers see what the whole text's frames say,
   up to the first frame that ends the stream; an unterminated tail is dropped.
   */
  method StreamChat(chunks: seq<string>, parse: string -> Option<Payload>) returns (reading: Reading)
    ensures reading == ReadFrames(Frames(Concat(chunks)), parse)
  {
    reading := Reading([], Open);
    var buffer := "";
    for k := 0 to |chunks|
      invariant reading == ReadFrames(Frames(Concat(chunks[..k])), parse) && reading.ending == Open
      invariant buffer == Tail(Concat(chunks[..k]))
    {
      OneChunk(chunks, k);
      ghost var read := Frames(Concat(chunks[..k]));
      buffer := buffer + chunks[k];

      var boundary := IndexOfBlank(buffer);
      while boundary >= 0
        invariant boundary == IndexOfBlank(buffer)
        invariant Frames(Concat(chunks[..k + 1])) == read + Frames(buffer)
        invariant Tail(Concat(chunks[..k + 1])) == Tail(buffer)
        invariant reading == ReadFrames(read, parse) && reading.ending == Open
        decreases |buffer|
      {
        OneFrame(read, buffer, parse);
        var frame := buffer[..boundary];
        read := read + [frame];
        buffer := buffer[boundary + 2..];
        boundary := IndexOfBlank(buffer);

        var event, data := FoldLines(frame);
        reading := Handle(reading, Event(event, data), parse);
        if reading.ending != Open {
          EndedReadingIsTheWhole(chunks, k, read, buffer, parse);
          return;
        }
      }
      assert read + [] == read;
    }
    assert chunks[..|chunks|] == chunks;
  }
}
