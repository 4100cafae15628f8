/** The event stream between server and browser: one printer, and the browser's incremental
    parser (sections 9.2.5 and 9.2.6 of the WHATWG HTML Living Standard). */
module Sse {
  import opened Prelude
  import opened JsonText

  // ---- The printer ----

  datatype Event = Event(name: string, payload: string)

  const LF: string := ['\n']

  function EventLine(e: Event): string { "event: " + e.name }

  function DataLine(e: Event): string { "data: " + e.payload }

  function Print(e: Event): string { EventLine(e) + (LF + (DataLine(e) + (LF + LF))) }

  function PrintAll(events: seq<Event>): string {
    if events == [] then "" else Print(events[0]) + PrintAll(events[1..])
  }

  // ---- Lines and frames, as the two regular expressions of the browser cut them ----

  predicate Starts(s: string, prefix: string) { prefix <= s }

  /** `/\r?\n/`: where a line ends and how long its end is. */
  function LineEnd(s: string): (r: Option<(nat, nat)>)
    ensures r.Some? ==> r.value.1 > 0 && r.value.0 + r.value.1 <= |s|
  {
    if s == "" then None
    else if s[0] == '\n' then Some((0, 1))
    else if |s| >= 2 && s[0] == '\r' && s[1] == '\n' then Some((0, 2))
    else
      match LineEnd(s[1..])
      case None => None
      case Some((at, length)) => Some((at + 1, length))
  }

  function SplitLines(s: string): seq<string>
    decreases |s|
  {
    match LineEnd(s)
    case None => [s]
    case Some((at, length)) => [s[..at]] + SplitLines(s[at + length..])
  }

  /** `/\r?\n\r?\n/` matches at the start of `s`. */
  predicate BreakAt(s: string) {
    || (|s| >= 2 && s[0] == '\n' && s[1] == '\n')
    || (|s| >= 3 && s[0] == '\n' && s[1] == '\r' && s[2] == '\n')
    || (|s| >= 3 && s[0] == '\r' && s[1] == '\n' && s[2] == '\n')
    || (|s| >= 4 && s[0] == '\r' && s[1] == '\n' && s[2] == '\r' && s[3] == '\n')
  }

  /** The position of the earliest frame boundary. */
  function FirstBreak(s: string): (r: Option<nat>)
    ensures r.Some? ==> r.value + 2 <= |s|
  {
    if s == "" then None
    else if BreakAt(s) then Some(0)
    else
      match FirstBreak(s[1..])
      case None => None
      case Some(at) => Some(at + 1)
  }

  /** Four characters are dropped for two CR LF pairs, two in every other case. */
  function SeparatorLength(s: string): (n: nat)
    requires |s| >= 2
    ensures 2 <= n <= |s|
  {
    if |s| >= 4 && s[0] == '\r' && s[1] == '\n' && s[2] == '\r' && s[3] == '\n' then 4 else 2
  }

  // ---- One frame ----

  datatype Callback = OnToken(text: string) | OnDone(source: string) | OnError(source: string)

  datatype Effect = Nothing | Token(text: string) | Done(source: string) | Error(source: string) | Malformed

  /** The event name and the data lines of a frame; a later name replaces an earlier one. */
  datatype Fields = Fields(event: string, data: seq<string>)

  function WithLine(f: Fields, line: string): Fields {
    if Starts(line, "event:") then f.(event := Trim(line[6..]))
    else if Starts(line, "data:") then
      var value := line[5..];
      f.(data := f.data + [if value != "" && value[0] == ' ' then value[1..] else value])
    else f
  }

  function FieldsOf(lines: seq<string>): Fields
    decreases |lines|
  {
    if lines == [] then Fields("message", []) else WithLine(FieldsOf(lines[..|lines| - 1]), lines[|lines| - 1])
  }

  function JoinLines(lines: seq<string>): string
    requires lines != []
  {
    if |lines| == 1 then lines[0] else lines[0] + LF + JoinLines(lines[1..])
  }

  function EffectOf(f: Fields, objects: string -> Option<Value>): Effect {
    if f.data == [] then Nothing
    else
      match Parse(JoinLines(f.data), objects)
      case None => Malformed
      case Some(v) =>
        if f.event == "token" then (if v.Text? then Token(v.text) else Malformed)
        else if f.event == "done" then (if v.Object? then Done(v.source) else Malformed)
        else if f.event == "error" then (if v.Object? && v.hasMessage then Error(v.source) else Malformed)
        else Nothing
  }

  function FrameEffect(frame: string, objects: string -> Option<Value>): Effect {
    EffectOf(FieldsOf(SplitLines(frame)), objects)
  }

  // ---- A whole text ----

  /** Where the reader stands: reading, past a terminal event, or stopped by a protocol error. */
  datatype Status = Reading | Ended | Broken

  datatype Outcome = Outcome(callbacks: seq<Callback>, remaining: string, status: Status)

  function After(e: Effect): seq<Callback> {
    match e
    case Token(t) => [OnToken(t)]
    case Done(s) => [OnDone(s)]
    case Error(s) => [OnError(s)]
    case _ => []
  }

  function StatusAfter(e: Effect): Status {
    if e.Malformed? then Broken else if e.Done? || e.Error? then Ended else Reading
  }

  /** What follows the first boundary. */
  function Rest(text: string): (r: string)
    requires FirstBreak(text).Some?
    ensures |r| < |text|
  {
    var at := FirstBreak(text).value;
    text[at + SeparatorLength(text[at..])..]
  }

  function Consume(text: string, objects: string -> Option<Value>): Outcome
    decreases |text|
  {
    match FirstBreak(text)
    case None => Outcome([], text, Reading)
    case Some(at) => Onward(FrameEffect(text[..at], objects), Rest(text), Consume(Rest(text), objects))
  }

  /** A terminal event or a malformed frame ends the reading. */
  function Onward(e: Effect, rest: string, more: Outcome): Outcome {
    if StatusAfter(e) != Reading then Outcome(After(e), rest, StatusAfter(e))
    else Outcome(After(e) + more.callbacks, more.remaining, more.status)
  }

  /** At the end of the text, what is left is looked at once more; a stream without a terminal
      event is a protocol error. */
  function Finish(o: Outcome, objects: string -> Option<Value>): (seq<Callback>, Status) {
    if o.status != Reading then (o.callbacks, o.status)
    else if Blank(o.remaining) then (o.callbacks, Broken)
    else
      var e := FrameEffect(o.remaining, objects);
      (o.callbacks + After(e), if StatusAfter(e) == Reading then Broken else StatusAfter(e))
  }

  /** What a reader that is given the whole text at once reports. */
  function ReadWhole(text: string, objects: string -> Option<Value>): (seq<Callback>, Status) {
    Finish(Consume(text, objects), objects)
  }

  // ---- Arrival in pieces does not matter ----

  /** A boundary once seen stays the first boundary, and as long, when more text arrives. */
  lemma {:induction false} BreakIsStable(x: string, y: string)
    requires FirstBreak(x).Some?
    ensures FirstBreak(x + y) == FirstBreak(x)
    ensures var at := FirstBreak(x).value; SeparatorLength((x + y)[at..]) == SeparatorLength(x[at..])
  {
    var at := FirstBreak(x).value;
    if BreakAt(x) {
      assert x[0..] == x && (x + y)[0..] == x + y;
    } else {
      assert (x + y)[1..] == x[1..] + y;
      BreakIsStable(x[1..], y);
      assert x[1..][at - 1..] == x[at..] && (x[1..] + y)[at - 1..] == (x + y)[at..];
      NoEarlierBreak(x, y);
    }
  }

  lemma {:induction false} BreaksThere(s: string)
    requires FirstBreak(s).Some?
    ensures BreakAt(s[FirstBreak(s).value..])
  {
    if BreakAt(s) {
      assert s[0..] == s;
    } else {
      BreaksThere(s[1..]);
      assert s[1..][FirstBreak(s[1..]).value..] == s[FirstBreak(s).value..];
    }
  }

  lemma NoEarlierBreak(x: string, y: string)
    requires x != "" && !BreakAt(x) && FirstBreak(x[1..]).Some?
    ensures !BreakAt(x + y)
  {
    var at := FirstBreak(x[1..]).value;
    BreaksThere(x[1..]);
    assert BreakAt(x[1..][at..]) && x[1..][at..] == x[at + 1..];
    assert |x| >= 3;
    if |x| == 3 { assert at == 0 && x[1..][0..] == x[1..] && x[1] == '\n' && x[2] == '\n'; }
  }

  lemma RestOfMore(x: string, y: string)
    requires FirstBreak(x).Some?
    ensures FirstBreak(x + y) == FirstBreak(x) && Rest(x + y) == Rest(x) + y
    ensures var at := FirstBreak(x).value; (x + y)[..at] == x[..at]
  {
    BreakIsStable(x, y);
  }

  /** Reading on from what was left. */
  ghost predicate Continues(whole: Outcome, first: Outcome, more: Outcome) {
    if first.status == Reading then whole == Outcome(first.callbacks + more.callbacks, more.remaining, more.status)
    else whole.callbacks == first.callbacks && whole.status == first.status
  }

  lemma OnwardContinues(e: Effect, rest: string, rest': string, whole: Outcome, first: Outcome, more: Outcome)
    requires Continues(whole, first, more)
    ensures Continues(Onward(e, rest', whole), Onward(e, rest, first), more)
  {
    if StatusAfter(e) == Reading && first.status == Reading {
      assert After(e) + (first.callbacks + more.callbacks) == After(e) + first.callbacks + more.callbacks;
    }
  }

  /** Reading a text in two pieces is the same as reading it all at once. */
  lemma {:induction false} ConsumeInPieces(x: string, y: string, objects: string -> Option<Value>)
    ensures Continues(Consume(x + y, objects), Consume(x, objects), Consume(Consume(x, objects).remaining + y, objects))
    decreases |x|
  {
    match FirstBreak(x)
    case None =>
    case Some(at) =>
      RestOfMore(x, y);
      ConsumeInPieces(Rest(x), y, objects);
      var e, first := FrameEffect(x[..at], objects), Consume(Rest(x), objects);
      if StatusAfter(e) == Reading {
        OnwardContinues(e, Rest(x), Rest(x + y), Consume(Rest(x + y), objects), first, Consume(first.remaining + y, objects));
      }
  }

  lemma {:induction false} NothingLeftToConsume(text: string, objects: string -> Option<Value>)
    ensures var o := Consume(text, objects);
      o.status == Reading ==> Consume(o.remaining, objects) == Outcome([], o.remaining, Reading)
    decreases |text|
  {
    match FirstBreak(text)
    case None =>
    case Some(at) => NothingLeftToConsume(Rest(text), objects);
  }

  // ---- The browser's code ----

  method ParseFrame(frame: string, objects: string -> Option<Value>) returns (e: Effect)
    ensures e == FrameEffect(frame, objects)
  {
    var lines := SplitLines(frame);
    var event, data := "message", [];
    for i := 0 to |lines|
      invariant Fields(event, data) == FieldsOf(lines[..i])
    {
      assert lines[..i + 1][..i] == lines[..i];
      var line := lines[i];
      if Starts(line, "event:") {
        event := Trim(line[6..]);
      } else if Starts(line, "data:") {
        var value := line[5..];
        data := data + [if value != "" && value[0] == ' ' then value[1..] else value];
      }
    }
    assert lines[..|lines|] == lines;
    if data == [] { return Nothing; }
    var payload := Parse(JoinLines(data), objects);
    if payload.None? { return Malformed; }
    if event == "token" { return if payload.value.Text? then Token(payload.value.text) else Malformed; }
    if event == "done" { return if payload.value.Object? then Done(payload.value.source) else Malformed; }
    if event == "error" {
      return if payload.value.Object? && payload.value.hasMessage then Error(payload.value.source) else Malformed;
    }
    return Nothing;
  }

  /** An outcome with the callbacks that came before it. */
  function Later(callbacks: seq<Callback>, o: Outcome): Outcome {
    Outcome(callbacks + o.callbacks, o.remaining, o.status)
  }

  lemma OneFrame(callbacks: seq<Callback>, text: string, objects: string -> Option<Value>)
    requires FirstBreak(text).Some?
    ensures var e := FrameEffect(text[..FirstBreak(text).value], objects);
      Later(callbacks, Consume(text, objects)) ==
        if StatusAfter(e) == Reading then Later(callbacks + After(e), Consume(Rest(text), objects))
        else Outcome(callbacks + After(e), Rest(text), StatusAfter(e))
  {
    var e, more := FrameEffect(text[..FirstBreak(text).value], objects), Consume(Rest(text), objects);
    assert callbacks + (After(e) + more.callbacks) == callbacks + After(e) + more.callbacks;
  }

  method ConsumeFrames(buffer: string, objects: string -> Option<Value>)
    returns (callbacks: seq<Callback>, remaining: string, status: Status)
    ensures Outcome(callbacks, remaining, status) == Consume(buffer, objects)
  {
    callbacks, remaining, status := [], buffer, Reading;
    assert Later([], Consume(buffer, objects)) == Consume(buffer, objects);
    while true
      invariant Consume(buffer, objects) == Later(callbacks, Consume(remaining, objects)) && status == Reading
      decreases |remaining|
    {
      assert callbacks + [] == callbacks;
      var boundary := FirstBreak(remaining);
      if boundary.None? { return; }
      OneFrame(callbacks, remaining, objects);
      var e := ParseFrame(remaining[..boundary.value], objects);
      remaining := Rest(remaining);
      callbacks, status := callbacks + After(e), StatusAfter(e);
      if status != Reading { return; }
    }
  }

  /** What has been read so far determines where the reader stands. */
  ghost predicate UpTo(read: string, whole: string, objects: string -> Option<Value>,
                       callbacks: seq<Callback>, buffer: string, status: Status) {
    if status == Reading then Consume(read, objects) == Outcome(callbacks, buffer, Reading)
    else Consume(whole, objects).callbacks == callbacks && Consume(whole, objects).status == status
  }

  lemma OneChunk(read: string, chunk: string, later: string, objects: string -> Option<Value>,
                 callbacks: seq<Callback>, buffer: string, more: Outcome)
    requires UpTo(read, read + chunk + later, objects, callbacks, buffer, Reading)
    requires more == Consume(buffer + chunk, objects)
    ensures UpTo(read + chunk, read + chunk + later, objects, callbacks + more.callbacks, more.remaining, more.status)
  {
    ConsumeInPieces(read, chunk, objects);
    ConsumeInPieces(read + chunk, later, objects);
  }

  /** The read loop over the decoded chunks, and what is left when the connection ends. */
  method StreamJson(chunks: seq<string>, objects: string -> Option<Value>)
    returns (callbacks: seq<Callback>, status: Status)
    ensures (callbacks, status) == ReadWhole(Concat(chunks), objects)
  {
    callbacks, status := [], Reading;
    var buffer, i := "", 0;
    ghost var whole := Concat(chunks);
    while status == Reading && i < |chunks|
      invariant i <= |chunks| && UpTo(Concat(chunks[..i]), whole, objects, callbacks, buffer, status)
    {
      ghost var read, before, later := Concat(chunks[..i]), buffer, Concat(chunks[i + 1..]);
      ConcatSplit(chunks, i);
      var more, rest, state := ConsumeFrames(buffer + chunks[i], objects);
      OneChunk(read, chunks[i], later, objects, callbacks, buffer, Outcome(more, rest, state));
      callbacks, buffer, status := callbacks + more, rest, state;
      i := i + 1;
    }
    if status == Reading {
      assert chunks[..i] == chunks;
      NothingLeftToConsume(whole, objects);
      assert callbacks + [] == callbacks;
      var more, rest, state := ConsumeFrames(buffer, objects);
      callbacks, buffer, status := callbacks + more, rest, state;
      if !Blank(buffer) {
        var e := ParseFrame(buffer, objects);
        callbacks, status := callbacks + After(e), StatusAfter(e);
      }
      if status == Reading { status := Broken; }
    }
  }
}
