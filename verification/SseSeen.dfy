/** What the observability middleware sees of a stream that the server prints. */
module SseSeen {
  import opened Prelude
  import opened JsonText
  import opened SseMiddleware
  import Sse
  import SseRoundTrip

  // ---- Lines ----

  predicate OnOneLine(s: string) { forall i :: 0 <= i < |s| ==> !EndsLine(s[i]) }

  lemma {:induction false} PyLineStops(line: string, end: char, rest: string)
    requires OnOneLine(line) && EndsLine(end)
    ensures PyLine(line + ([end] + rest)) == line
  {
    if line != "" {
      assert (line + ([end] + rest))[1..] == line[1..] + ([end] + rest);
      PyLineStops(line[1..], end, rest);
    }
  }

  lemma {:induction false} PyLineIsAll(line: string)
    requires OnOneLine(line)
    ensures PyLine(line) == line
  {
    if line != "" { PyLineIsAll(line[1..]); }
  }

  lemma PyFirstLine(line: string, end: char, rest: string, text: string)
    requires OnOneLine(line) && EndsLine(end) && end != '\r' && text == line + ([end] + rest)
    ensures PyLines(text) == [line] + PyLines(rest)
  {
    PyLineStops(line, end, rest);
    assert text[|line|] == end && text[|line| + 1..] == rest;
  }

  lemma PyLastLine(line: string)
    requires OnOneLine(line) && line != ""
    ensures PyLines(line) == [line]
  {
    PyLineIsAll(line);
  }

  lemma SeenInTwo(a: string, b: string)
    ensures SeenIn([a, b]) == WithLine(WithLine(Seen(None, None), a), b)
  {
    assert [a, b][..1] == [a] && [a][..0] == [];
    assert SeenIn([a]) == WithLine(SeenIn([]), a);
  }

  lemma NameLine(f: Seen, name: string)
    requires Trimmed(name)
    ensures WithLine(f, "event: " + name) == f.(name := Some(name))
  {
    var line := "event: " + name;
    assert line[..6] == "event:" && line[6..] == [' '] + name && ([' '] + name)[1..] == name;
    assert TrimLeft([' '] + name) == TrimLeft(name) == name;
  }

  lemma ValueLine(f: Seen, value: string)
    requires Trimmed(value)
    ensures WithLine(f, "data: " + value) == f.(data := Some(value))
  {
    var line := "data: " + value;
    assert line[..5] == "data:" && line[5..] == [' '] + value && ([' '] + value)[1..] == value;
    assert line[0] != "event:"[0];
    assert TrimLeft([' '] + value) == TrimLeft(value) == value;
  }

  lemma {:induction false} PyLineIsOneLine(s: string)
    ensures OnOneLine(PyLine(s))
  {
    if s != "" && !EndsLine(s[0]) { PyLineIsOneLine(s[1..]); }
  }

  lemma {:induction false} PyLinesAreOneLine(s: string)
    ensures forall i :: 0 <= i < |PyLines(s)| ==> OnOneLine(PyLines(s)[i])
    decreases |s|
  {
    if s != "" {
      var line := PyLine(s);
      PyLineIsOneLine(s);
      if |line| < |s| {
        var skip := if s[|line|] == '\r' && |line| + 1 < |s| && s[|line| + 1] == '\n' then 2 else 1;
        PyLinesAreOneLine(s[|line| + skip..]);
      }
    }
  }

  lemma {:induction false} TrimLeftIsSuffix(s: string)
    ensures |TrimLeft(s)| <= |s| && TrimLeft(s) == s[|s| - |TrimLeft(s)|..]
  {
    if s != "" && IsSpace(s[0]) { TrimLeftIsSuffix(s[1..]); }
  }

  lemma TrimKeepsOneLine(s: string)
    requires OnOneLine(s)
    ensures OnOneLine(Trim(s))
  {
    TrimLeftIsSuffix(s);
    TrimRightCuts(TrimLeft(s));
  }

  lemma {:induction false} SeenDataIsOneLine(lines: seq<string>)
    requires forall i :: 0 <= i < |lines| ==> OnOneLine(lines[i])
    ensures SeenIn(lines).data.Some? ==> OnOneLine(SeenIn(lines).data.value)
    decreases |lines|
  {
    if lines != [] {
      var line := lines[|lines| - 1];
      SeenDataIsOneLine(lines[..|lines| - 1]);
      if Sse.Starts(line, "data:") { TrimKeepsOneLine(line[5..]); }
    }
  }

  // ---- One event ----

  function Body(e: Sse.Event): string { Sse.EventLine(e) + (Sse.LF + Sse.DataLine(e)) }

  predicate Named(e: Sse.Event) { Trimmed(e.name) && OnOneLine(e.name) && Trimmed(e.payload) }

  predicate SeenAsPrinted(e: Sse.Event) { EventOf(Body(e)) == [(e.name, Some(e.payload))] }

  lemma OneLineIsSeen(e: Sse.Event)
    requires Named(e) && OnOneLine(e.payload)
    ensures SeenAsPrinted(e)
  {
    var a, b := Sse.EventLine(e), Sse.DataLine(e);
    assert OnOneLine("event: ") && OnOneLine("data: ");
    PyFirstLine(a, '\n', b, a + (Sse.LF + b));
    PyLastLine(b);
    assert [a] + [b] == [a, b];
    SeenInTwo(a, b);
    NameLine(Seen(None, None), e.name);
    ValueLine(Seen(Some(e.name), None), e.payload);
  }

  /** An event is seen with its name and payload exactly when no character of the payload ends
      a line for `splitlines`. */
  lemma PrintedEventIsSeenIff(e: Sse.Event)
    requires Named(e)
    ensures SeenAsPrinted(e) <==> OnOneLine(e.payload)
  {
    if OnOneLine(e.payload) {
      OneLineIsSeen(e);
    } else {
      PyLinesAreOneLine(Body(e));
      SeenDataIsOneLine(PyLines(Body(e)));
    }
  }

  // ---- Tokens ----

  /** The line ends that a printed JSON string holds as they are. */
  predicate Separates(c: char) { c == '\U{85}' || c == '\U{2028}' || c == '\U{2029}' }

  predicate NoSeparator(s: string) { forall i :: 0 <= i < |s| ==> !Separates(s[i]) }

  function TokenEvent(text: string): Sse.Event { Sse.Event("token", Quote(text)) }

  lemma OneLineOfSum(a: string, b: string)
    ensures OnOneLine(a + b) <==> OnOneLine(a) && OnOneLine(b)
  {
    if OnOneLine(a + b) {
      assert forall i :: 0 <= i < |a| ==> a[i] == (a + b)[i];
      assert forall i :: 0 <= i < |b| ==> b[i] == (a + b)[|a| + i];
    }
  }

  lemma EscapedCharIsOneLine(c: char)
    ensures OnOneLine(EscapeChar(c)) <==> !Separates(c)
  {
    if Separates(c) { assert EscapeChar(c)[0] == c; }
  }

  lemma NoSeparatorInParts(s: string)
    requires s != ""
    ensures NoSeparator(s) <==> !Separates(s[0]) && NoSeparator(s[1..])
  {
    if !Separates(s[0]) && NoSeparator(s[1..]) {
      assert forall i :: 0 < i < |s| ==> s[i] == s[1..][i - 1];
    }
  }

  lemma {:induction false} EscapeIsOneLine(s: string)
    ensures OnOneLine(Escape(s)) <==> NoSeparator(s)
  {
    if s != "" {
      EscapedCharIsOneLine(s[0]);
      EscapeIsOneLine(s[1..]);
      OneLineOfSum(EscapeChar(s[0]), Escape(s[1..]));
      NoSeparatorInParts(s);
    }
  }

  lemma QuoteIsOneLineIff(s: string)
    ensures OnOneLine(Quote(s)) <==> NoSeparator(s)
  {
    EscapeIsOneLine(s);
    OneLineOfSum(['"'] + Escape(s), ['"']);
    OneLineOfSum(['"'], Escape(s));
  }

  /** A printed token is seen exactly when its text has no next line, line separator or
      paragraph separator: these are line ends, and JSON prints them as they are. */
  lemma TokenIsSeenIff(text: string)
    ensures SeenAsPrinted(TokenEvent(text)) <==> NoSeparator(text)
  {
    QuoteIsOneLineIff(text);
    assert OnOneLine("token") && Trimmed("token") && Trimmed(Quote(text));
    PrintedEventIsSeenIff(TokenEvent(text));
  }

  lemma PyFourLines(a: string, b: string, c: string, d: string, sep: char)
    requires OnOneLine(a) && OnOneLine(b) && OnOneLine(c) && OnOneLine(d) && d != ""
    requires EndsLine(sep) && sep != '\r'
    ensures PyLines(a + (['\n'] + (b + ([sep] + (c + ([sep] + d)))))) == [a, b, c, d]
  {
    var third := c + ([sep] + d);
    var second := b + ([sep] + third);
    PyLastLine(d);
    PyFirstLine(c, sep, d, third);
    PyFirstLine(b, sep, third, second);
    PyFirstLine(a, '\n', second, a + (['\n'] + second));
    assert [a] + ([b] + ([c] + [d])) == [a, b, c, d];
  }

  lemma SeenInFour(a: string, b: string, c: string, d: string)
    ensures SeenIn([a, b, c, d]) == WithLine(WithLine(WithLine(WithLine(Seen(None, None), a), b), c), d)
  {
    assert [a, b, c, d][..3] == [a, b, c] && [a, b, c][..2] == [a, b];
    SeenInTwo(a, b);
    assert SeenIn([a, b, c]) == WithLine(SeenIn([a, b]), c);
  }

  const QUOTE := "\""

  lemma MistakenFields(name: string)
    requires Trimmed(name)
    ensures SeenIn(["event: " + "token", "data: " + QUOTE, "event: " + name, QUOTE]) == Seen(Some(name), Some(QUOTE))
  {
    SeenInFour("event: " + "token", "data: " + QUOTE, "event: " + name, QUOTE);
    NameLine(Seen(None, None), "token");
    ValueLine(Seen(Some("token"), None), QUOTE);
    NameLine(Seen(Some("token"), Some(QUOTE)), name);
    assert QUOTE[0] != "event:"[0] && QUOTE[0] != "data:"[0];
  }

  /** The text of a token that holds a whole name line between line separators. */
  function Separated(name: string): string { ['\U{2028}'] + (("event: " + name) + ['\U{2028}']) }

  /** Nothing in it is escaped. */
  predicate Plain(s: string) { forall i :: 0 <= i < |s| ==> EscapeChar(s[i]) == [s[i]] }

  lemma {:induction false} PlainIsKept(s: string)
    requires Plain(s)
    ensures Escape(s) == s
  {
    if s != "" {
      PlainIsKept(s[1..]);
      assert [s[0]] + s[1..] == s;
    }
  }

  lemma SeparatedQuote(name: string)
    requires Plain(name)
    ensures Quote(Separated(name)) == QUOTE + (['\U{2028}'] + (("event: " + name) + (['\U{2028}'] + QUOTE)))
  {
    assert Plain("event: ");
    assert Plain(Separated(name));
    PlainIsKept(Separated(name));
  }

  lemma SeparatedLines(name: string)
    requires OnOneLine(name) && Plain(name)
    ensures PyLines(Body(TokenEvent(Separated(name)))) == ["event: " + "token", "data: " + QUOTE, "event: " + name, QUOTE]
  {
    var a, b, c := "event: " + "token", "data: " + QUOTE, "event: " + name;
    assert OnOneLine(a) && OnOneLine(b) && OnOneLine("event: ") && OnOneLine(QUOTE);
    SeparatedQuote(name);
    PyFourLines(a, b, c, QUOTE, '\U{2028}');
    Regroup("data: ", QUOTE, ['\U{2028}'] + (c + (['\U{2028}'] + QUOTE)));
  }

  /** A token is not just missed: this one is seen as an event of whatever name it holds. */
  lemma TokenCanBeMistaken(name: string)
    requires Trimmed(name) && OnOneLine(name) && Plain(name)
    ensures EventOf(Body(TokenEvent(Separated(name)))) == [(name, Some(QUOTE))]
  {
    SeparatedLines(name);
    MistakenFields(name);
  }

  // ---- A whole stream ----

  function Bodies(events: seq<Sse.Event>): seq<string> {
    if events == [] then [] else [Body(events[0])] + Bodies(events[1..])
  }

  function AsPrinted(events: seq<Sse.Event>): seq<SseEvent> {
    if events == [] then [] else [(events[0].name, Some(events[0].payload))] + AsPrinted(events[1..])
  }

  predicate Printable(e: Sse.Event) { Named(e) && NoLineBreak(e.payload) }

  predicate NoReturn(s: string) { forall i :: 0 <= i < |s| ==> s[i] != '\r' }

  lemma {:induction false} NoReturnIsSettled(s: string)
    requires NoReturn(s)
    ensures Norm(s) == s && NoDoubleReturn(s)
  {
    if s != "" { NoReturnIsSettled(s[1..]); }
  }

  lemma PrintedHasNoReturn(e: Sse.Event, rest: string)
    requires Printable(e) && NoReturn(rest)
    ensures NoReturn(Sse.Print(e) + rest)
  {
    assert NoReturn("event: ") && NoReturn("data: ") && NoReturn(Sse.LF);
    assert NoReturn(Sse.EventLine(e)) && NoReturn(Sse.DataLine(e));
  }

  lemma GapBehindFeed(rest: string, at: nat, whole: string)
    requires rest != "" && rest[0] != '\n' && FirstGap(rest) == Some(at) && whole == ['\n'] + rest
    ensures FirstGap(whole) == Some(at + 1)
  {
    assert whole[1..] == rest;
  }

  lemma GapFurther(line: string, rest: string, at: nat, whole: string)
    requires NoLineBreak(line) && FirstGap(rest) == Some(at) && whole == line + rest
    ensures FirstGap(whole) == Some(|line| + at)
  {
    GapBehindLine(line, rest);
  }

  lemma TwoLinesGap(a: string, b: string, tail: string, second: string, feed: string)
    requires NoLineBreak(a) && NoLineBreak(b) && b != "" && FirstGap(tail) == Some(0)
    requires second == b + tail && feed == ['\n'] + second
    ensures FirstGap(a + feed) == Some(|a| + (|b| + 1))
  {
    GapFurther(b, tail, 0, second);
    GapBehindFeed(second, |b|, feed);
    GapFurther(a, feed, |b| + 1, a + feed);
  }

  lemma PrintedInParts(e: Sse.Event, rest: string)
    ensures Sse.Print(e) + rest == Sse.EventLine(e) + (['\n'] + (Sse.DataLine(e) + (['\n', '\n'] + rest)))
    ensures Sse.Print(e) + rest == Body(e) + (['\n', '\n'] + rest)
  {
    assert Sse.LF + Sse.LF == ['\n', '\n'];
    SseRoundTrip.RegroupFrame(Sse.EventLine(e), Sse.LF, Sse.DataLine(e), Sse.LF + Sse.LF, rest);
  }

  lemma PrintedGap(e: Sse.Event, rest: string, text: string)
    requires Printable(e) && text == Sse.Print(e) + rest
    ensures FirstGap(text) == Some(|Body(e)|)
    ensures text[..|Body(e)|] == Body(e) && text[|Body(e)| + 2..] == rest
  {
    var a, b, tail := Sse.EventLine(e), Sse.DataLine(e), ['\n', '\n'] + rest;
    assert NoLineBreak("event: ") && NoLineBreak("data: ");
    PrintedInParts(e, rest);
    TwoLinesGap(a, b, tail, b + tail, ['\n'] + (b + tail));
  }

  lemma {:induction false} PrintedFrames(events: seq<Sse.Event>)
    requires forall i :: 0 <= i < |events| ==> Printable(events[i])
    ensures NoReturn(Sse.PrintAll(events))
    ensures Frames(Sse.PrintAll(events)) == Bodies(events) && Left(Sse.PrintAll(events)) == ""
  {
    if events != [] {
      PrintedFrames(events[1..]);
      PrintedHasNoReturn(events[0], Sse.PrintAll(events[1..]));
      PrintedGap(events[0], Sse.PrintAll(events[1..]), Sse.PrintAll(events));
    }
  }

  lemma {:induction false} NoMoreThanFrames(frames: seq<string>)
    ensures |EventsOf(frames)| <= |frames|
  {
    if frames != [] { NoMoreThanFrames(frames[1..]); }
  }

  predicate AllSeen(events: seq<Sse.Event>) { forall i :: 0 <= i < |events| ==> SeenAsPrinted(events[i]) }

  lemma AllSeenInParts(events: seq<Sse.Event>)
    requires events != []
    ensures AllSeen(events) <==> SeenAsPrinted(events[0]) && AllSeen(events[1..])
  {
    if SeenAsPrinted(events[0]) && AllSeen(events[1..]) {
      assert forall i :: 0 < i < |events| ==> events[i] == events[1..][i - 1];
    }
  }

  lemma {:induction false} AllSeenIff(events: seq<Sse.Event>)
    ensures |Bodies(events)| == |AsPrinted(events)| == |events|
    ensures EventsOf(Bodies(events)) == AsPrinted(events) <==> AllSeen(events)
  {
    if events != [] {
      var rest := events[1..];
      AllSeenIff(rest);
      NoMoreThanFrames(Bodies(rest));
      assert Bodies(events)[1..] == Bodies(rest) && Bodies(events)[0] == Body(events[0]);
      var head, tail := EventOf(Body(events[0])), EventsOf(Bodies(rest));
      assert EventsOf(Bodies(events)) == head + tail;
      AllSeenInParts(events);
      if head + tail == AsPrinted(events) {
        assert |head| == 1;
        assert head == (head + tail)[..1] && tail == (head + tail)[1..];
        assert AsPrinted(events)[1..] == AsPrinted(rest);
      }
    }
  }

  /** However a printed stream is cut into messages, nothing is left over, and the middleware
      sees exactly the printed events if and only if every payload is one line to it. */
  lemma PrintedStreamIsSeenIff(events: seq<Sse.Event>, messages: seq<string>)
    requires forall i :: 0 <= i < |events| ==> Printable(events[i])
    requires Concat(messages) == Sse.PrintAll(events)
    ensures Fed(messages).1 == ""
    ensures EventsOf(Fed(messages).0) == AsPrinted(events) <==> forall i :: 0 <= i < |events| ==> OnOneLine(events[i].payload)
  {
    var text := Sse.PrintAll(events);
    PrintedFrames(events);
    NoReturnIsSettled(text);
    if text != "" { NoReturnIsSettled(text[..|text| - 1]); }
    CuttingDoesNotMatter(messages);
    AllSeenIff(events);
    forall i | 0 <= i < |events| ensures SeenAsPrinted(events[i]) <==> OnOneLine(events[i].payload) {
      PrintedEventIsSeenIff(events[i]);
    }
  }

  // ---- Cutting a text that the server does not print ----

  /** There even the events can differ: a name line with no empty line behind it is taken for an
      event, or not, depending on the messages. */
  lemma CuttingCanMakeAnEvent(name: string) returns (a: seq<string>, b: seq<string>)
    requires Trimmed(name) && OnOneLine(name)
    ensures Concat(a) == Concat(b) == Doubled("event: " + name)
    ensures EventsOf(Fed(a).0) == [(name, None)] && EventsOf(Fed(b).0) == []
  {
    var line := "event: " + name;
    assert OnOneLine("event: ") && OnOneLine(line) && NoLineBreak(line);
    a := DoubledInThree(line);
    b := [Doubled(line)];
    DoubledAtOnce(line);
    ConcatOne(Doubled(line));
    OneNameLine(line, name);
    EventsOfNext(line, []);
    assert [line] + [] == [line];
  }

  lemma OneNameLine(line: string, name: string)
    requires Trimmed(name) && OnOneLine(line) && line == "event: " + name
    ensures EventOf(line) == [(name, None)]
  {
    PyLastLine(line);
    NameLine(Seen(None, None), name);
    assert [line][..0] == [];
    assert SeenIn([line]) == WithLine(SeenIn([]), line);
  }
}
