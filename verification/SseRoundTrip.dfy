/** What the browser makes of what the server printed: the same events, however the text was cut
    into chunks, and nothing but a beginning of them if the connection breaks. */
module SseRoundTrip {
  import opened Prelude
  import opened JsonText
  import opened Sse

  function TokenEvents(tokens: seq<string>): seq<Event> {
    if tokens == [] then [] else [Event("token", Quote(tokens[0]))] + TokenEvents(tokens[1..])
  }

  function TokenCallbacks(tokens: seq<string>): seq<Callback> {
    if tokens == [] then [] else [OnToken(tokens[0])] + TokenCallbacks(tokens[1..])
  }

  /** A terminal event as the server prints one: a JSON object on one line, of which no proper
      beginning is itself JSON text. */
  ghost predicate IsTerminal(e: Event, objects: string -> Option<Value>) {
    && (e.name == "done" || e.name == "error")
    && NoLineBreak(e.payload) && e.payload != "" && e.payload[0] == '{'
    && objects(e.payload) == Some(Object(e.payload, e.name == "error"))
    && (forall k :: 0 <= k < |e.payload| ==> objects(e.payload[..k]).None?)
  }

  function TerminalCallback(e: Event): Callback {
    if e.name == "done" then OnDone(e.payload) else OnError(e.payload)
  }

  // ---- One printed event ----

  lemma {:induction false} NoBreakWithin(u: string, v: string)
    requires NoLineBreak(u) && FirstBreak(v).Some?
    ensures FirstBreak(u + v) == Some(|u| + FirstBreak(v).value)
  {
    if u == "" {
      assert u + v == v;
    } else {
      assert (u + v)[0] == u[0] && (u + v)[1..] == u[1..] + v;
      NoBreakWithin(u[1..], v);
    }
  }

  lemma {:induction false} NoLineEndWithin(u: string, v: string)
    requires NoLineBreak(u)
    ensures LineEnd(u + v) == match LineEnd(v) case None => None case Some((at, n)) => Some((|u| + at, n))
  {
    if u == "" {
      assert u + v == v;
    } else {
      assert (u + v)[0] == u[0] && (u + v)[1..] == u[1..] + v;
      NoLineEndWithin(u[1..], v);
    }
  }

  lemma OneLine(u: string)
    requires NoLineBreak(u)
    ensures SplitLines(u) == [u]
  {
    NoLineEndWithin(u, "");
    assert u + "" == u;
  }

  lemma FirstLine(u: string, v: string)
    requires NoLineBreak(u)
    ensures SplitLines(u + (LF + v)) == [u] + SplitLines(v)
  {
    NoLineEndWithin(u, LF + v);
    var s := u + (LF + v);
    assert (LF + v)[0] == '\n';
    assert s[..|u|] == u && s[|u| + 1..] == v;
  }

  lemma RegroupFrame<T>(a: seq<T>, b: seq<T>, c: seq<T>, d: seq<T>, rest: seq<T>)
    ensures a + (b + (c + d)) + rest == (a + (b + c)) + (d + rest)
    ensures a + (b + (c + d)) + rest == a + (b + (c + (d + rest)))
  {
  }

  /** The first boundary in a printed event is its end. */
  lemma PrintedFrame(e: Event, rest: string)
    requires NoLineBreak(e.name) && NoLineBreak(e.payload)
    ensures var text, frame := Print(e) + rest, EventLine(e) + (LF + DataLine(e));
      && FirstBreak(text) == Some(|frame|) && text[..|frame|] == frame && Rest(text) == rest
  {
    var frame, end := EventLine(e) + (LF + DataLine(e)), (LF + LF) + rest;
    RegroupFrame(EventLine(e), LF, DataLine(e), LF + LF, rest);
    BreakAfterTwoLines(EventLine(e), DataLine(e), end, LF + (DataLine(e) + end));
    assert Print(e) + rest == frame + end;
    assert (frame + end)[|frame|..] == end && end[2..] == rest && (frame + end)[|frame| + 2..] == rest;
  }

  lemma BreakAtOnce(end: string)
    requires |end| >= 2 && end[0] == '\n' && end[1] == '\n'
    ensures FirstBreak(end) == Some(0)
  {
  }

  lemma SingleLineEnd(text: string)
    requires text != "" && text[0] != '\n' && text[0] != '\r' && FirstBreak(text).Some?
    ensures FirstBreak(LF + text) == Some(1 + FirstBreak(text).value)
  {
    var s := LF + text;
    assert s[1..] == text;
    assert s[1] == text[0];
  }

  lemma BreakAfterLine(b: string, end: string)
    requires NoLineBreak(b) && b != "" && |end| >= 2 && end[0] == '\n' && end[1] == '\n'
    ensures FirstBreak(b + end) == Some(|b|) && FirstBreak(LF + (b + end)) == Some(1 + |b|)
  {
    BreakAtOnce(end);
    NoBreakWithin(b, end);
    SingleLineEnd(b + end);
  }

  lemma BreakAfterTwoLines(a: string, b: string, end: string, tail: string)
    requires NoLineBreak(a) && NoLineBreak(b) && b != "" && |end| >= 2 && end[0] == '\n' && end[1] == '\n'
    requires tail == LF + (b + end)
    ensures FirstBreak(a + tail) == Some(|a| + 1 + |b|)
  {
    assert FirstBreak(tail) == Some(1 + |b|) by { BreakAfterLine(b, end); }
    NoBreakWithin(a, tail);
  }

  lemma NameSurvives(name: string)
    requires Trimmed(name)
    ensures Trim([' '] + name) == name
  {
    assert ([' '] + name)[1..] == name;
    assert TrimLeft([' '] + name) == TrimLeft(name) == name;
  }

  lemma FieldsOfTwo(a: string, b: string)
    ensures FieldsOf([a, b]) == WithLine(WithLine(Fields("message", []), a), b)
  {
    assert [a, b][..1] == [a] && [a][..0] == [];
    assert FieldsOf([a]) == WithLine(FieldsOf([]), a);
  }

  lemma EventLineField(e: Event)
    requires Trimmed(e.name)
    ensures WithLine(Fields("message", []), EventLine(e)) == Fields(e.name, [])
  {
    var line := EventLine(e);
    assert line[..6] == "event:" && line[6..] == [' '] + e.name;
    NameSurvives(e.name);
  }

  lemma DataLineField(event: string, payload: string)
    ensures WithLine(Fields(event, []), "data: " + payload) == Fields(event, [payload])
  {
    var line := "data: " + payload;
    assert line[..5] == "data:" && line[5..] == [' '] + payload && ([' '] + payload)[1..] == payload;
    assert line[0] != "event:"[0];
  }

  /** A printed event is read back with its name and its payload. */
  lemma FrameFields(e: Event)
    requires Trimmed(e.name) && NoLineBreak(e.name) && NoLineBreak(e.payload)
    ensures FieldsOf(SplitLines(EventLine(e) + (LF + DataLine(e)))) == Fields(e.name, [e.payload])
  {
    FirstLine(EventLine(e), DataLine(e));
    OneLine(DataLine(e));
    assert SplitLines(EventLine(e) + (LF + DataLine(e))) == [EventLine(e), DataLine(e)];
    FieldsOfTwo(EventLine(e), DataLine(e));
    EventLineField(e);
    DataLineField(e.name, e.payload);
  }

  lemma TokenFrame(t: string, objects: string -> Option<Value>)
    ensures var e := Event("token", Quote(t));
      NoLineBreak(e.name) && NoLineBreak(e.payload) && FrameEffect(EventLine(e) + (LF + DataLine(e)), objects) == Token(t)
  {
    var e := Event("token", Quote(t));
    QuoteIsOneLine(t);
    QuoteRoundTrip(t, objects);
    FrameFields(e);
  }

  lemma TerminalFrame(e: Event, objects: string -> Option<Value>)
    requires IsTerminal(e, objects)
    ensures NoLineBreak(e.name)
    ensures FrameEffect(EventLine(e) + (LF + DataLine(e)), objects) == if e.name == "done" then Done(e.payload) else Error(e.payload)
  {
    FrameFields(e);
    NothingToSkip(e.payload);
  }

  // ---- A whole stream ----

  lemma ReadToken(t: string, rest: string, objects: string -> Option<Value>)
    ensures Consume(Print(Event("token", Quote(t))) + rest, objects) == Later([OnToken(t)], Consume(rest, objects))
  {
    TokenFrame(t, objects);
    PrintedFrame(Event("token", Quote(t)), rest);
  }

  lemma ReadTerminal(e: Event, rest: string, objects: string -> Option<Value>)
    requires IsTerminal(e, objects)
    ensures Consume(Print(e) + rest, objects) == Outcome([TerminalCallback(e)], rest, Ended)
  {
    TerminalFrame(e, objects);
    PrintedFrame(e, rest);
  }

  lemma LaterTwice(c: Callback, tokens: seq<Callback>, o: Outcome)
    ensures Later([c], Later(tokens, o)) == Later([c] + tokens, o)
  {
    assert [c] + (tokens + o.callbacks) == [c] + tokens + o.callbacks;
  }

  lemma PrintFirst(events: seq<Event>, rest: string)
    requires events != []
    ensures PrintAll(events) + rest == Print(events[0]) + (PrintAll(events[1..]) + rest)
  {
  }

  lemma {:induction false} ReadTokens(tokens: seq<string>, rest: string, objects: string -> Option<Value>)
    ensures Consume(PrintAll(TokenEvents(tokens)) + rest, objects) == Later(TokenCallbacks(tokens), Consume(rest, objects))
  {
    var o := Consume(rest, objects);
    if tokens == [] {
      assert PrintAll(TokenEvents(tokens)) + rest == rest;
      assert [] + o.callbacks == o.callbacks;
    } else {
      var events := TokenEvents(tokens);
      assert events[1..] == TokenEvents(tokens[1..]);
      PrintFirst(events, rest);
      ReadToken(tokens[0], PrintAll(events[1..]) + rest, objects);
      ReadTokens(tokens[1..], rest, objects);
      LaterTwice(OnToken(tokens[0]), TokenCallbacks(tokens[1..]), o);
    }
  }

  lemma {:induction false} PrintAllSplits(events: seq<Event>, more: seq<Event>)
    ensures PrintAll(events + more) == PrintAll(events) + PrintAll(more)
  {
    if events == [] {
      assert events + more == more;
    } else {
      assert (events + more)[1..] == events[1..] + more;
      PrintAllSplits(events[1..], more);
    }
  }

  lemma PrintLast(events: seq<Event>, last: Event, junk: string)
    ensures PrintAll(events + [last]) + junk == PrintAll(events) + (Print(last) + junk)
  {
    PrintAllSplits(events, [last]);
    assert [last][1..] == [];
    assert PrintAll([last]) == Print(last) + "";
  }

  /** All tokens in order, then the one terminal event; whatever may follow it is not looked at. */
  lemma PrintedStreamIsRead(tokens: seq<string>, terminal: Event, junk: string, objects: string -> Option<Value>)
    requires IsTerminal(terminal, objects)
    ensures ReadWhole(PrintAll(TokenEvents(tokens) + [terminal]) + junk, objects) ==
      (TokenCallbacks(tokens) + [TerminalCallback(terminal)], Ended)
  {
    PrintLast(TokenEvents(tokens), terminal, junk);
    ReadTokens(tokens, Print(terminal) + junk, objects);
    ReadTerminal(terminal, junk, objects);
  }
}
