/** What the browser reports when the connection ends somewhere inside the printed text. */
module SseBreak {
  import opened Prelude
  import opened JsonText
  import opened Sse
  import opened SseRoundTrip

  // ---- A cut string literal is not JSON ----

  lemma CutEscape(c: char, k: nat)
    requires k < |EscapeChar(c)|
    ensures Unescape(EscapeChar(c)[..k]) == None
  {
  }

  lemma {:induction false} CutLiteral(s: string, k: nat)
    requires k <= |Escape(s)|
    ensures Unescape((Escape(s) + ['"'])[..k]) == None
    decreases |s|
  {
    var text := Escape(s) + ['"'];
    if s == "" {
      assert text[..k] == "";
    } else {
      var e, rest := EscapeChar(s[0]), Escape(s[1..]) + ['"'];
      assert text == e + rest;
      if k < |e| {
        assert text[..k] == e[..k];
        CutEscape(s[0], k);
      } else {
        assert text[..k] == e + rest[..k - |e|];
        UnescapeChar(s[0], rest[..k - |e|]);
        CutLiteral(s[1..], k - |e|);
      }
    }
  }

  lemma CutToken(t: string, k: nat, objects: string -> Option<Value>)
    requires k < |Quote(t)| && objects("").None?
    ensures EffectOf(Fields("token", [Quote(t)[..k]]), objects) == Malformed
  {
    var cut := Quote(t)[..k];
    if k == 0 {
      assert cut == "";
    } else {
      assert cut[0] == '"' && cut[1..] == (Escape(t) + ['"'])[..k - 1];
      NothingToSkip(cut);
      CutLiteral(t, k - 1);
    }
  }

  lemma CutTerminal(e: Event, k: nat, objects: string -> Option<Value>)
    requires IsTerminal(e, objects) && k < |e.payload|
    ensures EffectOf(Fields(e.name, [e.payload[..k]]), objects) == Malformed
  {
    var cut := e.payload[..k];
    if k > 0 { NothingToSkip(cut); }
  }

  // ---- A cut frame ----

  lemma NotData(line: string)
    requires line == "" || line[0] != 'd'
    ensures !Starts(line, "data:")
  {
  }

  lemma NotEvent(line: string)
    requires line == "" || line[0] != 'e'
    ensures !Starts(line, "event:")
  {
  }

  lemma CutInEventLine(e: Event, n: nat, objects: string -> Option<Value>)
    requires NoLineBreak(e.name) && n <= |EventLine(e)|
    ensures FrameEffect(EventLine(e)[..n], objects) == Nothing
  {
    var line := EventLine(e)[..n];
    OneLine(line);
    assert n > 0 ==> line[0] == EventLine(e)[0];
    NotData(line);
    assert [line][..0] == [];
    assert FieldsOf([line]) == WithLine(FieldsOf([]), line);
  }

  /** A beginning of the data line contributes nothing, or a beginning of the payload. */
  lemma CutDataLine(f: Fields, e: Event, m: nat)
    requires m <= |DataLine(e)|
    ensures WithLine(f, DataLine(e)[..m]) == if m < 5 then f else f.(data := f.data + [e.payload[..if m < 6 then 0 else m - 6]])
  {
    var line := DataLine(e)[..m];
    assert m > 0 ==> line[0] == 'd';
    NotEvent(line);
    if m >= 5 {
      assert line[..5] == "data:";
      if m >= 6 { assert line[5..] == [' '] + e.payload[..m - 6] && line[5..][1..] == e.payload[..m - 6]; }
    }
  }

  /** Everything a cut frame can amount to. */
  ghost predicate CutEffect(x: Effect, e: Event, objects: string -> Option<Value>) {
    x == Nothing || exists k :: 0 <= k <= |e.payload| && x == EffectOf(Fields(e.name, [e.payload[..k]]), objects)
  }

  lemma CutInDataLine(e: Event, m: nat, objects: string -> Option<Value>)
    requires Trimmed(e.name) && NoLineBreak(e.name) && NoLineBreak(e.payload) && m <= |DataLine(e)|
    ensures CutEffect(FrameEffect(EventLine(e) + (LF + DataLine(e)[..m]), objects), e, objects)
  {
    var d := DataLine(e)[..m];
    FirstLine(EventLine(e), d);
    OneLine(d);
    assert [EventLine(e)] + [d] == [EventLine(e), d];
    FieldsOfTwo(EventLine(e), d);
    EventLineField(e);
    CutDataLine(Fields(e.name, []), e, m);
    if m >= 5 {
      var k := if m < 6 then 0 else m - 6;
      assert [] + [e.payload[..k]] == [e.payload[..k]];
    }
  }

  lemma CutAfterDataLine(e: Event, objects: string -> Option<Value>)
    requires Trimmed(e.name) && NoLineBreak(e.name) && NoLineBreak(e.payload)
    ensures CutEffect(FrameEffect(EventLine(e) + (LF + (DataLine(e) + (LF + ""))), objects), e, objects)
  {
    var lines := [EventLine(e), DataLine(e), ""];
    FirstLine(EventLine(e), DataLine(e) + (LF + ""));
    FirstLine(DataLine(e), "");
    OneLine("");
    assert [EventLine(e)] + ([DataLine(e)] + [""]) == lines;
    assert lines[..2] == [EventLine(e), DataLine(e)];
    FieldsOfTwo(EventLine(e), DataLine(e));
    EventLineField(e);
    DataLineField(e.name, e.payload);
    NotData("");
    NotEvent("");
    assert e.payload[..|e.payload|] == e.payload;
  }

  lemma CutFrame(e: Event, text: string, objects: string -> Option<Value>)
    requires Trimmed(e.name) && NoLineBreak(e.name) && NoLineBreak(e.payload)
    requires text <= Print(e) && text != Print(e)
    ensures CutEffect(FrameEffect(text, objects), e, objects)
  {
    var a, b, n := EventLine(e), DataLine(e), |text|;
    assert text == Print(e)[..n];
    if n <= |a| {
      assert text == a[..n];
      CutInEventLine(e, n, objects);
    } else if n <= |a| + 1 + |b| {
      assert text == a + (LF + b[..n - |a| - 1]);
      CutInDataLine(e, n - |a| - 1, objects);
    } else {
      assert text == a + (LF + (b + (LF + "")));
      CutAfterDataLine(e, objects);
    }
  }

  lemma CutHasNoBreak(e: Event, text: string, objects: string -> Option<Value>)
    requires NoLineBreak(e.name) && NoLineBreak(e.payload)
    requires text <= Print(e) && text != Print(e)
    ensures Consume(text, objects) == Outcome([], text, Reading)
  {
    if FirstBreak(text).Some? {
      var rest := Print(e)[|text|..];
      assert text + rest == Print(e) + "";
      BreakIsStable(text, rest);
      PrintedFrame(e, "");
    }
  }

  // ---- A cut stream ----

  /** The reader heard a beginning of `all`, and takes the stream for complete only if it heard it all. */
  ghost predicate HeardSoFar(r: (seq<Callback>, Status), all: seq<Callback>) {
    r.0 <= all && (r.1 == Ended <==> r.0 == all) && r.1 != Reading
  }

  lemma FinishLater(o: Outcome, first: Callback, objects: string -> Option<Value>)
    ensures Finish(Later([first], o), objects) == ([first] + Finish(o, objects).0, Finish(o, objects).1)
  {
    var e := FrameEffect(o.remaining, objects);
    assert [first] + o.callbacks + After(e) == [first] + (o.callbacks + After(e));
  }

  lemma HeardOneMore(first: Callback, r: (seq<Callback>, Status), all: seq<Callback>)
    requires HeardSoFar(r, all)
    ensures HeardSoFar(([first] + r.0, r.1), [first] + all)
  {
    assert [first] + r.0 == [first] + all ==> ([first] + r.0)[1..] == ([first] + all)[1..];
  }

  lemma CutTokenEffect(t: string, text: string, objects: string -> Option<Value>)
    requires objects("").None?
    requires text <= Print(Event("token", Quote(t))) && text != Print(Event("token", Quote(t)))
    ensures FrameEffect(text, objects) in {Nothing, Malformed, Token(t)}
  {
    var e := Event("token", Quote(t));
    QuoteIsOneLine(t);
    CutFrame(e, text, objects);
    var x := FrameEffect(text, objects);
    if x != Nothing {
      var k :| 0 <= k <= |e.payload| && x == EffectOf(Fields(e.name, [e.payload[..k]]), objects);
      if k < |e.payload| {
        CutToken(t, k, objects);
      } else {
        assert e.payload[..k] == e.payload;
        QuoteRoundTrip(t, objects);
      }
    }
  }

  /** Only the last look at what is left can still report something. */
  lemma ReadCut(e: Event, text: string, objects: string -> Option<Value>) returns (x: Effect)
    requires NoLineBreak(e.name) && NoLineBreak(e.payload) && text <= Print(e) && text != Print(e)
    ensures x == FrameEffect(text, objects)
    ensures ReadWhole(text, objects) == ([], Broken) ||
      ReadWhole(text, objects) == (After(x), if StatusAfter(x) == Reading then Broken else StatusAfter(x))
  {
    x := FrameEffect(text, objects);
    CutHasNoBreak(e, text, objects);
    assert [] + After(x) == After(x);
  }

  lemma CutTokenIsHarmless(t: string, text: string, all: seq<Callback>, objects: string -> Option<Value>)
    requires objects("").None? && |all| > 1 && all[0] == OnToken(t)
    requires text <= Print(Event("token", Quote(t))) && text != Print(Event("token", Quote(t)))
    ensures HeardSoFar(ReadWhole(text, objects), all)
  {
    QuoteIsOneLine(t);
    CutTokenEffect(t, text, objects);
    var x := ReadCut(Event("token", Quote(t)), text, objects);
  }

  lemma CutTerminalEffect(e: Event, text: string, objects: string -> Option<Value>)
    requires IsTerminal(e, objects)
    requires text <= Print(e) && text != Print(e)
    ensures FrameEffect(text, objects) in {Nothing, Malformed, if e.name == "done" then Done(e.payload) else Error(e.payload)}
  {
    CutFrame(e, text, objects);
    var x := FrameEffect(text, objects);
    if x != Nothing {
      var k :| 0 <= k <= |e.payload| && x == EffectOf(Fields(e.name, [e.payload[..k]]), objects);
      if k < |e.payload| {
        CutTerminal(e, k, objects);
      } else {
        assert e.payload[..k] == e.payload;
        NothingToSkip(e.payload);
      }
    }
  }

  lemma CutTerminalIsHarmless(e: Event, text: string, objects: string -> Option<Value>)
    requires IsTerminal(e, objects)
    requires text <= Print(e) && text != Print(e)
    ensures HeardSoFar(ReadWhole(text, objects), [TerminalCallback(e)])
  {
    CutTerminalEffect(e, text, objects);
    var x := ReadCut(e, text, objects);
  }

  /** Wherever the connection breaks, the browser has heard a beginning of the tokens, each of
      them whole, and reports completion only if it has the terminal event. */
  lemma {:induction false} BrokenConnection(text: string, tokens: seq<string>, terminal: Event, objects: string -> Option<Value>)
    requires IsTerminal(terminal, objects)
    requires text <= PrintAll(TokenEvents(tokens) + [terminal])
    ensures HeardSoFar(ReadWhole(text, objects), TokenCallbacks(tokens) + [TerminalCallback(terminal)])
    decreases tokens
  {
    var events := TokenEvents(tokens) + [terminal];
    PrintFirst(events, "");
    assert PrintAll(events) + "" == PrintAll(events);
    if tokens == [] {
      assert events == [terminal] && events[1..] == [];
      BrokenTerminal(text, terminal, objects);
      assert TokenCallbacks(tokens) + [TerminalCallback(terminal)] == [TerminalCallback(terminal)];
    } else {
      var all := TokenCallbacks(tokens[1..]) + [TerminalCallback(terminal)];
      assert events[1..] == TokenEvents(tokens[1..]) + [terminal];
      assert TokenCallbacks(tokens) + [TerminalCallback(terminal)] == [OnToken(tokens[0])] + all;
      var printed := Print(Event("token", Quote(tokens[0])));
      if |text| < |printed| {
        assert text == printed[..|text|] && terminal.payload[..0] == "";
        CutTokenIsHarmless(tokens[0], text, [OnToken(tokens[0])] + all, objects);
      } else {
        var text' := text[|printed|..];
        assert text == printed + text' && text' <= PrintAll(events[1..]) + "";
        BrokenConnection(text', tokens[1..], terminal, objects);
        BrokenLater(text', tokens[0], all, objects);
      }
    }
  }

  lemma BrokenLater(text: string, token: string, all: seq<Callback>, objects: string -> Option<Value>)
    requires HeardSoFar(ReadWhole(text, objects), all)
    ensures HeardSoFar(ReadWhole(Print(Event("token", Quote(token))) + text, objects), [OnToken(token)] + all)
  {
    ReadToken(token, text, objects);
    FinishLater(Consume(text, objects), OnToken(token), objects);
    HeardOneMore(OnToken(token), ReadWhole(text, objects), all);
  }

  lemma BrokenTerminal(text: string, terminal: Event, objects: string -> Option<Value>)
    requires IsTerminal(terminal, objects) && text <= Print(terminal) + ""
    ensures HeardSoFar(ReadWhole(text, objects), [TerminalCallback(terminal)])
  {
    if |text| < |Print(terminal)| {
      CutTerminalIsHarmless(terminal, text, objects);
    } else {
      assert text == Print(terminal) + "";
      ReadTerminal(terminal, "", objects);
    }
  }
}
