/** From the generator to the reader's screen: the producer/consumer protocol, the printer, a
    network that cuts the text anywhere, and the browser's parser, in one statement. */
module EndToEnd {
  import opened Prelude
  import Protocol = SseProtocol
  import opened JsonText
  import opened Sse
  import opened SseRoundTrip
  import opened SseBreak

  /** What the server prints for the messages it hands to the client. */
  function Printed(sent: seq<Protocol.Message>, terminal: Event): seq<Event> {
    if sent == [] then []
    else [if sent[0].Token? then Event("token", Quote(sent[0].text)) else terminal] + Printed(sent[1..], terminal)
  }

  lemma {:induction false} PrintedTokens(sent: seq<Protocol.Message>, tokens: seq<string>, terminal: Event)
    requires |sent| == |tokens| && forall i :: 0 <= i < |sent| ==> sent[i] == Protocol.Token(tokens[i])
    ensures Printed(sent, terminal) == TokenEvents(tokens)
  {
    if sent != [] { PrintedTokens(sent[1..], tokens[1..], terminal); }
  }

  lemma {:induction false} PrintedSum(a: seq<Protocol.Message>, b: seq<Protocol.Message>, terminal: Event)
    ensures Printed(a + b, terminal) == Printed(a, terminal) + Printed(b, terminal)
  {
    if a == [] {
      assert a + b == b;
    } else {
      assert (a + b)[1..] == a[1..] + b;
      PrintedSum(a[1..], b, terminal);
    }
  }

  lemma PrintedInFull(x: Protocol.Script, terminal: Event)
    ensures Printed(Protocol.Tokens(x) + [Protocol.Last(x)], terminal) == TokenEvents(x.tokens) + [terminal]
  {
    PrintedSum(Protocol.Tokens(x), [Protocol.Last(x)], terminal);
    PrintedTokens(Protocol.Tokens(x), x.tokens, terminal);
    assert [Protocol.Last(x)][1..] == [];
  }

  /** The terminal event as sent: a "done" or an "error" object on one line. */
  ghost predicate Announces(x: Protocol.Script, terminal: Event, objects: string -> Option<Value>) {
    IsTerminal(terminal, objects) && (terminal.name == "done" <==> Protocol.Last(x) == Protocol.Done)
  }

  /** Whoever stays connected is shown every generated text and then how it ended, however the
      response was cut into chunks. */
  lemma StayingShowsEverything(x: Protocol.Script, events: seq<Protocol.Event>, terminal: Event,
                               chunks: seq<string>, objects: string -> Option<Value>)
    requires Protocol.After(x, events).Some? && Announces(x, terminal, objects)
    requires var s := Protocol.After(x, events).value;
      s.consumer == Protocol.Over && !s.left && Concat(chunks) == PrintAll(Printed(s.sent, terminal))
    ensures ReadWhole(Concat(chunks), objects) == (TokenCallbacks(x.tokens) + [TerminalCallback(terminal)], Ended)
  {
    Protocol.ConnectedClientIsAnswered(x, events);
    PrintedInFull(x, terminal);
    PrintedStreamIsRead(x.tokens, terminal, "", objects);
    assert PrintAll(TokenEvents(x.tokens) + [terminal]) + "" == PrintAll(TokenEvents(x.tokens) + [terminal]);
  }

  /** Whatever happens to either side or to the connection, what is shown is a beginning of the
      generated texts, and it is shown as complete only if it is. */
  lemma NothingFalseIsShown(x: Protocol.Script, events: seq<Protocol.Event>, terminal: Event,
                            received: string, objects: string -> Option<Value>)
    requires Protocol.After(x, events).Some? && Announces(x, terminal, objects)
    requires received <= PrintAll(Printed(Protocol.After(x, events).value.sent, terminal))
    ensures HeardSoFar(ReadWhole(received, objects), TokenCallbacks(x.tokens) + [TerminalCallback(terminal)])
  {
    var sent, all := Protocol.After(x, events).value.sent, Protocol.Tokens(x) + [Protocol.Last(x)];
    Protocol.TokensThenOneTerminal(x, events);
    PrintedInFull(x, terminal);
    assert sent <= all;
    assert all == sent + all[|sent|..];
    PrintedSum(sent, all[|sent|..], terminal);
    PrintAllSplits(Printed(sent, terminal), Printed(all[|sent|..], terminal));
    BrokenConnection(received, x.tokens, terminal, objects);
  }
}
