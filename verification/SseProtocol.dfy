/** Producer thread and consumer coroutine of one streamed answer, under every interleaving and
    every way the client can leave. */
module SseProtocol {
  import opened Prelude

  /** What the callback at the end of the generation reports. */
  datatype Verdict = Success | BusinessFailure | CallbackRaises

  /** The generated texts, whether the generator then raises, and the callback's verdict. */
  datatype Script = Script(tokens: seq<string>, raises: bool, verdict: Verdict)

  datatype Message = Token(text: string) | Done | Error | End

  datatype Producer =
    | Pulling(i: nat)      // asks the generator for the next text
    | Emitting(i: nat)     // has it, saw no stop request
    | Exhausted            // after the loop, about to look at the stop flag
    | Reporting            // saw no stop request, runs the callback
    | Failing              // in the exception handler
    | FailingLoud          // in the exception handler, saw no stop request
    | Closing              // in the final block
    | Gone

  datatype Terminal = WasDone | WasError | Disconnected | Aborted

  datatype Consumer = Reading | AtTerminal | Over

  datatype State = State(
    producer: Producer,
    consumer: Consumer,
    queue: seq<Message>,
    stop: bool,
    accept: bool,
    sent: seq<Message>,          // what the client was sent
    collected: seq<string>,
    terminal: Option<Terminal>,
    left: bool,                  // the client is gone: disconnect seen, cancelled or closed
    saved: Option<string>)

  datatype Event =
    | Produce          // the producer thread's next step
    | Poll             // neither a message nor a disconnect within the poll interval
    | Take             // the consumer takes the next message and hands it to the client
    | SeeDisconnect
    | Cancel           // the coroutine is cancelled while it waits or is suspended
    | CloseStream      // the response generator is closed while suspended
    | Resume           // the server asks on after the terminal event
    | ClearAccept      // the last statement of the consumer
    | Save             // the wrapper around it appends the exchange to the history

  function Initial(): State { State(Pulling(0), Reading, [], false, true, [], [], None, false, None) }

  function Emit(s: State, m: Message): State { if s.accept then s.(queue := s.queue + [m]) else s }

  predicate ShouldPersistHistory(s: State) { s.terminal == Some(WasDone) && Concat(s.collected) != "" }

  function ProducerStep(x: Script, s: State): State {
    match s.producer
    case Pulling(i) =>
      if i >= |x.tokens| then s.(producer := if x.raises then Failing else Exhausted)
      else s.(producer := if s.stop then Exhausted else Emitting(i))
    case Emitting(i) =>
      if i < |x.tokens| then Emit(s, Token(x.tokens[i])).(producer := Pulling(i + 1)) else s
    case Exhausted => s.(producer := if s.stop then Closing else Reporting)
    case Reporting =>
      match x.verdict {
        case Success => Emit(s, Done).(producer := Closing)
        case BusinessFailure => Emit(s, Error).(producer := Closing)
        case CallbackRaises => s.(producer := Failing)
      }
    case Failing => s.(producer := if s.stop then Closing else FailingLoud)
    case FailingLoud => Emit(s, Error).(producer := Closing)
    case Closing => Emit(s, End).(producer := Gone)
    case Gone => s
  }

  function TakeStep(s: State): State
    requires s.queue != []
  {
    var m, t := s.queue[0], s.(queue := s.queue[1..]);
    match m
    case Token(text) => t.(collected := s.collected + [text], sent := s.sent + [m])
    case Done => t.(terminal := Some(WasDone), sent := s.sent + [m], consumer := AtTerminal)
    case Error => t.(terminal := Some(WasError), sent := s.sent + [m], consumer := AtTerminal)
    case End => Finished(t.(terminal := if s.terminal.Some? then s.terminal else Some(Aborted)))
  }

  function Finished(s: State): State { s.(consumer := Over, stop := true) }

  predicate Enabled(s: State, e: Event) {
    match e
    case Produce => !s.producer.Gone?
    case Poll => s.consumer == Reading
    case Take => s.consumer == Reading && s.queue != []
    case SeeDisconnect => s.consumer == Reading
    case Cancel => s.consumer != Over
    case CloseStream => s.consumer != Over
    case Resume => s.consumer == AtTerminal
    case ClearAccept => s.consumer == Over && s.accept
    case Save => s.consumer == Over && !s.left && s.saved.None? && ShouldPersistHistory(s)
  }

  function Next(x: Script, s: State, e: Event): State
    requires Enabled(s, e)
  {
    match e
    case Produce => ProducerStep(x, s)
    case Poll => s
    case Take => TakeStep(s)
    case SeeDisconnect => Finished(s).(terminal := Some(Disconnected), left := true)
    case Cancel => Finished(s).(terminal := Some(Disconnected), left := true)
    case CloseStream => Finished(s).(left := true)
    case Resume => Finished(s)
    case ClearAccept => s.(accept := false)
    case Save => s.(saved := Some(Concat(s.collected)))
  }

  function After(x: Script, events: seq<Event>): Option<State>
    decreases |events|
  {
    if events == [] then Some(Initial())
    else
      match After(x, events[..|events| - 1])
      case None => None
      case Some(s) =>
        var e := events[|events| - 1];
        if Enabled(s, e) then Some(Next(x, s, e)) else None
  }

  // ---- What the producer has to say if nobody stops it ----

  function Tokens(x: Script): seq<Message> { seq(|x.tokens|, i requires 0 <= i < |x.tokens| => Token(x.tokens[i])) }

  /** The one terminal message of a script. */
  function Last(x: Script): Message { if x.raises || x.verdict != Success then Error else Done }

  function Full(x: Script): seq<Message> { Tokens(x) + [Last(x), End] }

  function Emitted(x: Script, p: Producer): nat {
    match p
    case Pulling(i) => i
    case Emitting(i) => i
    case Closing => |x.tokens| + 1
    case Gone => |x.tokens| + 2
    case _ => |x.tokens|
  }

  predicate ProducerFits(x: Script, p: Producer) {
    match p
    case Pulling(i) => i <= |x.tokens|
    case Emitting(i) => i < |x.tokens|
    case Exhausted => !x.raises
    case Reporting => !x.raises
    case Failing => x.raises || x.verdict == CallbackRaises
    case FailingLoud => x.raises || x.verdict == CallbackRaises
    case _ => true
  }

  /** While the client is there: taken and queued together are what was emitted, in order. */
  ghost predicate Flowing(x: Script, s: State) {
    && !s.stop && s.accept && !s.left && s.terminal == None && s.saved == None
    && ProducerFits(x, s.producer)
    && |s.sent| <= |x.tokens|
    && s.sent + s.queue == Full(x)[..Emitted(x, s.producer)]
    && s.collected == x.tokens[..|s.sent|]
  }

  /** Afterwards: what the client has, and what the outcome says about it. */
  ghost predicate Settled(x: Script, s: State) {
    && s.collected <= x.tokens
    && (s.sent == Tokens(x)[..|s.collected|] || (s.collected == x.tokens && s.sent == Tokens(x) + [Last(x)]))
    && (s.terminal == Some(WasDone) ==> s.collected == x.tokens && Last(x) == Done && s.sent == Tokens(x) + [Done])
    && (s.terminal == Some(WasError) ==> Last(x) == Error && s.sent == Tokens(x) + [Error])
    && s.terminal != Some(Aborted)
    && (!s.left ==> s.terminal == Some(WasDone) || s.terminal == Some(WasError))
    && (s.consumer == AtTerminal ==> !s.left)
    && (s.saved.Some? ==> s.terminal == Some(WasDone) && !s.left && s.consumer == Over && s.saved.value == Concat(x.tokens) != "")
  }

  ghost predicate Inv(x: Script, s: State) {
    if s.consumer == Reading then Flowing(x, s) else Settled(x, s)
  }

  lemma EmitKeepsFlow(x: Script, s: State, m: Message, p: Producer)
    requires Flowing(x, s) && ProducerFits(x, p)
    requires Emitted(x, p) == Emitted(x, s.producer) + 1 <= |Full(x)| && m == Full(x)[Emitted(x, s.producer)]
    ensures Flowing(x, Emit(s, m).(producer := p))
  {
    var n, full := Emitted(x, s.producer), Full(x);
    assert full[..n + 1] == full[..n] + [m];
    assert s.sent + (s.queue + [m]) == s.sent + s.queue + [m];
  }

  lemma ProduceKeepsFlow(x: Script, s: State, t: State)
    requires Flowing(x, s) && !s.producer.Gone? && t == ProducerStep(x, s)
    ensures Flowing(x, t)
  {
    match s.producer
    case Emitting(i) => EmitKeepsFlow(x, s, Token(x.tokens[i]), Pulling(i + 1));
    case Reporting => if x.verdict != CallbackRaises { EmitKeepsFlow(x, s, Last(x), Closing); }
    case FailingLoud => EmitKeepsFlow(x, s, Error, Closing);
    case Closing => EmitKeepsFlow(x, s, End, Gone);
    case _ =>
  }

  lemma ProduceIsInvisible(x: Script, s: State, t: State)
    requires t == ProducerStep(x, s)
    ensures t == s.(producer := t.producer, queue := t.queue)
  {
  }

  lemma ProduceKeepsInv(x: Script, s: State)
    requires Inv(x, s) && Enabled(s, Produce)
    ensures Inv(x, ProducerStep(x, s))
  {
    var t := ProducerStep(x, s);
    ProduceIsInvisible(x, s, t);
    if s.consumer == Reading { ProduceKeepsFlow(x, s, t); }
  }

  lemma SentSoFar(x: Script, s: State)
    requires Flowing(x, s)
    ensures s.sent == Tokens(x)[..|s.sent|]
  {
    assert s.sent == (s.sent + s.queue)[..|s.sent|] == Full(x)[..|s.sent|];
  }

  lemma TakeKeepsInv(x: Script, s: State)
    requires Inv(x, s) && Enabled(s, Take)
    ensures Inv(x, TakeStep(s))
  {
    var k, full := |s.sent|, Full(x);
    assert s.queue[0] == (s.sent + s.queue)[k] == full[k];
    assert s.sent == (s.sent + s.queue)[..k] == full[..k];
    if k < |x.tokens| {
      assert (s.sent + [s.queue[0]]) + s.queue[1..] == s.sent + s.queue;
      assert x.tokens[..k + 1] == x.tokens[..k] + [x.tokens[k]];
    } else {
      assert full[..k] == Tokens(x) && x.tokens[..k] == x.tokens;
    }
  }

  lemma StepKeepsInv(x: Script, s: State, e: Event)
    requires Inv(x, s) && Enabled(s, e)
    ensures Inv(x, Next(x, s, e))
  {
    if e == Produce {
      ProduceKeepsInv(x, s);
    } else if e == Take {
      TakeKeepsInv(x, s);
    } else if s.consumer == Reading {
      SentSoFar(x, s);
    }
  }

  lemma {:induction false} RunKeepsInv(x: Script, events: seq<Event>)
    requires After(x, events).Some?
    ensures Inv(x, After(x, events).value)
    decreases |events|
  {
    if events != [] {
      RunKeepsInv(x, events[..|events| - 1]);
      StepKeepsInv(x, After(x, events[..|events| - 1]).value, events[|events| - 1]);
    }
  }

  // ---- The promises ----

  /** The client is sent a beginning of the generated tokens, then at most one terminal event. */
  lemma TokensThenOneTerminal(x: Script, events: seq<Event>)
    requires After(x, events).Some?
    ensures var s := After(x, events).value;
      s.sent <= Tokens(x) || s.sent == Tokens(x) + [Last(x)]
  {
    RunKeepsInv(x, events);
    var s := After(x, events).value;
    if s.consumer == Reading { SentSoFar(x, s); }
  }

  /** A client that stays gets every token and the terminal event; it is never left without one. */
  lemma ConnectedClientIsAnswered(x: Script, events: seq<Event>)
    requires After(x, events).Some?
    ensures var s := After(x, events).value;
      s.consumer == Over && !s.left ==>
        s.sent == Tokens(x) + [Last(x)] && s.terminal == Some(if Last(x) == Done then WasDone else WasError)
  {
    RunKeepsInv(x, events);
  }

  /** "Done" means the whole generation was collected, and only then is the history saved. */
  lemma DoneMeansEverything(x: Script, events: seq<Event>)
    requires After(x, events).Some?
    ensures var s := After(x, events).value;
      && (s.terminal == Some(WasDone) ==> s.collected == x.tokens && !x.raises && x.verdict == Success)
      && (s.saved.Some? ==> s.terminal == Some(WasDone) && s.saved.value == Concat(x.tokens))
      && s.terminal != Some(Aborted)
  {
    RunKeepsInv(x, events);
  }

  predicate Leaves(e: Event) { e == SeeDisconnect || e == Cancel || e == CloseStream }

  lemma {:induction false} LeftIff(x: Script, events: seq<Event>)
    requires After(x, events).Some?
    ensures After(x, events).value.left <==> exists i :: 0 <= i < |events| && Leaves(events[i])
    decreases |events|
  {
    if events != [] {
      var front, last := events[..|events| - 1], events[|events| - 1];
      LeftIff(x, front);
      LeftStep(x, After(x, front).value, last);
      assert Leaves(last) ==> Leaves(events[|front|]);
      assert forall i :: 0 <= i < |front| ==> front[i] == events[i];
    }
  }

  lemma LeftStep(x: Script, s: State, e: Event)
    requires Enabled(s, e)
    ensures Next(x, s, e).left <==> s.left || Leaves(e)
  {
  }

  /** The exchange goes to the history of everyone who stayed to the end of a complete, non-empty
      answer, once, and of nobody else. */
  lemma SavedForWhoeverStayed(x: Script, events: seq<Event>)
    requires After(x, events).Some?
    ensures var s := After(x, events).value;
      Enabled(s, Save) <==>
        && s.consumer == Over && s.saved.None? && (forall i :: 0 <= i < |events| ==> !Leaves(events[i]))
        && !x.raises && x.verdict == Success && Concat(x.tokens) != ""
    ensures var s := After(x, events).value;
      Enabled(s, Save) ==> Next(x, s, Save).saved == Some(Concat(x.tokens)) && !Enabled(Next(x, s, Save), Save)
  {
    RunKeepsInv(x, events);
    LeftIff(x, events);
  }

  // ---- It does not hang ----

  /** A waiting consumer either has a message or a producer that is still at work, and can be
      interrupted at any time. */
  lemma NeverStuck(x: Script, events: seq<Event>)
    requires After(x, events).Some?
    ensures var s := After(x, events).value;
      s.consumer == Reading ==> Enabled(s, Take) || Enabled(s, Produce)
    ensures var s := After(x, events).value;
      s.consumer != Over ==> Enabled(s, Cancel) && Enabled(s, CloseStream)
  {
    RunKeepsInv(x, events);
    var s := After(x, events).value;
    if s.consumer == Reading && s.producer.Gone? {
      assert |s.sent + s.queue| == |x.tokens| + 2;
    }
  }

  /** What is still to do: steps of the producer, and messages it has still to see taken. */
  function Work(x: Script, s: State): int {
    ProducerWork(x, s.producer) + |s.queue|
  }

  function ProducerWork(x: Script, p: Producer): int {
    match p
    case Pulling(i) => 3 * (|x.tokens| - i) + 10
    case Emitting(i) => 3 * (|x.tokens| - i) + 9
    case Exhausted => 9
    case Reporting => 8
    case Failing => 7
    case FailingLoud => 6
    case Closing => 3
    case Gone => 0
  }

  /** Every step of the producer and every message taken brings the end nearer. */
  lemma StepsAreFinite(x: Script, s: State, e: Event)
    requires Inv(x, s) && Enabled(s, e) && (e == Produce || e == Take)
    requires s.consumer == Reading
    ensures 0 <= Work(x, Next(x, s, e)) < Work(x, s)
  {
    StepKeepsInv(x, s, e);
  }

  // ---- Nobody works for a client that is gone ----

  function Produced(events: seq<Event>): nat
    decreases |events|
  {
    if events == [] then 0 else Produced(events[..|events| - 1]) + if events[|events| - 1] == Produce then 1 else 0
  }

  /** How many steps a producer has left that is asked to stop now. */
  function StepsLeft(p: Producer): nat {
    match p
    case Emitting(_) => 4
    case Pulling(_) => 3
    case Reporting => 3
    case Exhausted => 2
    case Failing => 2
    case FailingLoud => 2
    case Closing => 1
    case Gone => 0
  }

  /** A stop is requested exactly when the consumer has ended, and before late messages are refused. */
  predicate Orderly(x: Script, s: State) {
    && (s.consumer == Over <==> s.stop) && (!s.accept ==> s.stop)
    && (s.producer.Emitting? ==> s.producer.i < |x.tokens|)
  }

  lemma OrderlyStep(x: Script, s: State, e: Event)
    requires Orderly(x, s) && Enabled(s, e)
    ensures Orderly(x, Next(x, s, e))
    ensures Next(x, s, e).accept <==> s.accept && e != ClearAccept
  {
  }

  lemma {:induction false} EveryRunIsOrderly(x: Script, events: seq<Event>)
    requires After(x, events).Some?
    ensures Orderly(x, After(x, events).value)
    ensures After(x, events).value.accept <==> ClearAccept !in events
    decreases |events|
  {
    if events != [] {
      var front, last := events[..|events| - 1], events[|events| - 1];
      EveryRunIsOrderly(x, front);
      OrderlyStep(x, After(x, front).value, last);
      assert events == front + [last];
    }
  }

  /** What a step leaves to the producer once the consumer has ended. */
  ghost predicate Winding(s: State, steps: nat, t: State) {
    && t.consumer == Over
    && steps + StepsLeft(t.producer) <= StepsLeft(s.producer)
    && (!s.accept ==> !t.accept && t.queue == s.queue)
  }

  lemma OverStep(x: Script, s: State, e: Event)
    requires Orderly(x, s) && Enabled(s, e) && s.consumer == Over
    ensures Winding(s, if e == Produce then 1 else 0, Next(x, s, e))
  {
  }

  /** After the consumer has ended, the producer makes four more steps at most, however many texts
      are left to generate; and once late messages are refused, nothing is queued any more. */
  lemma {:induction false} GoneSoonAfter(x: Script, events: seq<Event>, more: seq<Event>)
    requires After(x, events).Some? && After(x, events).value.consumer == Over
    requires After(x, events + more).Some?
    ensures After(x, events).value.stop && StepsLeft(After(x, events).value.producer) <= 4
    ensures Winding(After(x, events).value, Produced(more), After(x, events + more).value)
    decreases |more|
  {
    EveryRunIsOrderly(x, events);
    if more == [] {
      assert events + more == events;
    } else {
      var front, e := more[..|more| - 1], more[|more| - 1];
      assert (events + more)[..|events + more| - 1] == events + front && (events + more)[|events + more| - 1] == e;
      GoneSoonAfter(x, events, front);
      EveryRunIsOrderly(x, events + front);
      OverStep(x, After(x, events + front).value, e);
    }
  }
}
