/** The observability middleware's own reading of the event stream it forwards. */
module SseMiddleware {
  import opened Prelude
  import opened JsonText
  import Sse

  /** `replace("\r\n", "\n")`. */
  function Norm(s: string): string
    decreases |s|
  {
    if s == "" then ""
    else if |s| >= 2 && s[0] == '\r' && s[1] == '\n' then ['\n'] + Norm(s[2..])
    else [s[0]] + Norm(s[1..])
  }

  /** The position of the first empty line. */
  function FirstGap(s: string): (r: Option<nat>)
    ensures r.Some? ==> r.value + 2 <= |s| && s[r.value] == '\n' && s[r.value + 1] == '\n'
  {
    if |s| < 2 then None
    else if s[0] == '\n' && s[1] == '\n' then Some(0)
    else
      match FirstGap(s[1..])
      case None => None
      case Some(at) => Some(at + 1)
  }

  function Frames(s: string): seq<string>
    decreases |s|
  {
    match FirstGap(s)
    case None => []
    case Some(at) => [s[..at]] + Frames(s[at + 2..])
  }

  /** What follows the last complete frame. */
  function Left(s: string): (r: string)
    ensures |r| <= |s|
    decreases |s|
  {
    match FirstGap(s)
    case None => s
    case Some(at) => Left(s[at + 2..])
  }

  // ---- One frame ----

  /** The line ends of `splitlines`; a CR LF pair counts as one. */
  predicate EndsLine(c: char) {
    || '\n' <= c <= '\r' || '\U{1C}' <= c <= '\U{1E}' || c == '\U{85}' || c == '\U{2028}' || c == '\U{2029}'
  }

  function PyLine(s: string): (line: string)
    ensures line <= s
  {
    if s == "" || EndsLine(s[0]) then "" else [s[0]] + PyLine(s[1..])
  }

  function PyLines(s: string): seq<string>
    decreases |s|
  {
    if s == "" then []
    else
      var line := PyLine(s);
      if |line| == |s| then [line]
      else
        var skip := if s[|line|] == '\r' && |line| + 1 < |s| && s[|line| + 1] == '\n' then 2 else 1;
        [line] + PyLines(s[|line| + skip..])
  }

  /** The last name line and the last data line win. */
  datatype Seen = Seen(name: Option<string>, data: Option<string>)

  function WithLine(f: Seen, line: string): Seen {
    if Sse.Starts(line, "event:") then f.(name := Some(Trim(line[6..])))
    else if Sse.Starts(line, "data:") then f.(data := Some(Trim(line[5..])))
    else f
  }

  function SeenIn(lines: seq<string>): Seen
    decreases |lines|
  {
    if lines == [] then Seen(None, None) else WithLine(SeenIn(lines[..|lines| - 1]), lines[|lines| - 1])
  }

  type SseEvent = (string, Option<string>)

  /** A frame without a name, or with an empty one, is no event. */
  function EventOf(frame: string): seq<SseEvent> {
    var f := SeenIn(PyLines(frame));
    if f.name.Some? && f.name.value != "" then [(f.name.value, f.data)] else []
  }

  function EventsOf(frames: seq<string>): seq<SseEvent> {
    if frames == [] then [] else EventOf(frames[0]) + EventsOf(frames[1..])
  }

  lemma {:induction false} EventsOfSum(a: seq<string>, b: seq<string>)
    ensures EventsOf(a + b) == EventsOf(a) + EventsOf(b)
  {
    if a == [] {
      assert a + b == b;
    } else {
      assert (a + b)[1..] == a[1..] + b;
      EventsOfSum(a[1..], b);
    }
  }

  // ---- The code: one message, and all the messages of a response ----

  method ReadFrame(frame: string) returns (event: seq<SseEvent>)
    ensures event == EventOf(frame)
  {
    var lines := PyLines(frame);
    var name: Option<string>, data: Option<string> := None, None;
    for i := 0 to |lines|
      invariant Seen(name, data) == SeenIn(lines[..i])
    {
      assert lines[..i + 1][..i] == lines[..i];
      if Sse.Starts(lines[i], "event:") {
        name := Some(Trim(lines[i][6..]));
      } else if Sse.Starts(lines[i], "data:") {
        data := Some(Trim(lines[i][5..]));
      }
    }
    assert lines[..|lines|] == lines;
    event := if name.Some? && name.value != "" then [(name.value, data)] else [];
  }

  method SseEvents(body: string, buffer: string) returns (events: seq<SseEvent>, rest: string)
    ensures body == "" ==> events == [] && rest == buffer
    ensures body != "" ==> events == EventsOf(Frames(Norm(buffer + body))) && rest == Left(Norm(buffer + body))
  {
    if body == "" { return [], buffer; }
    events, rest := CutFrames(Norm(buffer + body));
  }

  method CutFrames(text: string) returns (events: seq<SseEvent>, rest: string)
    ensures events == EventsOf(Frames(text)) && rest == Left(text)
  {
    events, rest := [], text;
    while FirstGap(rest).Some?
      invariant SoFar(text, events, rest)
      decreases |rest|
    {
      var at := FirstGap(rest).value;
      var frame, more := rest[..at], rest[at + 2..];
      NextFrame(text, events, rest, at, frame, more);
      var event := ReadFrame(frame);
      events, rest := events + event, more;
    }
    assert events + [] == events;
  }

  ghost predicate SoFar(text: string, events: seq<SseEvent>, rest: string) {
    EventsOf(Frames(text)) == events + EventsOf(Frames(rest)) && Left(text) == Left(rest)
  }

  lemma NextFrame(text: string, events: seq<SseEvent>, rest: string, at: nat, frame: string, more: string)
    requires SoFar(text, events, rest) && FirstGap(rest) == Some(at)
    requires frame == rest[..at] && more == rest[at + 2..]
    ensures SoFar(text, events + EventOf(frame), more)
  {
    assert Frames(rest) == [frame] + Frames(more);
    EventsOfNext(frame, Frames(more));
    Regroup(events, EventOf(frame), EventsOf(Frames(more)));
  }

  lemma EventsOfNext(frame: string, frames: seq<string>)
    ensures EventsOf([frame] + frames) == EventOf(frame) + EventsOf(frames)
  {
    assert ([frame] + frames)[1..] == frames;
  }

  method Forward(messages: seq<string>) returns (events: seq<SseEvent>, buffer: string)
    ensures events == EventsOf(Fed(messages).0) && buffer == Fed(messages).1
  {
    events, buffer := [], "";
    for i := 0 to |messages|
      invariant events == EventsOf(Fed(messages[..i]).0) && buffer == Fed(messages[..i]).1
    {
      assert messages[..i + 1][..i] == messages[..i];
      FedMore(messages[..i], messages[i], messages[..i + 1]);
      assert events + [] == events;
      var more;
      more, buffer := SseEvents(messages[i], buffer);
      events := events + more;
    }
    assert messages[..|messages|] == messages;
  }

  /** Feeding the messages one by one, each normalised together with what was left before: the
      frames cut off, and what is left at the end. */
  function Fed(messages: seq<string>): (seq<string>, string)
    decreases |messages|
  {
    if messages == [] then ([], "")
    else
      var (frames, buffer) := Fed(messages[..|messages| - 1]);
      var body := messages[|messages| - 1];
      if body == "" then (frames, buffer)
      else
        var text := Norm(buffer + body);
        (frames + Frames(text), Left(text))
  }

  lemma FedMore(messages: seq<string>, body: string, more: seq<string>)
    requires more == messages + [body]
    ensures body == "" ==> Fed(more) == Fed(messages)
    ensures body != "" ==>
      var text := Norm(Fed(messages).1 + body);
      && Fed(more) == (Fed(messages).0 + Frames(text), Left(text))
      && EventsOf(Fed(more).0) == EventsOf(Fed(messages).0) + EventsOf(Frames(text))
  {
    assert more[..|more| - 1] == messages;
    EventsOfSum(Fed(messages).0, Frames(Norm(Fed(messages).1 + body)));
  }

  // ---- When the cutting into messages does not matter ----

  /** Nowhere two carriage returns in front of a line feed. */
  predicate NoDoubleReturn(s: string) {
    |s| < 3 || (!(s[0] == '\r' && s[1] == '\r' && s[2] == '\n') && NoDoubleReturn(s[1..]))
  }

  predicate NoPair(s: string) {
    |s| < 2 || (!(s[0] == '\r' && s[1] == '\n') && NoPair(s[1..]))
  }

  lemma {:induction false} NoDoubleReturnInFront(x: string, y: string)
    requires NoDoubleReturn(x + y)
    ensures NoDoubleReturn(x)
  {
    if |x| >= 3 {
      assert (x + y)[1..] == x[1..] + y;
      NoDoubleReturnInFront(x[1..], y);
    }
  }

  lemma {:induction false} NoPairInFront(x: string, y: string)
    requires NoPair(x + y)
    ensures NoPair(x)
  {
    if |x| >= 2 {
      assert (x + y)[1..] == x[1..] + y;
      NoPairInFront(x[1..], y);
    }
  }

  lemma NormStarts(s: string)
    requires s != ""
    ensures Norm(s) != ""
    ensures Norm(s)[0] == '\n' ==> s[0] == '\n' || (|s| >= 2 && s[0] == '\r' && s[1] == '\n')
  {
  }

  lemma NormPair(x: string)
    ensures Norm(['\r', '\n'] + x) == ['\n'] + Norm(x) && Norm(['\n'] + x) == ['\n'] + Norm(x)
  {
    assert (['\r', '\n'] + x)[2..] == x && (['\n'] + x)[1..] == x;
  }

  lemma NormOncePair(x: string, y: string, xy: string)
    requires xy == x + y && Norm(Norm(x) + y) == Norm(xy)
    ensures Norm(Norm(['\r', '\n'] + x) + y) == Norm(['\r', '\n'] + xy)
  {
    NormPair(x);
    NormPair(xy);
    NormPair(Norm(x) + y);
    Regroup(['\n'], Norm(x), y);
  }

  lemma {:induction false} NormOnce(x: string, y: string)
    requires NoDoubleReturn(x)
    ensures Norm(Norm(x) + y) == Norm(x + y)
    decreases |x|
  {
    if x == "" {
      assert Norm(x) + y == y && x + y == y;
    } else if |x| >= 2 && x[0] == '\r' && x[1] == '\n' {
      SuffixHasNoDoubleReturn(x, x[2..]);
      NormOnce(x[2..], y);
      assert x == ['\r', '\n'] + x[2..] && x + y == ['\r', '\n'] + (x[2..] + y);
      NormOncePair(x[2..], y, x[2..] + y);
    } else if |x| == 1 {
      assert Norm(x) == x by { assert x[1..] == ""; }
    } else {
      NormOnceSkip(x, y);
      NormOnce(x[1..], y);
    }
  }

  lemma SuffixHasNoDoubleReturn(s: string, t: string)
    requires |s| >= 2 && NoDoubleReturn(s) && t == s[2..]
    ensures NoDoubleReturn(t)
  {
    assert s[1..][1..] == t;
  }

  lemma NormOnceSkip(x: string, y: string)
    requires |x| >= 2 && !(x[0] == '\r' && x[1] == '\n') && NoDoubleReturn(x)
    ensures Norm(Norm(x) + y) == [x[0]] + Norm(Norm(x[1..]) + y)
    ensures Norm(x + y) == [x[0]] + Norm(x[1..] + y)
    ensures NoDoubleReturn(x[1..])
  {
    assert x[1..] + y == (x + y)[1..];
    NormStarts(x[1..]);
    var z := Norm(x[1..]) + y;
    assert Norm(x) + y == [x[0]] + z && ([x[0]] + z)[1..] == z && z[0] == Norm(x[1..])[0];
    assert x[0] == '\r' && |x| >= 3 ==> !(x[1] == '\r' && x[2] == '\n');
  }

  lemma {:induction false} NormHasNoPair(s: string)
    requires NoDoubleReturn(s)
    ensures NoPair(Norm(s))
    decreases |s|
  {
    if s != "" {
      if |s| >= 2 && s[0] == '\r' && s[1] == '\n' {
        assert s[1..][1..] == s[2..];
        NormHasNoPair(s[2..]);
        assert Norm(s)[1..] == Norm(s[2..]);
      } else {
        NormHasNoPair(s[1..]);
        assert Norm(s)[1..] == Norm(s[1..]);
        if |s| >= 2 { NormStarts(s[1..]); }
      }
    }
  }

  /** Text that is already normalised, up to and including a line feed, stays as it is. */
  lemma {:induction false} NormKeepsFinished(p: string, z: string)
    requires NoPair(p) && (p == "" || p[|p| - 1] == '\n')
    ensures Norm(p + z) == p + Norm(z)
  {
    if p == "" {
      assert p + z == z;
    } else {
      assert (p + z)[1..] == p[1..] + z;
      NormKeepsFinished(p[1..], z);
    }
  }

  lemma {:induction false} GapIsStable(x: string, y: string)
    requires FirstGap(x).Some?
    ensures FirstGap(x + y) == FirstGap(x)
  {
    if !(x[0] == '\n' && x[1] == '\n') {
      assert (x + y)[1..] == x[1..] + y;
      GapIsStable(x[1..], y);
    }
  }

  function Finished(s: string): string { s[..|s| - |Left(s)|] }

  lemma {:induction false} LeftIsBehind(s: string)
    ensures Left(s) == s[|s| - |Left(s)|..]
    decreases |s|
  {
    if FirstGap(s).Some? { LeftIsBehind(s[FirstGap(s).value + 2..]); }
  }

  lemma CutHead(head: string, tail: string)
    requires |head| >= 2 && FirstGap(head) == Some(|head| - 2)
    ensures Frames(head + tail) == [head[..|head| - 2]] + Frames(tail) && Left(head + tail) == Left(tail)
    ensures Finished(head + tail) == head + Finished(tail)
  {
    GapIsStable(head, tail);
    assert (head + tail)[..|head| - 2] == head[..|head| - 2] && (head + tail)[|head|..] == tail;
  }

  /** The finished part ends with a line feed, and cuts into the same frames whatever follows. */
  ghost predicate CutsAlike(s: string, z: string) {
    && (Finished(s) == "" || Finished(s)[|Finished(s)| - 1] == '\n')
    && Frames(Finished(s) + z) == Frames(s) + Frames(z)
    && Left(Finished(s) + z) == Left(z)
  }

  lemma CutsAlikeBehind(head: string, rest: string, z: string)
    requires |head| >= 2 && FirstGap(head) == Some(|head| - 2) && head[|head| - 1] == '\n'
    requires CutsAlike(rest, z)
    ensures CutsAlike(head + rest, z)
  {
    var f, more := Finished(rest), Finished(rest) + z;
    CutHead(head, rest);
    CutHead(head, more);
    Regroup(head, f, z);
    Regroup([head[..|head| - 2]], Frames(rest), Frames(z));
  }

  lemma SplitAtGap(s: string) returns (head: string, rest: string)
    requires FirstGap(s).Some?
    ensures s == head + rest && |rest| < |s|
    ensures |head| >= 2 && FirstGap(head) == Some(|head| - 2) && head[|head| - 1] == '\n'
  {
    var at := FirstGap(s).value;
    head, rest := s[..at + 2], s[at + 2..];
    GapInHead(s, at);
  }

  lemma {:induction false} FinishedCuts(s: string, z: string)
    ensures CutsAlike(s, z)
    decreases |s|
  {
    if FirstGap(s).Some? {
      var head, rest := SplitAtGap(s);
      FinishedCuts(rest, z);
      CutsAlikeBehind(head, rest, z);
    } else {
      assert Finished(s) + z == z;
    }
  }

  lemma {:induction false} GapInHead(s: string, at: nat)
    requires FirstGap(s) == Some(at)
    ensures FirstGap(s[..at + 2]) == Some(at)
  {
    if at > 0 {
      assert s[..at + 2][1..] == s[1..][..at + 1];
      GapInHead(s[1..], at - 1);
    }
  }

  /** One more message: as if it had all arrived at once. */
  lemma OneMoreMessage(x: string, y: string)
    requires NoDoubleReturn(x)
    ensures Frames(Norm(x + y)) == Frames(Norm(x)) + Frames(Norm(Left(Norm(x)) + y))
    ensures Left(Norm(x + y)) == Left(Norm(Left(Norm(x)) + y))
  {
    NormOnce(x, y);
    NormHasNoPair(x);
    FinishThenMore(Norm(x), y);
  }

  lemma FinishThenMore(n: string, y: string)
    requires NoPair(n)
    ensures Frames(Norm(n + y)) == Frames(n) + Frames(Norm(Left(n) + y))
    ensures Left(Norm(n + y)) == Left(Norm(Left(n) + y))
  {
    var z := Norm(Left(n) + y);
    FinishedCuts(n, z);
    FinishedIsKept(n, y);
  }

  lemma FinishedIsKept(n: string, y: string)
    requires NoPair(n) && (Finished(n) == "" || Finished(n)[|Finished(n)| - 1] == '\n')
    ensures Norm(n + y) == Finished(n) + Norm(Left(n) + y)
  {
    var p, l := Finished(n), Left(n);
    LeftIsBehind(n);
    assert n == p + l;
    NoPairInFront(p, l);
    NormKeepsFinished(p, l + y);
    Regroup(p, l, y);
  }

  /** Two carriage returns in front of a line feed occur at most at the very end. */
  predicate Settled(text: string) { text == "" || NoDoubleReturn(text[..|text| - 1]) }

  lemma SettledPrefix(x: string, y: string)
    requires Settled(x + y) && y != ""
    ensures NoDoubleReturn(x) && Settled(x)
  {
    var front := (x + y)[..|x + y| - 1];
    assert front == x + y[..|y| - 1];
    NoDoubleReturnInFront(x, y[..|y| - 1]);
    if x != "" {
      assert x == x[..|x| - 1] + [x[|x| - 1]];
      NoDoubleReturnInFront(x[..|x| - 1], [x[|x| - 1]]);
    }
  }

  /** The frames cut off do not depend on how such a text came in messages. */
  lemma {:induction false} CuttingDoesNotMatter(messages: seq<string>)
    requires Settled(Concat(messages))
    ensures var text := Norm(Concat(messages)); Fed(messages) == (Frames(text), Left(text))
    decreases |messages|
  {
    if messages != [] {
      var n := |messages| - 1;
      var x, y := Concat(messages[..n]), messages[n];
      ConcatSplit(messages, n);
      assert messages[..n + 1] == messages;
      if y == "" {
        assert x + y == x;
        CuttingDoesNotMatter(messages[..n]);
      } else {
        SettledPrefix(x, y);
        CuttingDoesNotMatter(messages[..n]);
        OneMoreMessage(x, y);
      }
    }
  }

  // ---- When it does ----

  lemma NormOther(c: char, x: string)
    requires c != '\r' || x == "" || x[0] != '\n'
    ensures Norm([c] + x) == [c] + Norm(x)
  {
    assert ([c] + x)[1..] == x;
  }

  lemma NormReturns(x: string)
    ensures Norm(['\r', '\r', '\n'] + x) == ['\r', '\n'] + Norm(x)
  {
    NormPair(x);
    NormOther('\r', ['\r', '\n'] + x);
    assert ['\r'] + (['\r', '\n'] + x) == ['\r', '\r', '\n'] + x;
    assert ['\r'] + (['\n'] + Norm(x)) == ['\r', '\n'] + Norm(x);
  }

  const RETURNS: string := ['\r', '\r', '\n']

  /** Characters in all frames, with the empty lines behind them. */
  function Size(frames: seq<string>): nat {
    if frames == [] then 0 else |frames[0]| + 2 + Size(frames[1..])
  }

  lemma {:induction false} SizeOfSum(a: seq<string>, b: seq<string>)
    ensures Size(a + b) == Size(a) + Size(b)
  {
    if a == [] {
      assert a + b == b;
    } else {
      assert (a + b)[1..] == a[1..] + b;
      SizeOfSum(a[1..], b);
    }
  }

  lemma SizeOfNext(frame: string, frames: seq<string>)
    ensures Size([frame] + frames) == |frame| + 2 + Size(frames)
  {
    assert ([frame] + frames)[1..] == frames;
  }

  lemma {:induction false} NothingIsLost(s: string)
    ensures Size(Frames(s)) + |Left(s)| == |s|
    decreases |s|
  {
    if FirstGap(s).Some? {
      var head, rest := SplitAtGap(s);
      CutHead(head, rest);
      NothingIsLost(rest);
      SizeOfNext(head[..|head| - 2], Frames(rest));
    } else {
      assert Frames(s) == [];
    }
  }

  /** A pair can only arise at the seam if what follows starts with a line feed. */
  lemma {:induction false} NormInParts(x: string, y: string)
    requires y == "" || y[0] != '\n'
    ensures Norm(x + y) == Norm(x) + Norm(y)
    decreases |x|
  {
    if x == "" {
      assert x + y == y;
    } else if |x| >= 2 && x[0] == '\r' && x[1] == '\n' {
      NormInParts(x[2..], y);
      NormPairInParts(x[2..], y, x, x[2..] + y);
    } else {
      NormInParts(x[1..], y);
      NormOtherInParts(x[0], x[1..], y, x, x[1..] + y);
    }
  }

  lemma NormPairInParts(rest: string, y: string, x: string, more: string)
    requires x == PAIR + rest && more == rest + y && Norm(more) == Norm(rest) + Norm(y)
    ensures Norm(x + y) == Norm(x) + Norm(y)
  {
    NormPair(rest);
    NormPair(more);
    Regroup(PAIR, rest, y);
    Regroup(['\n'], Norm(rest), Norm(y));
  }

  lemma NormOtherInParts(c: char, rest: string, y: string, x: string, more: string)
    requires x == [c] + rest && more == rest + y && Norm(more) == Norm(rest) + Norm(y)
    requires y == "" || y[0] != '\n'
    requires c != '\r' || rest == "" || rest[0] != '\n'
    ensures Norm(x + y) == Norm(x) + Norm(y)
  {
    NormOther(c, rest);
    NormOther(c, more);
    Regroup([c], rest, y);
    Regroup([c], Norm(rest), Norm(y));
  }

  lemma {:induction false} NormIsNoLonger(s: string)
    ensures |Norm(s)| <= |s|
    decreases |s|
  {
    if s != "" {
      if |s| >= 2 && s[0] == '\r' && s[1] == '\n' { NormIsNoLonger(s[2..]); } else { NormIsNoLonger(s[1..]); }
    }
  }

  /** A return and a line feed at the end are not part of an empty line, so they are left. */
  lemma {:induction false} LeftKeepsPair(s: string) returns (w: string)
    ensures Left(s + PAIR) == w + PAIR
    decreases |s|
  {
    var text := s + PAIR;
    if FirstGap(text).Some? {
      var at := FirstGap(text).value;
      assert at + 2 <= |s|;
      assert text[at + 2..] == s[at + 2..] + PAIR;
      w := LeftKeepsPair(s[at + 2..]);
    } else {
      w := s;
    }
  }

  const PAIR: string := ['\r', '\n']

  lemma NormReturnsAlone()
    ensures Norm(RETURNS) == PAIR
  {
    NormReturns("");
    assert RETURNS + "" == RETURNS && PAIR + Norm("") == PAIR;
  }

  lemma NormBeforeReturns(u: string)
    ensures Norm(u + RETURNS) == Norm(u) + PAIR
  {
    NormReturnsAlone();
    NormInParts(u, RETURNS);
  }

  lemma NormAroundReturns(u: string, v: string)
    ensures |Norm(u + RETURNS + v)| == |Norm(u)| + 2 + |Norm(v)|
  {
    NormReturns(v);
    assert (RETURNS + v)[0] == '\r';
    NormInParts(u, RETURNS + v);
    Regroup(u, RETURNS, v);
  }

  lemma NormAroundPair(w: string, v: string)
    ensures |Norm(w + PAIR + v)| <= |w| + 1 + |Norm(v)|
  {
    NormPair(v);
    assert (PAIR + v)[0] == '\r';
    NormInParts(w, PAIR + v);
    Regroup(w, PAIR, v);
    NormIsNoLonger(w);
  }

  lemma FedOnce(text: string)
    requires text != ""
    ensures Fed([text]) == (Frames(Norm(text)), Left(Norm(text)))
  {
    assert [] + [text] == [text];
    FedMore([], text, [text]);
    assert "" + text == text;
    assert [] + Frames(Norm(text)) == Frames(Norm(text));
  }

  lemma FedNext(messages: seq<string>, frames: seq<string>, buffer: string, body: string, text: string, more: seq<string>)
    requires Fed(messages) == (frames, buffer) && body != "" && text == Norm(buffer + body) && more == messages + [body]
    ensures Fed(more) == (frames + Frames(text), Left(text))
  {
    FedMore(messages, body, more);
  }

  function Total(fed: (seq<string>, string)): nat { Size(fed.0) + |fed.1| }

  lemma TotalOnce(x: string)
    requires x != ""
    ensures Total(Fed([x])) == |Norm(x)|
  {
    FedOnce(x);
    NothingIsLost(Norm(x));
  }

  lemma TotalTwice(x: string, y: string, l: string)
    requires x != "" && y != "" && l == Left(Norm(x))
    ensures Total(Fed([x, y])) == |Norm(x)| - |l| + |Norm(l + y)|
  {
    FedOnce(x);
    assert [x] + [y] == [x, y];
    FedNext([x], Frames(Norm(x)), l, y, Norm(l + y), [x, y]);
    NothingIsLost(Norm(x));
    NothingIsLost(Norm(l + y));
    SizeOfSum(Frames(Norm(x)), Frames(Norm(l + y)));
  }

  /** After a message that ends in two returns and a line feed, the pair that is left is
      normalised once more together with what comes next; in one message it is not. */
  lemma SecondPass(u: string, v: string)
    requires v != ""
    ensures Fed([u + RETURNS, v]) != Fed([u + RETURNS + v])
  {
    NormBeforeReturns(u);
    var w := LeftKeepsPair(Norm(u));
    NormAroundPair(w, v);
    NormAroundReturns(u, v);
    TotalTwice(u + RETURNS, v, w + PAIR);
    TotalOnce(u + RETURNS + v);
    assert Total(Fed([u + RETURNS, v])) < Total(Fed([u + RETURNS + v]));
  }

  lemma TwoParts(x: string, y: string)
    ensures Concat([x, y]) == x + y && Concat([x + y]) == x + y
  {
    ConcatOne(x);
    ConcatOne(x + y);
    assert [x] + [y] == [x, y];
    ConcatMore([x], y);
  }

  lemma UnsettledCuts(text: string) returns (a: seq<string>, b: seq<string>)
    requires !Settled(text)
    ensures Concat(a) == text && Concat(b) == text && Fed(a) != Fed(b)
  {
    var u, w := DoubleReturnAt(text[..|text| - 1]);
    var v := w + [text[|text| - 1]];
    assert text == u + RETURNS + v;
    SecondPass(u, v);
    TwoParts(u + RETURNS, v);
    a, b := [u + RETURNS, v], [u + RETURNS + v];
  }

  lemma {:induction false} DoubleReturnAt(s: string) returns (u: string, w: string)
    requires !NoDoubleReturn(s)
    ensures s == u + RETURNS + w
  {
    if s[0] == '\r' && s[1] == '\r' && s[2] == '\n' {
      u, w := "", s[3..];
    } else {
      u, w := DoubleReturnAt(s[1..]);
      u := [s[0]] + u;
    }
  }

  /** Exactly for which texts the frames cut off, or what is left, depend on the messages in
      which the text arrives. */
  lemma CuttingMattersIff(text: string)
    ensures (forall a, b :: Concat(a) == text && Concat(b) == text ==> Fed(a) == Fed(b)) <==> Settled(text)
  {
    if Settled(text) {
      forall a, b | Concat(a) == text && Concat(b) == text ensures Fed(a) == Fed(b) {
        CuttingDoesNotMatter(a);
        CuttingDoesNotMatter(b);
      }
    } else {
      var a, b := UnsettledCuts(text);
    }
  }

  lemma {:induction false} NormKeepsLine(p: string)
    requires NoLineBreak(p)
    ensures Norm(p) == p && FirstGap(p).None?
  {
    if p != "" { NormKeepsLine(p[1..]); }
  }

  lemma {:induction false} GapBehindLine(p: string, rest: string)
    requires NoLineBreak(p)
    ensures FirstGap(p + rest) == match FirstGap(rest) case None => None case Some(at) => Some(|p| + at)
  {
    if p == "" {
      assert p + rest == rest;
    } else {
      assert (p + rest)[1..] == p[1..] + rest;
      GapBehindLine(p[1..], rest);
    }
  }

  // ---- Where even the events differ ----

  /** A line, twice two returns with a line feed, and one more character. */
  function Doubled(line: string): string { line + (RETURNS + (RETURNS + "z")) }

  lemma NormTail()
    ensures Norm(RETURNS + (RETURNS + "z")) == PAIR + (PAIR + "z")
  {
    NormOther('z', "");
    assert ['z'] + "" == "z";
    NormReturns("z");
    NormReturns(RETURNS + "z");
  }

  lemma NoGapInTail()
    ensures FirstGap(PAIR + (PAIR + "z")).None?
  {
    assert NoLineBreak("z");
    NormKeepsLine("z");
    var s: string := PAIR + (PAIR + "z");
    assert s[3..][1..] == "z" && s[2..][1..] == s[3..] && s[1..][1..] == s[2..];
    assert FirstGap(s[3..]).None?;
    assert FirstGap(s[2..]).None?;
    assert FirstGap(s[1..]).None?;
  }

  lemma DoubledAtOnce(line: string)
    requires NoLineBreak(line)
    ensures Fed([Doubled(line)]).0 == []
  {
    NormTail();
    NormKeepsLine(line);
    NormInParts(line, RETURNS + (RETURNS + "z"));
    NoGapInTail();
    GapBehindLine(line, PAIR + (PAIR + "z"));
    FedOnce(Doubled(line));
  }

  lemma NextMessage(messages: seq<string>, buffer: string, body: string, text: string, more: seq<string>)
    requires Fed(messages) == ([], buffer) && body != "" && text == Norm(buffer + body) && FirstGap(text).None?
    requires more == messages + [body]
    ensures Fed(more) == ([], text)
  {
    FedNext(messages, [], buffer, body, text, more);
    assert Frames(text) == [] && [] + Frames(text) == [];
  }

  lemma AfterFirst(line: string)
    requires NoLineBreak(line)
    ensures Norm("" + (line + RETURNS)) == line + PAIR && FirstGap(line + PAIR).None?
  {
    assert "" + (line + RETURNS) == line + RETURNS;
    NormKeepsLine(line);
    NormBeforeReturns(line);
    assert PAIR[1..] == ['\n'];
    GapBehindLine(line, PAIR);
  }

  lemma AfterSecond(line: string)
    requires NoLineBreak(line)
    ensures Norm(line + PAIR + RETURNS) == line + (['\n'] + PAIR) && FirstGap(line + (['\n'] + PAIR)).None?
  {
    NormKeepsLine(line);
    Regroup(line, PAIR, RETURNS);
    NormInParts(line, PAIR + RETURNS);
    NormPair(RETURNS);
    NormReturnsAlone();
    assert (['\n'] + PAIR)[1..] == PAIR && PAIR[1..] == ['\n'];
    GapBehindLine(line, ['\n'] + PAIR);
  }

  lemma AfterThird(line: string)
    requires NoLineBreak(line)
    ensures Norm(line + (['\n'] + PAIR) + "z") == line + (['\n', '\n'] + "z")
  {
    NormKeepsLine(line);
    LineThenFeed(line);
    var last := PAIR + "z";
    assert line + (['\n'] + PAIR) + "z" == (line + ['\n']) + last;
    NormInParts(line + ['\n'], last);
    NormPair("z");
    NormOther('z', "");
    assert ['z'] + "" == "z";
    assert (line + ['\n']) + (['\n'] + "z") == line + (['\n', '\n'] + "z");
  }

  lemma {:induction false} LineThenFeed(line: string)
    requires NoLineBreak(line)
    ensures Norm(line + ['\n']) == line + ['\n']
  {
    if line == "" {
      assert line + ['\n'] == ['\n'] && ['\n'][1..] == "";
    } else {
      assert (line + ['\n'])[1..] == line[1..] + ['\n'];
      LineThenFeed(line[1..]);
    }
  }

  lemma FrameThenZ(line: string, text: string)
    requires NoLineBreak(line) && text == line + (['\n', '\n'] + "z")
    ensures Frames(text) == [line]
  {
    GapBehindLine(line, ['\n', '\n'] + "z");
    assert NoLineBreak("z");
    NormKeepsLine("z");
    assert text[..|line|] == line && text[|line| + 2..] == "z";
    assert Frames("z") == [];
    assert [line] + [] == [line];
  }

  lemma ConcatThree(x: string, y: string, z: string)
    ensures Concat([x, y, z]) == x + (y + z)
  {
    ConcatOne(z);
    assert [y, z][1..] == [z] && [x, y, z][1..] == [y, z];
  }

  lemma FedThree(line: string, m1: seq<string>, m2: seq<string>, m3: seq<string>)
    requires NoLineBreak(line)
    requires m1 == [line + RETURNS] && m2 == m1 + [RETURNS] && m3 == m2 + ["z"]
    ensures Fed(m3).0 == [line]
  {
    AfterFirst(line);
    assert [] + m1 == m1 && Fed([]) == ([], "");
    NextMessage([], "", line + RETURNS, line + PAIR, m1);
    AfterSecond(line);
    NextMessage(m1, line + PAIR, RETURNS, line + (['\n'] + PAIR), m2);
    AfterThird(line);
    FedNext(m2, [], line + (['\n'] + PAIR), "z", line + (['\n', '\n'] + "z"), m3);
    FrameThenZ(line, line + (['\n', '\n'] + "z"));
    assert [] + [line] == [line];
  }

  /** In three messages the line ends become an empty line, so the line becomes a frame; in one
      message they do not, and there is no frame. */
  lemma DoubledInThree(line: string) returns (messages: seq<string>)
    requires NoLineBreak(line)
    ensures Concat(messages) == Doubled(line) && Fed(messages).0 == [line]
  {
    messages := [line + RETURNS, RETURNS, "z"];
    FedThree(line, [line + RETURNS], [line + RETURNS, RETURNS], messages);
    ConcatThree(line + RETURNS, RETURNS, "z");
    Regroup(line, RETURNS, RETURNS + "z");
  }
}
