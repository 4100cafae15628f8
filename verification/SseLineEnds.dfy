/** The browser reads a stream alike whether its lines end in LF or in CR LF. */
module SseLineEnds {
  import opened Prelude
  import opened JsonText
  import opened Sse
  import SseRoundTrip

  const CRLF: string := ['\r', '\n']

  predicate IsEnd(nl: string) { nl == LF || nl == CRLF }

  /** The lines of a frame, with line ends between them. */
  function FrameText(lines: seq<string>, nl: string): string
    requires lines != []
  {
    if |lines| == 1 then lines[0] else lines[0] + (nl + FrameText(lines[1..], nl))
  }

  predicate IsFrame(lines: seq<string>) {
    lines != [] && forall i :: 0 <= i < |lines| ==> lines[i] != "" && NoLineBreak(lines[i])
  }

  /** Frames with an empty line behind each. */
  function StreamText(frames: seq<seq<string>>, nl: string): string
    requires forall i :: 0 <= i < |frames| ==> IsFrame(frames[i])
  {
    if frames == [] then ""
    else
      assert IsFrame(frames[0]);
      FrameText(frames[0], nl) + ((nl + nl) + StreamText(frames[1..], nl))
  }

  // ---- One frame ----

  lemma EndOfLine(nl: string, tail: string)
    requires IsEnd(nl)
    ensures LineEnd(nl + tail) == Some((0, |nl|))
  {
  }

  lemma {:induction false} LinesOfFrame(lines: seq<string>, nl: string)
    requires IsFrame(lines) && IsEnd(nl)
    ensures SplitLines(FrameText(lines, nl)) == lines
  {
    if |lines| == 1 {
      SseRoundTrip.OneLine(lines[0]);
    } else {
      var tail := FrameText(lines[1..], nl);
      LinesOfFrame(lines[1..], nl);
      FirstLineOf(lines[0], nl, tail);
    }
  }

  lemma FirstLineOf(line: string, nl: string, tail: string)
    requires NoLineBreak(line) && IsEnd(nl)
    ensures SplitLines(line + (nl + tail)) == [line] + SplitLines(tail)
  {
    EndOfLine(nl, tail);
    SseRoundTrip.NoLineEndWithin(line, nl + tail);
    var s := line + (nl + tail);
    assert s[..|line|] == line && s[|line| + |nl|..] == tail;
  }

  lemma TwoEnds(nl: string, rest: string)
    requires IsEnd(nl)
    ensures FirstBreak((nl + nl) + rest) == Some(0) && SeparatorLength((nl + nl) + rest) == |nl + nl|
  {
    var s := (nl + nl) + rest;
    if nl == CRLF { assert s[0] == '\r' && s[1] == '\n' && s[2] == '\r' && s[3] == '\n'; }
  }

  lemma OneFurther(c: char, s: string, whole: string, at: nat)
    requires whole == [c] + s && !BreakAt(whole) && FirstBreak(s) == Some(at)
    ensures FirstBreak(whole) == Some(1 + at)
  {
    assert whole[1..] == s;
  }

  predicate NoEnd(c: char) { c != '\n' && c != '\r' }

  /** A line end with a line behind it is no frame boundary. */
  lemma EndThenLine(nl: string, tail: string, at: nat, whole: string)
    requires IsEnd(nl) && tail != "" && NoEnd(tail[0]) && FirstBreak(tail) == Some(at) && whole == nl + tail
    ensures FirstBreak(whole) == Some(|nl| + at)
  {
    var s := LF + tail;
    assert s[0] == '\n' && s[1] == tail[0] && s == ['\n'] + tail;
    assert !BreakAt(s);
    OneFurther('\n', tail, s, at);
    if nl == CRLF {
      assert whole == ['\r'] + s && whole[1] == '\n' && whole[2] == tail[0];
      assert !BreakAt(whole);
      OneFurther('\r', s, whole, 1 + at);
    }
  }

  lemma LineInFront(line: string, nl: string, tail: string, at: nat, text: string)
    requires NoLineBreak(line) && IsEnd(nl) && tail != "" && NoEnd(tail[0]) && FirstBreak(tail) == Some(at)
    requires text == line + (nl + tail)
    ensures FirstBreak(text) == Some(|line| + (|nl| + at))
  {
    EndThenLine(nl, tail, at, nl + tail);
    SseRoundTrip.NoBreakWithin(line, nl + tail);
  }

  lemma {:induction false} BreakBehindFrame(lines: seq<string>, nl: string, end: string, text: string)
    requires IsFrame(lines) && IsEnd(nl) && FirstBreak(end) == Some(0) && text == FrameText(lines, nl) + end
    ensures FirstBreak(text) == Some(|FrameText(lines, nl)|)
    ensures text != "" && NoEnd(text[0])
  {
    var line := lines[0];
    if |lines| == 1 {
      SseRoundTrip.NoBreakWithin(line, end);
    } else {
      var frame := FrameText(lines[1..], nl);
      BreakBehindFrame(lines[1..], nl, end, frame + end);
      assert text == line + (nl + (frame + end));
      LineInFront(line, nl, frame + end, |frame|, text);
    }
    assert text[0] == line[0];
  }

  /** The frame is read from its lines, and reading goes on right behind the empty line. */
  lemma FrameIsRead(lines: seq<string>, nl: string, rest: string, text: string, objects: string -> Option<Value>)
    requires IsFrame(lines) && IsEnd(nl) && text == FrameText(lines, nl) + ((nl + nl) + rest)
    ensures Consume(text, objects) == Onward(EffectOf(FieldsOf(lines), objects), rest, Consume(rest, objects))
  {
    var frame, end := FrameText(lines, nl), (nl + nl) + rest;
    TwoEnds(nl, rest);
    BreakBehindFrame(lines, nl, end, text);
    LinesOfFrame(lines, nl);
    assert text[..|frame|] == frame && text[|frame|..] == end;
    assert text[|frame| + |nl + nl|..] == rest;
  }

  // ---- A stream ----

  /** Whichever line ends the frames come with, the callbacks, where the reading stops and what it
      leaves are determined by their lines alone. */
  lemma {:induction false} LineEndsDoNotMatter(frames: seq<seq<string>>, objects: string -> Option<Value>)
    requires forall i :: 0 <= i < |frames| ==> IsFrame(frames[i])
    ensures Consume(StreamText(frames, LF), objects).callbacks == Consume(StreamText(frames, CRLF), objects).callbacks
    ensures Consume(StreamText(frames, LF), objects).status == Consume(StreamText(frames, CRLF), objects).status
    ensures Consume(StreamText(frames, LF), objects).status == Reading ==>
      Consume(StreamText(frames, LF), objects).remaining == Consume(StreamText(frames, CRLF), objects).remaining == ""
  {
    if frames != [] {
      var rest := frames[1..];
      LineEndsDoNotMatter(rest, objects);
      FrameIsRead(frames[0], LF, StreamText(rest, LF), StreamText(frames, LF), objects);
      FrameIsRead(frames[0], CRLF, StreamText(rest, CRLF), StreamText(frames, CRLF), objects);
    }
  }

  /** Data lines are joined by line feeds: nothing of a payload that spans several lines is lost. */
  lemma {:induction false} JoinedLinesSplit(lines: seq<string>)
    requires lines != [] && forall i :: 0 <= i < |lines| ==> NoLineBreak(lines[i])
    ensures SplitLines(JoinLines(lines)) == lines
  {
    if |lines| == 1 {
      SseRoundTrip.OneLine(lines[0]);
    } else {
      JoinedLinesSplit(lines[1..]);
      Regroup(lines[0], LF, JoinLines(lines[1..]));
      FirstLineOf(lines[0], LF, JoinLines(lines[1..]));
    }
  }

  function DataLines(lines: seq<string>): seq<string>
    decreases |lines|
  {
    if lines == [] then [] else DataLines(lines[..|lines| - 1]) + ["data: " + lines[|lines| - 1]]
  }

  lemma {:induction false} DataLinesAreKept(name: string, lines: seq<string>)
    requires Trimmed(name)
    ensures FieldsOf(["event: " + name] + DataLines(lines)) == Fields(name, lines)
    decreases |lines|
  {
    var head := ["event: " + name];
    if lines == [] {
      assert head + [] == head && head[..0] == [];
      assert FieldsOf(head) == WithLine(FieldsOf([]), head[0]);
      SseRoundTrip.EventLineField(Event(name, ""));
    } else {
      var n := |lines| - 1;
      DataLinesAreKept(name, lines[..n]);
      var all := head + DataLines(lines);
      assert all[..|all| - 1] == head + DataLines(lines[..n]) && all[|all| - 1] == "data: " + lines[n];
      OneMoreData(name, lines[..n], lines[n]);
      assert lines == lines[..n] + [lines[n]];
    }
  }

  lemma OneMoreData(name: string, data: seq<string>, value: string)
    ensures WithLine(Fields(name, data), "data: " + value) == Fields(name, data + [value])
  {
    var line := "data: " + value;
    assert line[..5] == "data:" && line[5..] == [' '] + value && ([' '] + value)[1..] == value;
    assert line[0] != "event:"[0];
  }
}
