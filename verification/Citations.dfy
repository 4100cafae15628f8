/** Which sources a text cites, and whether they are among those it was given. */
module Citations {
  import opened Prelude
  import Ranking

  function FirstClose(s: string): (r: Option<nat>)
    ensures r.Some? ==> r.value < |s| && s[r.value] == ']'
  {
    if s == "" then None
    else if s[0] == ']' then Some(0)
    else
      match FirstClose(s[1..])
      case None => None
      case Some(at) => Some(at + 1)
  }

  /** The contents of the bracket groups, as the pattern `\[([^\]]+)\]` finds them from left to right. */
  function Groups(s: string): seq<string>
    decreases |s|
  {
    if s == "" then []
    else if s[0] != '[' then Groups(s[1..])
    else
      match FirstClose(s[1..])
      case None => Groups(s[1..])
      case Some(at) => if at == 0 then Groups(s[1..]) else [s[1..at + 1]] + Groups(s[at + 2..])
  }

  function SplitCommas(s: string): (r: seq<string>)
    ensures r != []
  {
    if s == "" then [""]
    else if s[0] == ',' then [""] + SplitCommas(s[1..])
    else
      var rest := SplitCommas(s[1..]);
      [[s[0]] + rest[0]] + rest[1..]
  }

  /** `S` and a number without leading zero. */
  predicate IsSourceId(s: string) {
    && |s| >= 2 && s[0] == 'S' && '1' <= s[1] <= '9'
    && forall i :: 1 <= i < |s| ==> IsDigit(s[i])
  }

  /** A token, stripped and in upper case, if it is a source id. */
  function IdOf(token: string): seq<string> {
    var id := Upper(Trim(token));
    if IsSourceId(id) then [id] else []
  }

  /** The source ids among the tokens of the groups, with repetitions. */
  function IdsIn(tokens: seq<string>): seq<string>
    decreases |tokens|
  {
    if tokens == [] then [] else IdsIn(tokens[..|tokens| - 1]) + IdOf(tokens[|tokens| - 1])
  }

  function Tokens(groups: seq<string>): seq<string>
    decreases |groups|
  {
    if groups == [] then [] else Tokens(groups[..|groups| - 1]) + SplitCommas(groups[|groups| - 1])
  }

  /** The cited ids in order of first appearance. */
  function CitedIds(text: string): seq<string> { Distinct(IdsIn(Tokens(Groups(text)))) }

  lemma IdsOfMore(tokens: seq<string>, token: string)
    ensures IdsIn(tokens + [token]) == IdsIn(tokens) + IdOf(token)
  {
    assert (tokens + [token])[..|tokens|] == tokens;
  }

  lemma {:induction false} IdsOfSum(a: seq<string>, b: seq<string>)
    ensures IdsIn(a + b) == IdsIn(a) + IdsIn(b)
    decreases |b|
  {
    if b == [] {
      assert a + b == a;
    } else {
      var front, last := b[..|b| - 1], b[|b| - 1];
      SplitLast(a, b);
      IdsOfSum(a, front);
      IdsOfMore(front, last);
      IdsOfMore(a + front, last);
      Regroup(IdsIn(a), IdsIn(front), IdOf(last));
    }
  }

  lemma {:induction false} IdsAreSourceIds(tokens: seq<string>)
    ensures forall i :: 0 <= i < |IdsIn(tokens)| ==> IsSourceId(IdsIn(tokens)[i])
    decreases |tokens|
  {
    if tokens != [] { IdsAreSourceIds(tokens[..|tokens| - 1]); }
  }

  /** What has been found so far, for the ids `all` met so far. */
  ghost predicate FoundSoFar(found: seq<string>, seen: set<string>, all: seq<string>) {
    found == Distinct(all) && forall x :: x in seen <==> x in all
  }

  lemma TokensMore(groups: seq<string>, g: nat)
    requires g < |groups|
    ensures IdsIn(Tokens(groups[..g + 1])) == IdsIn(Tokens(groups[..g])) + IdsIn(SplitCommas(groups[g]))
  {
    assert groups[..g + 1][..g] == groups[..g];
    IdsOfSum(Tokens(groups[..g]), SplitCommas(groups[g]));
  }

  method CitedSourceIds(text: string) returns (found: seq<string>)
    ensures found == CitedIds(text)
  {
    var groups := Groups(text);
    var seen: set<string> := {};
    found := [];
    for g := 0 to |groups|
      invariant FoundSoFar(found, seen, IdsIn(Tokens(groups[..g])))
    {
      var tokens := SplitCommas(groups[g]);
      TokensMore(groups, g);
      found, seen := ReadGroup(tokens, found, seen, IdsIn(Tokens(groups[..g])));
    }
    assert groups[..|groups|] == groups;
  }

  method ReadGroup(tokens: seq<string>, foundBefore: seq<string>, seenBefore: set<string>, ghost all: seq<string>)
    returns (found: seq<string>, seen: set<string>)
    requires FoundSoFar(foundBefore, seenBefore, all)
    ensures FoundSoFar(found, seen, all + IdsIn(tokens))
  {
    found, seen := foundBefore, seenBefore;
    ghost var met := all;
    assert all + [] == all;
    for t := 0 to |tokens|
      invariant met == all + IdsIn(tokens[..t]) && FoundSoFar(found, seen, met)
    {
      assert tokens[..t + 1] == tokens[..t] + [tokens[t]];
      IdsOfMore(tokens[..t], tokens[t]);
      Regroup(all, IdsIn(tokens[..t]), IdOf(tokens[t]));
      found, seen := ReadToken(tokens[t], found, seen, met);
      met := met + IdOf(tokens[t]);
    }
    assert tokens[..|tokens|] == tokens;
  }

  method ReadToken(token: string, foundBefore: seq<string>, seenBefore: set<string>, ghost met: seq<string>)
    returns (found: seq<string>, seen: set<string>)
    requires FoundSoFar(foundBefore, seenBefore, met)
    ensures FoundSoFar(found, seen, met + IdOf(token))
  {
    found, seen := foundBefore, seenBefore;
    var id := Upper(Trim(token));
    assert met + [] == met;
    if IsSourceId(id) {
      DistinctOfMore(met, id);
      if id !in seen {
        seen, found := seen + {id}, found + [id];
      }
    }
  }

  // ---- Where a cited id is written ----

  /** Every opening bracket is followed by a closing one. */
  ghost predicate NothingOpen(s: string) { forall i :: 0 <= i < |s| && s[i] == '[' ==> ']' in s[i..] }

  /** A token between commas, or at an end. */
  predicate AtCommas(left: string, token: string, right: string) {
    && ',' !in token
    && (left != "" ==> left[|left| - 1] == ',')
    && (right != "" ==> right[0] == ',')
  }

  function InBrackets(before: string, left: string, token: string, right: string, after: string): string {
    before + (['['] + (left + token + right) + [']'] + after)
  }

  /** `token` stands in a bracket group of the text, alone or between commas. */
  ghost predicate WrittenAt(text: string, token: string, before: string, left: string, right: string, after: string) {
    && text == InBrackets(before, left, token, right, after)
    && NothingOpen(before) && ']' !in left + token + right && AtCommas(left, token, right)
  }

  ghost predicate Written(text: string, token: string) {
    exists before, left, right, after :: WrittenAt(text, token, before, left, right, after)
  }

  lemma {:induction false} FirstCloseIs(inner: string, after: string)
    requires ']' !in inner
    ensures FirstClose(inner + ([']'] + after)) == Some(|inner|)
  {
    if inner == "" {
      assert inner + ([']'] + after) == [']'] + after;
    } else {
      assert (inner + ([']'] + after))[1..] == inner[1..] + ([']'] + after);
      FirstCloseIs(inner[1..], after);
    }
  }

  lemma {:induction false} FirstCloseCuts(s: string)
    ensures FirstClose(s).None? <==> ']' !in s
    ensures FirstClose(s).Some? ==> ']' !in s[..FirstClose(s).value]
  {
    if s != "" && s[0] != ']' {
      FirstCloseCuts(s[1..]);
      assert s == [s[0]] + s[1..];
      if FirstClose(s).Some? {
        var at := FirstClose(s).value;
        assert s[..at] == [s[0]] + s[1..][..at - 1];
      }
    }
  }

  lemma NothingOpenBehind(s: string, k: nat)
    requires NothingOpen(s) && k <= |s|
    ensures NothingOpen(s[k..])
  {
    forall i | 0 <= i < |s[k..]| && s[k..][i] == '[' ensures ']' in s[k..][i..] {
      assert s[k..][i..] == s[k + i..];
    }
  }

  // the pattern, case by case

  lemma GroupsSkip(c: char, rest: string)
    requires c != '[' || (rest != "" && rest[0] == ']')
    ensures Groups([c] + rest) == Groups(rest)
  {
    assert ([c] + rest)[1..] == rest;
  }

  lemma GroupAtStart(inner: string, after: string, s: string)
    requires inner != "" && ']' !in inner && s == ['['] + (inner + ([']'] + after))
    ensures Groups(s) == [inner] + Groups(after)
  {
    assert s[1..] == inner + ([']'] + after);
    FirstCloseIs(inner, after);
    assert s[1..|inner| + 1] == inner && s[|inner| + 2..] == after;
  }

  /** An opening bracket, and the first closing one behind it. */
  lemma OpenSplits(s: string, tail: string) returns (inner: string, more: string)
    requires s == ['['] + tail && ']' in tail
    ensures tail == inner + ([']'] + more) && ']' !in inner
  {
    FirstCloseCuts(tail);
    var at := FirstClose(tail).value;
    inner, more := tail[..at], tail[at + 1..];
  }

  /** Groups are found one after the other. */
  lemma {:induction false} GroupsInParts(before: string, rest: string, s: string)
    requires NothingOpen(before) && s == before + rest
    ensures Groups(s) == Groups(before) + Groups(rest)
    decreases |before|
  {
    if before == "" {
      assert s == rest;
    } else if before[0] != '[' {
      var tail := before[1..];
      assert before == [before[0]] + tail;
      NothingOpenBehind(before, 1);
      GroupsInParts(tail, rest, tail + rest);
      SkipInParts(before[0], tail, rest, tail + rest);
    } else {
      var tail := before[1..];
      assert before[0..] == before && before == ['['] + tail && ']' in before;
      var inner, more := OpenSplits(before, tail);
      if inner == "" {
        assert tail == [']'] + more;
        NothingOpenBehind(before, 1);
        GroupsInParts(tail, rest, tail + rest);
        SkipInParts('[', tail, rest, tail + rest);
      } else {
        var n := |inner| + 2;
        assert before[n..] == more;
        NothingOpenBehind(before, n);
        GroupsInParts(more, rest, more + rest);
        FiveParts(['['], inner, [']'], more, rest);
        GroupAtStart(inner, more, before);
        GroupAtStart(inner, more + rest, s);
        Regroup([inner], Groups(more), Groups(rest));
      }
    }
  }

  lemma SkipInParts(c: char, tail: string, rest: string, more: string)
    requires c != '[' || (tail != "" && tail[0] == ']')
    requires more == tail + rest && Groups(more) == Groups(tail) + Groups(rest)
    ensures Groups([c] + tail + rest) == Groups([c] + tail) + Groups(rest)
  {
    assert [c] + tail + rest == [c] + more;
    assert tail != "" ==> more[0] == tail[0];
    GroupsSkip(c, tail);
    GroupsSkip(c, more);
  }

  lemma FiveParts(a: string, b: string, c: string, d: string, e: string)
    ensures a + (b + (c + d)) + e == a + (b + (c + (d + e)))
  {
  }

  lemma SplitFirst(c: char, rest: string)
    ensures c == ',' ==> SplitCommas([c] + rest) == [""] + SplitCommas(rest)
    ensures c != ',' ==> SplitCommas([c] + rest) == [[c] + SplitCommas(rest)[0]] + SplitCommas(rest)[1..]
  {
    assert ([c] + rest)[1..] == rest;
  }

  lemma PrefixFirst(c: char, a: seq<string>, b: seq<string>)
    requires a != []
    ensures [[c] + (a + b)[0]] + (a + b)[1..] == ([[c] + a[0]] + a[1..]) + b
  {
  }

  lemma OneMoreChar(c: char, a: string, b: string, rest: string)
    requires SplitCommas(rest) == SplitCommas(a) + SplitCommas(b)
    ensures SplitCommas([c] + rest) == SplitCommas([c] + a) + SplitCommas(b)
  {
    SplitFirst(c, a);
    SplitFirst(c, rest);
    if c == ',' {
      Regroup([""], SplitCommas(a), SplitCommas(b));
    } else {
      PrefixFirst(c, SplitCommas(a), SplitCommas(b));
    }
  }

  lemma {:induction false} SplitAtComma(a: string, b: string, s: string)
    requires s == a + ([','] + b)
    ensures SplitCommas(s) == SplitCommas(a) + SplitCommas(b)
  {
    if a == "" {
      SplitFirst(',', b);
      assert s == [','] + b;
    } else {
      var rest := a[1..] + ([','] + b);
      SplitAtComma(a[1..], b, rest);
      OneMoreChar(a[0], a[1..], b, rest);
      assert a == [a[0]] + a[1..] && s == [a[0]] + rest;
    }
  }

  lemma {:induction false} NoCommaNoSplit(s: string)
    requires ',' !in s
    ensures SplitCommas(s) == [s]
  {
    if s != "" {
      assert s == [s[0]] + s[1..];
      NoCommaNoSplit(s[1..]);
    }
  }

  lemma TokenIsFirst(token: string, right: string)
    requires ',' !in token && (right != "" ==> right[0] == ',')
    ensures token in SplitCommas(token + right)
  {
    NoCommaNoSplit(token);
    if right == "" {
      assert token + right == token;
    } else {
      assert right == [','] + right[1..];
      SplitAtComma(token, right[1..], token + right);
    }
  }

  lemma TokenIsSplitOff(left: string, token: string, right: string)
    requires AtCommas(left, token, right)
    ensures token in SplitCommas(left + token + right)
  {
    TokenIsFirst(token, right);
    Regroup(left, token, right);
    if left == "" {
      assert left + (token + right) == token + right;
    } else {
      var n := |left| - 1;
      assert left == left[..n] + [','];
      Regroup(left[..n], [','], token + right);
      SplitAtComma(left[..n], token + right, left[..n] + ([','] + (token + right)));
    }
  }

  /** Up to the first comma, and from there on. */
  lemma {:induction false} FirstToken(s: string) returns (first: string, rest: string)
    ensures s == first + rest && ',' !in first && (rest != "" ==> rest[0] == ',')
  {
    if s == "" || s[0] == ',' {
      first, rest := "", s;
    } else {
      first, rest := FirstToken(s[1..]);
      first := [s[0]] + first;
    }
  }

  lemma {:induction false} TokenIsWritten(inner: string, token: string) returns (left: string, right: string)
    requires token in SplitCommas(inner)
    ensures inner == left + token + right && AtCommas(left, token, right)
    decreases |inner|
  {
    var first, rest := FirstToken(inner);
    NoCommaNoSplit(first);
    if rest == "" {
      assert first + rest == first;
      left, right := "", "";
      assert left + token + right == token;
    } else {
      var tail := rest[1..];
      assert rest == [','] + tail;
      SplitAtComma(first, tail, inner);
      if token == first {
        left, right := "", rest;
        assert left + token + right == token + right;
      } else {
        assert token in SplitCommas(tail);
        var before, after := TokenIsWritten(tail, token);
        left, right := TokenLater(first, before, token, after, inner);
      }
    }
  }

  lemma TokenLater(first: string, before: string, token: string, after: string, inner: string) returns (left: string, right: string)
    requires AtCommas(before, token, after) && inner == first + ([','] + (before + token + after))
    ensures inner == left + token + right && AtCommas(left, token, right)
  {
    left, right := first + ([','] + before), after;
    assert left[|left| - 1] == if before == "" then ',' else before[|before| - 1];
  }

  lemma {:induction false} NoCloseNoGroups(s: string)
    requires ']' !in s
    ensures Groups(s) == []
  {
    if s != "" {
      assert s == [s[0]] + s[1..];
      FirstCloseCuts(s[1..]);
      NoCloseNoGroups(s[1..]);
    }
  }

  /** A group stands behind `before`, outside any other group. */
  ghost predicate StandsAt(s: string, group: string, before: string, after: string) {
    s == before + (['['] + group + [']'] + after) && NothingOpen(before)
  }

  lemma {:induction false} GroupIsWritten(s: string, group: string) returns (before: string, after: string)
    requires group in Groups(s)
    ensures StandsAt(s, group, before, after) && ']' !in group && group != ""
    decreases |s|
  {
    var tail := s[1..];
    assert s == [s[0]] + tail;
    if s[0] != '[' {
      before, after := GroupIsWritten(tail, group);
      before := BehindChar(s[0], tail, s, group, before, after);
    } else if ']' !in tail {
      FirstCloseCuts(tail);
      NoCloseNoGroups(tail);
      assert false;
    } else {
      var inner, more := OpenSplits(s, tail);
      if inner == "" {
        assert tail == [']'] + more;
        GroupsSkip('[', tail);
        before, after := GroupIsWritten(tail, group);
        before := BehindChar('[', tail, s, group, before, after);
      } else {
        GroupAtStart(inner, more, s);
        if group == inner {
          before, after := "", more;
          FourParts(['['], inner, [']'], more);
        } else {
          before, after := GroupIsWritten(more, group);
          before := BehindGroup(inner, more, s, group, before, after);
        }
      }
    }
  }

  lemma BehindChar(c: char, tail: string, s: string, group: string, rest: string, after: string) returns (before: string)
    requires s == [c] + tail && StandsAt(tail, group, rest, after)
    requires c != '[' || (tail != "" && tail[0] == ']')
    ensures StandsAt(s, group, before, after)
  {
    before := [c] + rest;
    Regroup([c], rest, ['['] + group + [']'] + after);
    assert tail[0] == if rest == "" then '[' else rest[0];
    forall i | 0 <= i < |before| && before[i] == '[' ensures ']' in before[i..] {
      if i > 0 { assert before[i..] == rest[i - 1..]; } else { assert before[i..][1] == ']'; }
    }
  }

  lemma BehindGroup(inner: string, more: string, s: string, group: string, rest: string, after: string) returns (before: string)
    requires s == ['['] + (inner + ([']'] + more)) && StandsAt(more, group, rest, after)
    ensures StandsAt(s, group, before, after)
  {
    before := ['['] + (inner + ([']'] + rest));
    FiveParts(['['], inner, [']'], rest, ['['] + group + [']'] + after);
    var k := |inner| + 1;
    forall i | 0 <= i < |before| && before[i] == '[' ensures ']' in before[i..] {
      if i <= k { assert before[i..][k - i] == ']'; } else { assert before[i..] == rest[i - k - 1..]; }
    }
  }

  predicate Names(token: string, id: string) { IdOf(token) == [id] }

  lemma {:induction false} NamedIsAmong(tokens: seq<string>, k: nat, id: string)
    requires k < |tokens| && Names(tokens[k], id)
    ensures id in IdsIn(tokens)
    decreases |tokens|
  {
    var n := |tokens| - 1;
    if k < n {
      NamedIsAmong(tokens[..n], k, id);
    } else {
      assert IdOf(tokens[n])[0] == id;
    }
  }

  lemma {:induction false} AmongIsNamed(tokens: seq<string>, id: string) returns (k: nat)
    requires id in IdsIn(tokens)
    ensures k < |tokens| && Names(tokens[k], id)
    decreases |tokens|
  {
    var n := |tokens| - 1;
    if id in IdsIn(tokens[..n]) {
      k := AmongIsNamed(tokens[..n], id);
    } else {
      assert id in IdOf(tokens[n]);
      k := n;
    }
  }

  lemma {:induction false} TokensHave(groups: seq<string>, token: string)
    ensures token in Tokens(groups) <==> exists k :: 0 <= k < |groups| && token in SplitCommas(groups[k])
    decreases |groups|
  {
    if groups != [] {
      var n := |groups| - 1;
      TokensHave(groups[..n], token);
      assert groups == groups[..n] + [groups[n]];
    }
  }

  lemma FourParts(a: string, b: string, c: string, d: string)
    ensures a + b + c + d == a + (b + (c + d))
  {
  }

  lemma InTheMiddle(a: seq<string>, x: string, b: seq<string>, s: seq<string>) returns (k: nat)
    requires s == a + ([x] + b)
    ensures k < |s| && s[k] == x
  {
    k := |a|;
  }

  lemma GroupIsFound(text: string, before: string, group: string, after: string) returns (k: nat)
    requires text == before + (['['] + group + [']'] + after) && NothingOpen(before) && ']' !in group && group != ""
    ensures k < |Groups(text)| && Groups(text)[k] == group
  {
    var rest := ['['] + group + [']'] + after;
    GroupsInParts(before, rest, text);
    FourParts(['['], group, [']'], after);
    GroupAtStart(group, after, rest);
    k := InTheMiddle(Groups(before), group, Groups(after), Groups(text));
  }

  lemma TokenIffWritten(text: string, token: string)
    requires token != ""
    ensures token in Tokens(Groups(text)) <==> Written(text, token)
  {
    TokensHave(Groups(text), token);
    if token in Tokens(Groups(text)) {
      var k :| 0 <= k < |Groups(text)| && token in SplitCommas(Groups(text)[k]);
      var group := Groups(text)[k];
      var before, after := GroupIsWritten(text, group);
      var left, right := TokenIsWritten(group, token);
      assert WrittenAt(text, token, before, left, right, after);
    }
    if before, left, right, after :| WrittenAt(text, token, before, left, right, after) {
      TokenIsSplitOff(left, token, right);
      var k := GroupIsFound(text, before, left + token + right, after);
    }
  }

  /** Source `n` is cited exactly if somewhere in the text its id stands in brackets, alone or
      between commas, in either case and with white space around it or not. */
  lemma CitedIffWritten(text: string, n: nat)
    requires n > 0
    ensures "S" + Decimal(n) in CitedIds(text) <==> exists token :: Written(text, token) && Upper(Trim(token)) == "S" + Decimal(n)
  {
    var id, tokens := "S" + Decimal(n), Tokens(Groups(text));
    DistinctKeepsAll(IdsIn(tokens));
    CitationIsSourceId(n);
    assert Trim("") == "" && Upper("") == "";
    if id in CitedIds(text) {
      var k := AmongIsNamed(tokens, id);
      assert tokens[k] in tokens;
      TokenIffWritten(text, tokens[k]);
    }
    if token :| Written(text, token) && Upper(Trim(token)) == id {
      TokenIffWritten(text, token);
      var k :| 0 <= k < |tokens| && tokens[k] == token;
      NamedIsAmong(tokens, k, id);
    }
  }

  lemma CitationIsSourceId(n: nat)
    requires n > 0
    ensures IsSourceId("S" + Decimal(n))
  {
    DecimalRoundTrip(n);
    var d, id := Decimal(n), "S" + Decimal(n);
    assert forall i :: 1 <= i < |id| ==> id[i] == d[i - 1];
  }

  datatype Validation = Validation(hasCitations: bool, cited: seq<string>, unknown: seq<string>, valid: bool)

  function Known(ids: seq<string>): set<string> {
    set i | 0 <= i < |ids| && Trim(ids[i]) != "" :: Upper(Trim(ids[i]))
  }

  method ValidateCitations(text: string, ids: seq<string>) returns (v: Validation)
    ensures v.cited == CitedIds(text) && (v.hasCitations <==> v.cited != [])
    ensures v.valid <==> forall i :: 0 <= i < |v.cited| ==> v.cited[i] in Known(ids)
    ensures v.valid <==> v.unknown == []
    ensures forall x :: x in v.unknown <==> x in v.cited && x !in Known(ids)
  {
    var known := Known(ids);
    var cited := CitedSourceIds(text);
    var unknown: seq<string> := [];
    for i := 0 to |cited|
      invariant forall x :: x in unknown <==> x in cited[..i] && x !in known
      invariant unknown == [] <==> forall j :: 0 <= j < i ==> cited[j] in known
    {
      assert cited[..i + 1] == cited[..i] + [cited[i]];
      if cited[i] !in known { unknown := unknown + [cited[i]]; }
    }
    assert cited[..|cited|] == cited;
    v := Validation(cited != [], cited, unknown, unknown == []);
  }

  // ---- What "valid" says about the numbers ----

  /** A numeral without leading zero is the numeral of its value. */
  lemma {:induction false} NumeralIsCanonical(s: string)
    requires s != "" && s[0] != '0' && forall i :: 0 <= i < |s| ==> IsDigit(s[i])
    ensures DecimalValue(s) > 0 && Decimal(DecimalValue(s)) == s
    decreases |s|
  {
    var n := |s| - 1;
    assert s == s[..n] + [s[n]];
    if n == 0 {
      assert s[..0] == "";
    } else {
      NumeralIsCanonical(s[..n]);
      var v, d := DecimalValue(s[..n]), DigitValue(s[n]);
      assert DecimalValue(s) == 10 * v + d;
      assert (10 * v + d) / 10 == v && (10 * v + d) % 10 == d;
    }
  }

  function Number(id: string): nat
    requires IsSourceId(id)
  {
    DecimalValue(id[1..])
  }

  lemma SourceIdIsCitation(id: string)
    requires IsSourceId(id)
    ensures Number(id) > 0 && id == Ranking.Citation(Number(id))
  {
    NumeralIsCanonical(id[1..]);
  }

  lemma CitationSurvives(n: nat)
    requires n > 0
    ensures Trim(Ranking.Citation(n)) == Ranking.Citation(n) && Upper(Ranking.Citation(n)) == Ranking.Citation(n)
  {
    var c := Ranking.Citation(n);
    DecimalRoundTrip(n);
    assert c[0] == 'S' && IsDigit(c[|c| - 1]);
    TrimIsIdempotent(c);
    UpperKeeps(c);
  }

  lemma UpperKeeps(s: string)
    requires forall i :: 0 <= i < |s| ==> s[i] == 'S' || IsDigit(s[i])
    ensures Upper(s) == s
  {
  }

  lemma CitationIsInjective(m: nat, n: nat)
    requires Ranking.Citation(m) == Ranking.Citation(n)
    ensures m == n
  {
    assert Ranking.Citation(m)[1..] == Decimal(m) && Ranking.Citation(n)[1..] == Decimal(n);
    DecimalRoundTrip(m);
    DecimalRoundTrip(n);
  }

  /** The ids `S1` to `Sn` of the `n` results of an answer. */
  ghost predicate NumberedFromOne(ids: seq<string>) {
    forall i :: 0 <= i < |ids| ==> ids[i] == Ranking.Citation(i + 1)
  }

  lemma KnownNumbers(ids: seq<string>, id: string)
    requires NumberedFromOne(ids) && IsSourceId(id)
    ensures id in Known(ids) <==> 1 <= Number(id) <= |ids|
  {
    SourceIdIsCitation(id);
    forall i | 0 <= i < |ids| ensures Trim(ids[i]) == ids[i] && Upper(ids[i]) == ids[i] && ids[i] != "" {
      CitationSurvives(i + 1);
    }
    if id in Known(ids) {
      var i :| 0 <= i < |ids| && Upper(Trim(ids[i])) == id;
      CitationIsInjective(i + 1, Number(id));
    }
    if Number(id) <= |ids| {
      assert ids[Number(id) - 1] == id;
    }
  }

  /** An answer with `n` sources is valid exactly when every number it cites lies in 1..n. */
  lemma ValidMeansInRange(text: string, ids: seq<string>)
    requires NumberedFromOne(ids)
    ensures forall i :: 0 <= i < |CitedIds(text)| ==> IsSourceId(CitedIds(text)[i])
    ensures (forall i :: 0 <= i < |CitedIds(text)| ==> CitedIds(text)[i] in Known(ids)) <==>
            (forall i :: 0 <= i < |CitedIds(text)| ==> 1 <= Number(CitedIds(text)[i]) <= |ids|)
  {
    var tokens := Tokens(Groups(text));
    IdsAreSourceIds(tokens);
    DistinctKeepsAll(IdsIn(tokens));
    forall i | 0 <= i < |CitedIds(text)|
      ensures IsSourceId(CitedIds(text)[i])
      ensures CitedIds(text)[i] in Known(ids) <==> 1 <= Number(CitedIds(text)[i]) <= |ids|
    {
      assert CitedIds(text)[i] in IdsIn(tokens);
      KnownNumbers(ids, CitedIds(text)[i]);
    }
  }

  /** The citation data of an answer: its references, and whether it cites only those. */
  method CitationMeta(content: string, results: seq<Ranking.Result>, sources: seq<string>)
    returns (refs: seq<Ranking.Ref>, v: Validation)
    ensures |refs| == |results| && v.cited == CitedIds(content)
    ensures forall i :: 0 <= i < |v.cited| ==> IsSourceId(v.cited[i])
    ensures (forall i :: 0 <= i < |results| ==> results[i].citation == Ranking.Citation(i + 1)) ==>
      (v.valid <==> forall i :: 0 <= i < |v.cited| ==> 1 <= Number(v.cited[i]) <= |results|)
  {
    refs := Ranking.SourceRefs(results, sources);
    var ids := seq(|refs|, i requires 0 <= i < |refs| => refs[i].id);
    v := ValidateCitations(content, ids);
    CitedAreSourceIds(content);
    if forall i :: 0 <= i < |results| ==> results[i].citation == Ranking.Citation(i + 1) {
      ValidMeansInRange(content, ids);
    }
  }

  lemma CitedAreSourceIds(text: string)
    ensures forall i :: 0 <= i < |CitedIds(text)| ==> IsSourceId(CitedIds(text)[i])
  {
    IdsAreSourceIds(Tokens(Groups(text)));
    DistinctKeepsAll(IdsIn(Tokens(Groups(text))));
  }
}
