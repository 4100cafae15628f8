/** The answer-cache key: which parts of a request it separates. */
module CacheKey {
  import opened Prelude

  const SCHEMA := "grounded-rag-v6"

  /** The labels of a running deployment; the three versions come from its environment. */
  datatype Deployment = Deployment(directory: string, prompt: string, retrieval: string, model: string)

  /** Everything else a key depends on. An empty `original` falls back to `enhanced`. */
  datatype Request = Request(original: string, enhanced: string, history: string, generation: nat, mode: string)

  /** The final SHA-256 of the joined text, taken as injective. */
  datatype Key = Sha256(raw: string)

  predicate NoBar(s: string) { '|' !in s }

  /** A text digest that never mixes up two texts and prints hexadecimal digits only. */
  ghost predicate SoundDigest(digest: string -> string) {
    && (forall x, y :: digest(x) == digest(y) ==> x == y)
    && (forall x :: NoBar(digest(x)))
  }

  function Asked(r: Request): string { if r.original != "" then r.original else r.enhanced }

  function Join(fields: seq<string>): string
    requires fields != []
  {
    if |fields| == 1 then fields[0] else fields[0] + "|" + Join(fields[1..])
  }

  function Head(d: Deployment, digest: string -> string, r: Request): seq<string> {
    [SCHEMA, digest(Asked(r)), digest(r.enhanced), digest(r.history), Decimal(r.generation), digest(d.directory)]
  }

  function Tail(d: Deployment, r: Request): seq<string> { [d.prompt, d.retrieval, d.model, r.mode] }

  function MakeKey(d: Deployment, digest: string -> string, r: Request): Key {
    Sha256(Join(Head(d, digest, r) + Tail(d, r)))
  }

  lemma FirstBar(x: string, rest: string, x': string, rest': string)
    requires NoBar(x) && NoBar(x') && x + "|" + rest == x' + "|" + rest'
    ensures x == x' && rest == rest'
  {
    var whole := x + "|" + rest;
    assert forall i :: 0 <= i < |x| ==> whole[i] == x[i];
    assert forall i :: 0 <= i < |x'| ==> whole[i] == x'[i];
    assert whole[|x|] == '|' && whole[|x'|] == '|';
    assert |x| == |x'|;
    assert x == whole[..|x|] && x' == whole[..|x'|];
    assert rest == whole[|x| + 1..] && rest' == whole[|x'| + 1..];
  }

  /** Joining loses nothing as long as only the last field may hold the separator. */
  lemma {:induction false} JoinIsInjective(a: seq<string>, b: seq<string>)
    requires |a| == |b| > 0 && Join(a) == Join(b)
    requires forall i :: 0 <= i < |a| - 1 ==> NoBar(a[i]) && NoBar(b[i])
    ensures a == b
  {
    if |a| > 1 {
      FirstBar(a[0], Join(a[1..]), b[0], Join(b[1..]));
      JoinIsInjective(a[1..], b[1..]);
      assert a == [a[0]] + a[1..] && b == [b[0]] + b[1..];
    } else {
      assert a == [a[0]] && b == [b[0]];
    }
  }

  lemma {:induction false} JoinFront(front: seq<string>, back: seq<string>)
    requires front != [] && back != []
    ensures Join(front + back) == Join(front + [Join(back)])
  {
    if |front| == 1 {
      assert (front + back)[1..] == back && (front + [Join(back)])[1..] == [Join(back)];
    } else {
      JoinFront(front[1..], back);
      assert (front + back)[1..] == front[1..] + back;
      assert (front + [Join(back)])[1..] == front[1..] + [Join(back)];
    }
  }

  lemma NumeralsHaveNoBar(n: nat)
    ensures NoBar(Decimal(n))
  {
    DecimalRoundTrip(n);
  }

  /** The same question as the user put it; a question that was never rewritten is its own original. */
  predicate SameQuestion(r: Request, r': Request) {
    r.original == r'.original || {r.original, r'.original} == {"", r.enhanced}
  }

  /** Two requests share a key if and only if they asked the same thing of the same generation,
      with the same history and mode, in the same directory. */
  lemma EqualKeysMeanSameRequest(d: Deployment, d': Deployment, digest: string -> string, r: Request, r': Request)
    requires SoundDigest(digest)
    requires (d.prompt, d.retrieval, d.model) == (d'.prompt, d'.retrieval, d'.model)
    ensures MakeKey(d, digest, r) == MakeKey(d', digest, r') <==>
      && SameQuestion(r, r') && r.enhanced == r'.enhanced && r.history == r'.history
      && r.generation == r'.generation && r.mode == r'.mode && d.directory == d'.directory
  {
    if MakeKey(d, digest, r) == MakeKey(d', digest, r') {
      HeadsAgree(d, d', digest, r, r');
      var versions := [d.prompt, d.retrieval, d.model];
      assert Tail(d, r) == versions + [r.mode] && Tail(d', r') == versions + [r'.mode];
      SamePrefix(versions, r.mode, r'.mode);
    }
    assert r.enhanced == r'.enhanced ==> (Asked(r) == Asked(r') <==> SameQuestion(r, r')) by {
      assert {r.original, r'.original} == {"", r.enhanced} <==>
        (r.original == "" && r'.original == r.enhanced) || (r'.original == "" && r.original == r.enhanced);
    }
  }

  lemma HeadsAgree(d: Deployment, d': Deployment, digest: string -> string, r: Request, r': Request)
    requires SoundDigest(digest) && MakeKey(d, digest, r) == MakeKey(d', digest, r')
    ensures Asked(r) == Asked(r') && r.enhanced == r'.enhanced && r.history == r'.history
    ensures r.generation == r'.generation && d.directory == d'.directory
    ensures Join(Tail(d, r)) == Join(Tail(d', r'))
  {
    var a, b := Head(d, digest, r) + [Join(Tail(d, r))], Head(d', digest, r') + [Join(Tail(d', r'))];
    JoinFront(Head(d, digest, r), Tail(d, r));
    JoinFront(Head(d', digest, r'), Tail(d', r'));
    NumeralsHaveNoBar(r.generation);
    NumeralsHaveNoBar(r'.generation);
    JoinIsInjective(a, b);
    assert a[1] == b[1] && a[2] == b[2] && a[3] == b[3] && a[4] == b[4] && a[5] == b[5] && a[6] == b[6];
    DecimalRoundTrip(r.generation);
    DecimalRoundTrip(r'.generation);
  }

  lemma {:induction false} SamePrefix(front: seq<string>, x: string, y: string)
    requires Join(front + [x]) == Join(front + [y])
    ensures x == y
  {
    if front != [] {
      assert (front + [x])[1..] == front[1..] + [x] && (front + [y])[1..] == front[1..] + [y];
      var head := front[0] + "|";
      assert head + Join(front[1..] + [x]) == head + Join(front[1..] + [y]);
      assert (head + Join(front[1..] + [x]))[|head|..] == Join(front[1..] + [x]);
      assert (head + Join(front[1..] + [y]))[|head|..] == Join(front[1..] + [y]);
      SamePrefix(front[1..], x, y);
    }
  }

  // ---- Deployments ----

  /** No label of the deployment holds the separator. */
  predicate BarFree(d: Deployment) { NoBar(d.prompt) && NoBar(d.retrieval) && NoBar(d.model) }

  /** In modes without the separator, and the program has no others, this deployment shares no
      key with another one. */
  ghost predicate SeparatedFromAll(d: Deployment, digest: string -> string) {
    forall d', r: Request, r' :: NoBar(r.mode) && MakeKey(d, digest, r) == MakeKey(d', digest, r') ==> d' == d
  }

  function Versions(d: Deployment, mode: string): string {
    d.prompt + "|" + (d.retrieval + "|" + (d.model + "|" + mode))
  }

  lemma JoinTail(d: Deployment, r: Request)
    ensures Join(Tail(d, r)) == Versions(d, r.mode)
  {
    var tail := Tail(d, r);
    assert tail[1..] == [d.retrieval, d.model, r.mode] && tail[1..][1..] == [d.model, r.mode] && tail[1..][1..][1..] == [r.mode];
    assert Join(tail[1..][1..]) == d.model + "|" + r.mode;
    assert Join(tail[1..]) == d.retrieval + "|" + (d.model + "|" + r.mode);
  }

  function Bars(s: string): nat { multiset(s)['|'] }

  lemma BarsOfSum(a: string, b: string)
    ensures Bars(a + "|" + b) == Bars(a) + 1 + Bars(b)
  {
  }

  lemma BarsOfVersions(d: Deployment, mode: string)
    ensures Bars(Versions(d, mode)) == 3 + Bars(d.prompt) + Bars(d.retrieval) + Bars(d.model) + Bars(mode)
  {
    BarsOfSum(d.prompt, d.retrieval + "|" + (d.model + "|" + mode));
    BarsOfSum(d.retrieval, d.model + "|" + mode);
    BarsOfSum(d.model, mode);
  }

  lemma NoBarIffNone(s: string)
    ensures NoBar(s) <==> Bars(s) == 0
  {
  }

  /** Equal keys mean equal versions as soon as one of the two deployments is free of separators. */
  lemma EqualKeysMeanSameVersions(d: Deployment, d': Deployment, digest: string -> string, r: Request, r': Request)
    requires SoundDigest(digest) && MakeKey(d, digest, r) == MakeKey(d', digest, r')
    requires BarFree(d) && NoBar(r.mode)
    ensures d == d' && r.mode == r'.mode
  {
    HeadsAgree(d, d', digest, r, r');
    JoinTail(d, r);
    JoinTail(d', r');
    BarsOfVersions(d, r.mode);
    BarsOfVersions(d', r'.mode);
    forall s { NoBarIffNone(s); }
    FirstBar(d.prompt, d.retrieval + "|" + (d.model + "|" + r.mode), d'.prompt, d'.retrieval + "|" + (d'.model + "|" + r'.mode));
    FirstBar(d.retrieval, d.model + "|" + r.mode, d'.retrieval, d'.model + "|" + r'.mode);
    FirstBar(d.model, r.mode, d'.model, r'.mode);
  }

  lemma SplitAtBar(s: string) returns (x: string, y: string)
    requires !NoBar(s)
    ensures s == x + "|" + y
  {
    var at := IndexOf(s, '|');
    x, y := s[..at], s[at + 1..];
  }

  /** A separator can be moved between a label and its neighbour. */
  lemma BarsCanBeMoved(directory: string, x: string, y: string, a: string, b: string, mode: string)
    ensures Versions(Deployment(directory, x + "|" + y, a, b), mode) == Versions(Deployment(directory, x, y + "|" + a, b), mode)
    ensures Versions(Deployment(directory, a, x + "|" + y, b), mode) == Versions(Deployment(directory, a + "|" + x, y, b), mode)
    ensures Versions(Deployment(directory, a, b, x + "|" + y), mode) == Versions(Deployment(directory, a, b + "|" + x, y), mode)
  {
  }

  /** The neighbour of a deployment with a separator in a label. */
  lemma Neighbour(d: Deployment, mode: string) returns (d': Deployment)
    requires !BarFree(d)
    ensures d' != d && d'.directory == d.directory && Versions(d', mode) == Versions(d, mode)
  {
    if !NoBar(d.prompt) {
      var x, y := SplitAtBar(d.prompt);
      BarsCanBeMoved(d.directory, x, y, d.retrieval, d.model, mode);
      d' := Deployment(d.directory, x, y + "|" + d.retrieval, d.model);
    } else if !NoBar(d.retrieval) {
      var x, y := SplitAtBar(d.retrieval);
      BarsCanBeMoved(d.directory, x, y, d.prompt, d.model, mode);
      d' := Deployment(d.directory, d.prompt + "|" + x, y, d.model);
    } else {
      var x, y := SplitAtBar(d.model);
      BarsCanBeMoved(d.directory, x, y, d.prompt, d.retrieval, mode);
      d' := Deployment(d.directory, d.prompt, d.retrieval + "|" + x, y);
    }
  }

  /** Otherwise every request has the same key in another deployment of the same directory. */
  lemma VersionsCanBeConfused(d: Deployment, digest: string -> string, r: Request) returns (d': Deployment)
    requires !BarFree(d)
    ensures d' != d && d'.directory == d.directory && MakeKey(d', digest, r) == MakeKey(d, digest, r)
  {
    d' := Neighbour(d, r.mode);
    JoinTail(d, r);
    JoinTail(d', r);
    JoinFront(Head(d, digest, r), Tail(d, r));
    JoinFront(Head(d', digest, r), Tail(d', r));
  }

  /** Exactly which deployments are told apart from all others. */
  lemma SeparatedFromAllIff(d: Deployment, digest: string -> string)
    requires SoundDigest(digest)
    ensures SeparatedFromAll(d, digest) <==> BarFree(d)
  {
    if BarFree(d) {
      forall d', r: Request, r' | NoBar(r.mode) && MakeKey(d, digest, r) == MakeKey(d', digest, r') ensures d' == d {
        EqualKeysMeanSameVersions(d, d', digest, r, r');
      }
    } else {
      var r := Request("", "", "", 0, "");
      assert NoBar(r.mode);
      var d' := VersionsCanBeConfused(d, digest, r);
    }
  }
}
