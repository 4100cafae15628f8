/** From reranked chunks to the numbered sources of an answer: sort, keep the best chunk of every
    parent block, apply the threshold, cut. */
module Ranking {
  import opened Prelude
  import opened Sorting

  /** A retrieved chunk; an empty `parent` means the chunk has none. */
  datatype Chunk = Chunk(document: string, parent: string, parentText: string, source: string, chapter: string)

  type Hit = Scored<Chunk>

  /** Chunks of one parent block share their context; without a parent, equal texts do. */
  datatype BlockKey = Parent(id: string) | Document(text: string)

  function KeyOf(c: Chunk): BlockKey { if c.parent != "" then Parent(c.parent) else Document(c.document) }

  datatype Result = Result(citation: string, document: string, parent: string, parentText: string,
                           source: string, chapter: string, score: real)

  function Citation(n: nat): string { "S" + Decimal(n) }

  function Label(c: Chunk): string { c.source + " | " + c.chapter }

  // ---- The specification: champions, in order ----

  /** `p` beats `q`: a better score, or the same score and earlier arrival. */
  predicate Beats(hits: seq<Hit>, p: nat, q: nat)
    requires p < |hits| && q < |hits|
  {
    Before(Scored(p, hits[p].score), Scored(q, hits[q].score))
  }

  /** The best chunk of its block. */
  predicate Champion(hits: seq<Hit>, p: nat)
    requires p < |hits|
  {
    forall q :: 0 <= q < |hits| && q != p && KeyOf(hits[q].item) == KeyOf(hits[p].item) ==> Beats(hits, p, q)
  }

  predicate Eligible(hits: seq<Hit>, threshold: real, p: nat)
    requires p < |hits|
  {
    Champion(hits, p) && hits[p].score >= threshold
  }

  /** The first `topK` eligible chunks: in order, eligible, and if any is missing then there are
      `topK` and they all beat it. */
  ghost predicate IsSelection(hits: seq<Hit>, threshold: real, topK: nat, chosen: seq<nat>) {
    && (forall i :: 0 <= i < |chosen| ==> chosen[i] < |hits| && Eligible(hits, threshold, chosen[i]))
    && (forall i, j :: 0 <= i < j < |chosen| ==> Beats(hits, chosen[i], chosen[j]))
    && |chosen| <= topK
    && (forall p :: 0 <= p < |hits| && Eligible(hits, threshold, p) && p !in chosen ==>
          |chosen| == topK && forall i :: 0 <= i < |chosen| ==> Beats(hits, chosen[i], p))
  }

  /** There is only one such selection. */
  lemma SelectionIsUnique(hits: seq<Hit>, threshold: real, topK: nat, a: seq<nat>, b: seq<nat>)
    requires IsSelection(hits, threshold, topK, a) && IsSelection(hits, threshold, topK, b)
    ensures a == b
  {
    if |a| <= |b| {
      SameUpTo(hits, threshold, topK, a, b, |a|);
      NotShorter(hits, threshold, topK, a, b);
    } else {
      SameUpTo(hits, threshold, topK, b, a, |b|);
      NotShorter(hits, threshold, topK, b, a);
    }
  }

  lemma {:induction false} SameUpTo(hits: seq<Hit>, threshold: real, topK: nat, a: seq<nat>, b: seq<nat>, n: nat)
    requires IsSelection(hits, threshold, topK, a) && IsSelection(hits, threshold, topK, b)
    requires n <= |a| && n <= |b|
    ensures a[..n] == b[..n]
  {
    if n > 0 {
      SameUpTo(hits, threshold, topK, a, b, n - 1);
      NotAfter(hits, threshold, topK, a, b, n - 1);
      NotAfter(hits, threshold, topK, b, a, n - 1);
      assert a[..n] == a[..n - 1] + [a[n - 1]] && b[..n] == b[..n - 1] + [b[n - 1]];
    }
  }

  lemma NotAfter(hits: seq<Hit>, threshold: real, topK: nat, a: seq<nat>, b: seq<nat>, k: nat)
    requires IsSelection(hits, threshold, topK, a) && IsSelection(hits, threshold, topK, b)
    requires k < |a| && k < |b| && a[..k] == b[..k]
    ensures a[k] == b[k] || Beats(hits, a[k], b[k])
  {
    if j :| 0 <= j < |a| && a[j] == b[k] {
      if j < k { assert a[j] == a[..k][j] == b[..k][j] == b[j]; }
    }
  }

  lemma NotShorter(hits: seq<Hit>, threshold: real, topK: nat, a: seq<nat>, b: seq<nat>)
    requires IsSelection(hits, threshold, topK, a) && IsSelection(hits, threshold, topK, b)
    requires |a| <= |b| && b[..|a|] == a
    ensures a == b
  {
    if |a| < |b| {
      MissingMeansFull(hits, threshold, topK, a, b);
    } else {
      assert b[..|a|] == b;
    }
  }

  lemma MissingMeansFull(hits: seq<Hit>, threshold: real, topK: nat, a: seq<nat>, b: seq<nat>)
    requires IsSelection(hits, threshold, topK, a) && |a| < |b| && b[..|a|] == a
    requires forall i :: 0 <= i < |b| ==> b[i] < |hits| && Eligible(hits, threshold, b[i])
    requires forall i, j :: 0 <= i < j < |b| ==> Beats(hits, b[i], b[j])
    ensures |a| == topK
  {
    forall j | 0 <= j < |a| ensures a[j] != b[|a|] {
      assert a[j] == b[..|a|][j] == b[j];
      assert Beats(hits, b[j], b[|a|]);
    }
    assert Eligible(hits, threshold, b[|a|]) && b[|a|] !in a;
  }

  // ---- The sorted order, by position of arrival ----

  function Numbered(hits: seq<Hit>): seq<Scored<nat>> {
    seq(|hits|, i requires 0 <= i < |hits| => Scored(i, hits[i].score))
  }

  ghost predicate Listed(order: seq<Scored<nat>>, p: nat) { exists i :: 0 <= i < |order| && order[i].item == p }

  /** Every position of arrival once, with its score, best first. */
  ghost predicate IsOrder(hits: seq<Hit>, order: seq<Scored<nat>>) {
    && |order| == |hits| && Ranked(order)
    && (forall i :: 0 <= i < |order| ==> order[i].item < |hits| && order[i].score == hits[order[i].item].score)
    && (forall p :: 0 <= p < |hits| ==> Listed(order, p))
  }

  lemma PositionsAreOrdered(hits: seq<Hit>)
    ensures IsOrder(hits, StableDesc(Numbered(hits)))
  {
    SortRanks(Numbered(hits));
    forall i | 0 <= i < |hits| {
      PositionFits(hits, i);
    }
    forall p | 0 <= p < |hits| ensures Listed(StableDesc(Numbered(hits)), p) {
      PositionIsListed(hits, p);
    }
  }

  lemma PositionFits(hits: seq<Hit>, i: nat)
    requires i < |hits|
    ensures var x := StableDesc(Numbered(hits))[i]; x.item < |hits| && x.score == hits[x.item].score
  {
    assert StableDesc(Numbered(hits))[i] in Numbered(hits);
  }

  lemma PositionIsListed(hits: seq<Hit>, p: nat)
    requires p < |hits|
    ensures Listed(StableDesc(Numbered(hits)), p)
  {
    var numbered := Numbered(hits);
    SortSorts(numbered);
    assert numbered[p] in multiset(numbered);
    assert numbered[p] in multiset(StableDesc(numbered));
  }

  lemma PickHit(hits: seq<Hit>, order: seq<Scored<nat>>, i: nat)
    requires i < |order| && forall j :: 0 <= j < |order| ==> order[j].item < |Items(hits)| && order[j].score == hits[order[j].item].score
    ensures Pick(Items(hits), order)[i] == hits[order[i].item]
  {
  }

  /** Looking up the hits in this order is the code's sort. */
  lemma SortIsByOrder(hits: seq<Hit>) returns (order: seq<Scored<nat>>)
    ensures InOrder(hits, order, StableDesc(hits))
  {
    order := StableDesc(Numbered(hits));
    PositionsAreOrdered(hits);
    PickSort(Items(hits), Numbered(hits));
    assert Pick(Items(hits), Numbered(hits)) == hits;
    forall i | 0 <= i < |hits| ensures StableDesc(hits)[i] == hits[order[i].item] {
      PickHit(hits, order, i);
    }
  }

  ghost predicate InOrder(hits: seq<Hit>, order: seq<Scored<nat>>, sorted: seq<Hit>) {
    IsOrder(hits, order) && |sorted| == |hits| && forall i :: 0 <= i < |hits| ==> sorted[i] == hits[order[i].item]
  }

  // ---- Keeping the first of every block, then those that pass ----

  predicate IsFirst(keys: seq<BlockKey>, p: nat) { p < |keys| && forall j :: 0 <= j < p ==> keys[j] != keys[p] }

  /** The places below `n` whose key has not occurred before. */
  function Firsts(keys: seq<BlockKey>, n: nat): (r: seq<nat>)
    ensures forall i :: 0 <= i < |r| ==> r[i] < n
  {
    if n == 0 then [] else Firsts(keys, n - 1) + if IsFirst(keys, n - 1) then [n - 1] else []
  }

  ghost predicate Ascending(s: seq<nat>) { forall i, j :: 0 <= i < j < |s| ==> s[i] < s[j] }

  lemma {:induction false} FirstsAreFirst(keys: seq<BlockKey>, n: nat)
    ensures forall p: nat :: p in Firsts(keys, n) <==> p < n && IsFirst(keys, p)
    ensures Ascending(Firsts(keys, n))
  {
    if n > 0 { FirstsAreFirst(keys, n - 1); }
  }

  predicate Passes(scores: seq<real>, threshold: real, p: nat) { p < |scores| && scores[p] >= threshold }

  /** The places that also pass the threshold. */
  function Passing(scores: seq<real>, threshold: real, places: seq<nat>): (r: seq<nat>)
    ensures forall i :: 0 <= i < |r| ==> r[i] < |scores|
    decreases |places|
  {
    if places == [] then []
    else
      var n := |places| - 1;
      Passing(scores, threshold, places[..n]) + if Passes(scores, threshold, places[n]) then [places[n]] else []
  }

  lemma {:induction false} PassingKeeps(scores: seq<real>, threshold: real, places: seq<nat>)
    requires Ascending(places)
    ensures forall p :: p in Passing(scores, threshold, places) <==> p in places && Passes(scores, threshold, p)
    ensures Ascending(Passing(scores, threshold, places))
    decreases |places|
  {
    if places != [] {
      var n := |places| - 1;
      PassingKeeps(scores, threshold, places[..n]);
      assert places == places[..n] + [places[n]];
      var front := Passing(scores, threshold, places[..n]);
      forall i | 0 <= i < |front| ensures front[i] < places[n] {
        assert front[i] in front && front[i] in places[..n];
      }
    }
  }

  function Keys(sorted: seq<Hit>): seq<BlockKey> {
    seq(|sorted|, i requires 0 <= i < |sorted| => KeyOf(sorted[i].item))
  }

  function Scores(sorted: seq<Hit>): seq<real> {
    seq(|sorted|, i requires 0 <= i < |sorted| => sorted[i].score)
  }

  /** The places of the sorted list that the code keeps before cutting. */
  function Kept(sorted: seq<Hit>, threshold: real): seq<nat> {
    Passing(Scores(sorted), threshold, Firsts(Keys(sorted), |sorted|))
  }

  lemma KeptIs(sorted: seq<Hit>, threshold: real)
    ensures forall p: nat :: p in Kept(sorted, threshold) <==> IsFirst(Keys(sorted), p) && sorted[p].score >= threshold
    ensures Ascending(Kept(sorted, threshold))
  {
    FirstsAreFirst(Keys(sorted), |sorted|);
    PassingKeeps(Scores(sorted), threshold, Firsts(Keys(sorted), |sorted|));
  }

  // ---- Why that is the specified selection ----

  /** At a place of the sorted list stands a champion exactly when its key is new there. */
  lemma FirstMeansChampion(hits: seq<Hit>, order: seq<Scored<nat>>, sorted: seq<Hit>, place: nat)
    requires InOrder(hits, order, sorted) && place < |hits|
    ensures IsFirst(Keys(sorted), place) <==> Champion(hits, order[place].item)
  {
    var keys, p := Keys(sorted), order[place].item;
    if i :| 0 <= i < place && keys[i] == keys[place] {
      assert Before(order[i], order[place]);
      assert !Beats(hits, p, order[i].item);
    } else {
      forall q | 0 <= q < |hits| && q != p && KeyOf(hits[q].item) == KeyOf(hits[p].item) ensures Beats(hits, p, q) {
        LaterIsBeaten(hits, order, sorted, place, q);
      }
    }
  }

  lemma LaterIsBeaten(hits: seq<Hit>, order: seq<Scored<nat>>, sorted: seq<Hit>, place: nat, q: nat)
    requires InOrder(hits, order, sorted) && place < |hits| && IsFirst(Keys(sorted), place)
    requires q < |hits| && q != order[place].item && KeyOf(hits[q].item) == KeyOf(hits[order[place].item].item)
    ensures Beats(hits, order[place].item, q)
  {
    assert Listed(order, q);
    var j :| 0 <= j < |order| && order[j].item == q;
    assert Keys(sorted)[j] == Keys(sorted)[place];
    assert Before(order[place], order[j]);
  }

  /** The places kept are those of the eligible chunks. */
  lemma KeptIsEligible(hits: seq<Hit>, order: seq<Scored<nat>>, sorted: seq<Hit>, threshold: real, place: nat)
    requires InOrder(hits, order, sorted) && place < |hits|
    ensures place in Kept(sorted, threshold) <==> Eligible(hits, threshold, order[place].item)
  {
    KeptIs(sorted, threshold);
    FirstMeansChampion(hits, order, sorted, place);
  }

  /** The positions of arrival at the first `topK` kept places. */
  ghost predicate CutTo(order: seq<Scored<nat>>, kept: seq<nat>, topK: nat, chosen: seq<nat>) {
    && |chosen| == (if |kept| <= topK then |kept| else topK)
    && (forall i :: 0 <= i < |chosen| ==> kept[i] < |order| && chosen[i] == order[kept[i]].item)
  }

  /** What the code keeps, by position of arrival, is the specified selection. */
  lemma ChosenIsTheSelection(hits: seq<Hit>, order: seq<Scored<nat>>, sorted: seq<Hit>, threshold: real, topK: nat)
    returns (chosen: seq<nat>)
    requires InOrder(hits, order, sorted)
    ensures CutTo(order, Kept(sorted, threshold), topK, chosen) && IsSelection(hits, threshold, topK, chosen)
  {
    var kept := Kept(sorted, threshold);
    KeptIs(sorted, threshold);
    assert forall i :: 0 <= i < |kept| ==> kept[i] in kept;
    var n := if |kept| <= topK then |kept| else topK;
    chosen := seq(n, i requires 0 <= i < n => order[kept[i]].item);
    ChosenAreEligible(hits, order, sorted, threshold, topK, chosen);
    ChosenAreRanked(hits, order, kept, topK, chosen);
    forall p | 0 <= p < |hits| && Eligible(hits, threshold, p) && p !in chosen
      ensures |chosen| == topK && forall i :: 0 <= i < |chosen| ==> Beats(hits, chosen[i], p)
    {
      CutOff(hits, order, sorted, threshold, topK, chosen, p);
    }
  }

  lemma ChosenAreEligible(hits: seq<Hit>, order: seq<Scored<nat>>, sorted: seq<Hit>, threshold: real, topK: nat, chosen: seq<nat>)
    requires InOrder(hits, order, sorted) && CutTo(order, Kept(sorted, threshold), topK, chosen)
    ensures forall i :: 0 <= i < |chosen| ==> chosen[i] < |hits| && Eligible(hits, threshold, chosen[i])
  {
    forall i | 0 <= i < |chosen| ensures chosen[i] < |hits| && Eligible(hits, threshold, chosen[i]) {
      KeptIsEligible(hits, order, sorted, threshold, Kept(sorted, threshold)[i]);
    }
  }

  lemma ChosenAreRanked(hits: seq<Hit>, order: seq<Scored<nat>>, kept: seq<nat>, topK: nat, chosen: seq<nat>)
    requires IsOrder(hits, order) && Ascending(kept) && CutTo(order, kept, topK, chosen)
    ensures forall i, j :: 0 <= i < j < |chosen| ==> chosen[i] < |hits| && chosen[j] < |hits| && Beats(hits, chosen[i], chosen[j])
  {
    forall i, j | 0 <= i < j < |chosen|
      ensures chosen[i] < |hits| && chosen[j] < |hits| && Beats(hits, chosen[i], chosen[j])
    {
      assert Before(order[kept[i]], order[kept[j]]);
    }
  }

  lemma CutOff(hits: seq<Hit>, order: seq<Scored<nat>>, sorted: seq<Hit>, threshold: real, topK: nat, chosen: seq<nat>, p: nat)
    requires InOrder(hits, order, sorted) && CutTo(order, Kept(sorted, threshold), topK, chosen)
    requires p < |hits| && Eligible(hits, threshold, p) && p !in chosen
    ensures |chosen| == topK && forall i :: 0 <= i < |chosen| ==> chosen[i] < |hits| && Beats(hits, chosen[i], p)
  {
    var kept := Kept(sorted, threshold);
    KeptIs(sorted, threshold);
    assert Listed(order, p);
    var place :| 0 <= place < |order| && order[place].item == p;
    KeptIsEligible(hits, order, sorted, threshold, place);
    var k :| 0 <= k < |kept| && kept[k] == place;
    BehindTheCut(order, kept, topK, chosen, k);
    forall i | 0 <= i < |chosen| ensures chosen[i] < |hits| && Beats(hits, chosen[i], p) {
      assert kept[i] < kept[k];
      assert Before(order[kept[i]], order[place]);
    }
  }

  lemma BehindTheCut(order: seq<Scored<nat>>, kept: seq<nat>, topK: nat, chosen: seq<nat>, k: nat)
    requires CutTo(order, kept, topK, chosen) && k < |kept| && kept[k] < |order| && order[kept[k]].item !in chosen
    ensures k >= |chosen| == topK
  {
    assert forall i :: 0 <= i < |chosen| ==> chosen[i] != order[kept[k]].item;
  }

  // ---- The code ----

  function At(sorted: seq<Hit>, places: seq<nat>): seq<Hit>
    requires forall i :: 0 <= i < |places| ==> places[i] < |sorted|
  {
    seq(|places|, i requires 0 <= i < |places| => sorted[places[i]])
  }

  method Deduplicate(sorted: seq<Hit>) returns (unique: seq<Hit>)
    ensures unique == At(sorted, Firsts(Keys(sorted), |sorted|))
  {
    ghost var keys := Keys(sorted);
    var seen: set<BlockKey> := {};
    ghost var places: seq<nat> := [];
    unique := [];
    for i := 0 to |sorted|
      invariant places == Firsts(keys, i) && forall k :: k in seen <==> k in keys[..i]
      invariant (forall j :: 0 <= j < |places| ==> places[j] < |sorted|) && unique == At(sorted, places)
    {
      var key := KeyOf(sorted[i].item);
      assert keys[..i + 1] == keys[..i] + [key];
      assert key in keys[..i] <==> !IsFirst(keys, i);
      if key !in seen {
        unique, places := unique + [sorted[i]], places + [i];
      }
      seen := seen + {key};
    }
  }

  method KeepPassing(sorted: seq<Hit>, unique: seq<Hit>, threshold: real, ghost places: seq<nat>)
    returns (filtered: seq<Hit>)
    requires (forall i :: 0 <= i < |places| ==> places[i] < |sorted|) && unique == At(sorted, places)
    ensures filtered == At(sorted, Passing(Scores(sorted), threshold, places))
  {
    ghost var kept: seq<nat> := [];
    filtered := [];
    for i := 0 to |unique|
      invariant kept == Passing(Scores(sorted), threshold, places[..i])
      invariant (forall j :: 0 <= j < |kept| ==> kept[j] < |sorted|) && filtered == At(sorted, kept)
    {
      assert places[..i + 1][..i] == places[..i];
      assert Passes(Scores(sorted), threshold, places[i]) <==> unique[i].score >= threshold;
      if unique[i].score >= threshold {
        filtered, kept := filtered + [unique[i]], kept + [places[i]];
      }
    }
    assert places[..|unique|] == places;
  }

  function ResultOf(h: Hit, n: nat): Result {
    Result(Citation(n), h.item.document, h.item.parent, h.item.parentText, h.item.source, h.item.chapter, h.score)
  }

  /** The results and their labels describe the chosen hits, numbered from one. */
  ghost predicate Reports(hits: seq<Hit>, chosen: seq<nat>, results: seq<Result>, sources: seq<string>) {
    && |results| == |sources| == |chosen|
    && (forall i :: 0 <= i < |chosen| ==> chosen[i] < |hits|)
    && (forall i :: 0 <= i < |chosen| ==> results[i] == ResultOf(hits[chosen[i]], i + 1))
    && (forall i :: 0 <= i < |chosen| ==> sources[i] == Label(hits[chosen[i]].item))
  }

  /** They are those of the specified selection. */
  ghost predicate ReportsSelection(hits: seq<Hit>, threshold: real, topK: nat, results: seq<Result>, sources: seq<string>) {
    exists chosen :: IsSelection(hits, threshold, topK, chosen) && Reports(hits, chosen, results, sources)
  }

  /** The numbered results and source labels of an answer, best first. */
  method RetrieveContext(hits: seq<Hit>, threshold: real, topK: nat)
    returns (results: seq<Result>, sources: seq<string>)
    ensures ReportsSelection(hits, threshold, topK, results, sources)
    ensures AreTheBest(hits, threshold, topK, results, sources)
    ensures NoneTwice(results) && NoneMissing(hits, threshold, topK, results)
  {
    var sorted := StableDesc(hits);
    ghost var order := SortIsByOrder(hits);
    var unique := Deduplicate(sorted);
    var filtered := KeepPassing(sorted, unique, threshold, Firsts(Keys(sorted), |sorted|));
    ghost var chosen := ChosenIsTheSelection(hits, order, sorted, threshold, topK);
    var best := if |filtered| <= topK then filtered else filtered[..topK];
    BestAreChosen(hits, order, sorted, Kept(sorted, threshold), topK, chosen, filtered, best);
    results, sources := Report(best);
    ReportsChosen(hits, threshold, topK, chosen, best, results, sources);
    SelectionMeans(hits, threshold, topK, results, sources);
  }

  /** What is left after the cut are the chosen hits. */
  lemma BestAreChosen(hits: seq<Hit>, order: seq<Scored<nat>>, sorted: seq<Hit>, kept: seq<nat>, topK: nat, chosen: seq<nat>,
                      filtered: seq<Hit>, best: seq<Hit>)
    requires InOrder(hits, order, sorted) && CutTo(order, kept, topK, chosen)
    requires (forall i :: 0 <= i < |kept| ==> kept[i] < |sorted|) && filtered == At(sorted, kept)
    requires best == if |filtered| <= topK then filtered else filtered[..topK]
    ensures (forall i :: 0 <= i < |chosen| ==> chosen[i] < |hits|) && best == At(hits, chosen)
  {
    forall i | 0 <= i < |chosen| ensures chosen[i] < |hits| && best[i] == hits[chosen[i]] {
      assert best[i] == sorted[kept[i]];
    }
  }

  lemma ReportsChosen(hits: seq<Hit>, threshold: real, topK: nat, chosen: seq<nat>, items: seq<Hit>, results: seq<Result>, sources: seq<string>)
    requires IsSelection(hits, threshold, topK, chosen)
    requires (forall i :: 0 <= i < |chosen| ==> chosen[i] < |hits|) && items == At(hits, chosen)
    requires |results| == |sources| == |items|
    requires forall i :: 0 <= i < |items| ==> results[i] == ResultOf(items[i], i + 1)
    requires forall i :: 0 <= i < |items| ==> sources[i] == Label(items[i].item)
    ensures ReportsSelection(hits, threshold, topK, results, sources)
  {
    assert Reports(hits, chosen, results, sources);
  }

  method Report(items: seq<Hit>) returns (results: seq<Result>, sources: seq<string>)
    ensures |results| == |sources| == |items|
    ensures forall i :: 0 <= i < |items| ==> results[i] == ResultOf(items[i], i + 1)
    ensures forall i :: 0 <= i < |items| ==> sources[i] == Label(items[i].item)
  {
    results, sources := [], [];
    for i := 0 to |items|
      invariant |results| == |sources| == i
      invariant forall j :: 0 <= j < i ==> results[j] == ResultOf(items[j], j + 1) && sources[j] == Label(items[j].item)
    {
      results := results + [ResultOf(items[i], i + 1)];
      sources := sources + [Label(items[i].item)];
    }
  }

  // ---- What that means for the results themselves ----

  /** The result stands for chunks with this parent, or, if they have none, with this text. */
  predicate StandsFor(r: Result, parent: string, document: string) {
    if parent == "" then r.parent == "" && r.document == document else r.parent == parent
  }

  /** The result at place `i` is hit `h`, numbered from one, with its label. */
  predicate Describes(r: Result, caption: string, h: Hit, i: nat) {
    && r.citation == "S" + Decimal(i + 1)
    && r.document == h.item.document && r.parent == h.item.parent && r.parentText == h.item.parentText
    && r.source == h.item.source && r.chapter == h.item.chapter && r.score == h.score
    && caption == h.item.source + " | " + h.item.chapter
  }

  ghost predicate IsHit(hits: seq<Hit>, r: Result, caption: string, i: nat) {
    exists p :: 0 <= p < |hits| && Describes(r, caption, hits[p], i)
  }

  /** At most `topK` results, best first, all at the threshold, numbered from one, each of them a
      hit that no hit of its block outscores. */
  ghost predicate AreTheBest(hits: seq<Hit>, threshold: real, topK: nat, results: seq<Result>, sources: seq<string>) {
    && |results| == |sources| <= topK
    && (forall i :: 0 <= i < |results| ==> results[i].score >= threshold)
    && (forall i, j :: 0 <= i < j < |results| ==> results[i].score >= results[j].score)
    && (forall i :: 0 <= i < |results| ==> IsHit(hits, results[i], sources[i], i))
    && (forall i, p :: 0 <= i < |results| && 0 <= p < |hits| && StandsFor(results[i], hits[p].item.parent, hits[p].item.document) ==>
          hits[p].score <= results[i].score)
  }

  /** No parent is there twice, and no text of chunks that have no parent. */
  ghost predicate NoneTwice(results: seq<Result>) {
    && (forall i, j :: 0 <= i < j < |results| && results[i].parent != "" ==> results[i].parent != results[j].parent)
    && (forall i, j :: 0 <= i < j < |results| && results[i].parent == "" && results[j].parent == "" ==> results[i].document != results[j].document)
  }

  /** A hit at the threshold that no result stands for is left out only because the list is full of better ones. */
  ghost predicate NoneMissing(hits: seq<Hit>, threshold: real, topK: nat, results: seq<Result>) {
    forall p :: 0 <= p < |hits| && hits[p].score >= threshold && NotAmong(results, hits[p]) ==>
      |results| == topK && forall i :: 0 <= i < |results| ==> results[i].score >= hits[p].score
  }

  ghost predicate NotAmong(results: seq<Result>, h: Hit) {
    forall i :: 0 <= i < |results| ==> !StandsFor(results[i], h.item.parent, h.item.document)
  }

  lemma KeyMeansBlock(r: Result, h: Hit, n: nat, other: Hit)
    requires r == ResultOf(h, n)
    ensures KeyOf(h.item) == KeyOf(other.item) <==> StandsFor(r, other.item.parent, other.item.document)
  {
  }

  /** Every block has a champion. */
  lemma BestOfBlock(hits: seq<Hit>, p: nat) returns (q: nat)
    requires p < |hits|
    ensures q < |hits| && KeyOf(hits[q].item) == KeyOf(hits[p].item) && Champion(hits, q)
    ensures q == p || Beats(hits, q, p)
  {
    var order := SortIsByOrder(hits);
    var sorted := StableDesc(hits);
    assert Listed(order, p);
    var place :| 0 <= place < |order| && order[place].item == p;
    var keys := Keys(sorted);
    assert keys[place] in keys;
    var first := IndexOf(keys, keys[place]);
    assert IsFirst(keys, first);
    FirstMeansChampion(hits, order, sorted, first);
    q := order[first].item;
    if first < place { assert Before(order[first], order[place]); }
  }

  lemma NoneOutscores(hits: seq<Hit>, threshold: real, topK: nat, chosen: seq<nat>, results: seq<Result>, sources: seq<string>, i: nat, p: nat)
    requires IsSelection(hits, threshold, topK, chosen) && Reports(hits, chosen, results, sources)
    requires i < |results| && p < |hits| && StandsFor(results[i], hits[p].item.parent, hits[p].item.document)
    ensures hits[p].score <= results[i].score
  {
    KeyMeansBlock(results[i], hits[chosen[i]], i + 1, hits[p]);
    if p != chosen[i] { assert Champion(hits, chosen[i]) && Beats(hits, chosen[i], p); }
  }

  lemma ChosenAreTheBest(hits: seq<Hit>, threshold: real, topK: nat, chosen: seq<nat>, results: seq<Result>, sources: seq<string>)
    requires IsSelection(hits, threshold, topK, chosen) && Reports(hits, chosen, results, sources)
    ensures AreTheBest(hits, threshold, topK, results, sources)
  {
    forall i | 0 <= i < |results| ensures IsHit(hits, results[i], sources[i], i) {
      assert Describes(results[i], sources[i], hits[chosen[i]], i);
    }
    forall i, j | 0 <= i < j < |results| ensures results[i].score >= results[j].score {
      assert Beats(hits, chosen[i], chosen[j]);
    }
    forall i, p | 0 <= i < |results| && 0 <= p < |hits| && StandsFor(results[i], hits[p].item.parent, hits[p].item.document)
      ensures hits[p].score <= results[i].score
    {
      NoneOutscores(hits, threshold, topK, chosen, results, sources, i, p);
    }
    assert forall i :: 0 <= i < |results| ==> Eligible(hits, threshold, chosen[i]);
  }

  /** No two results come from one parent block. */
  lemma ResultsAreFromDifferentBlocks(hits: seq<Hit>, threshold: real, topK: nat, chosen: seq<nat>, results: seq<Result>, sources: seq<string>)
    requires IsSelection(hits, threshold, topK, chosen) && Reports(hits, chosen, results, sources)
    ensures NoneTwice(results)
  {
    forall i, j | 0 <= i < j < |results| ensures KeyOf(hits[chosen[i]].item) != KeyOf(hits[chosen[j]].item) {
      assert Beats(hits, chosen[i], chosen[j]);
      assert Champion(hits, chosen[j]) && Eligible(hits, threshold, chosen[j]);
    }
  }

  lemma OnlyTheCutMisses(hits: seq<Hit>, threshold: real, topK: nat, chosen: seq<nat>, results: seq<Result>, sources: seq<string>, p: nat)
    requires IsSelection(hits, threshold, topK, chosen) && Reports(hits, chosen, results, sources)
    requires p < |hits| && hits[p].score >= threshold && NotAmong(results, hits[p])
    ensures |results| == topK && forall i :: 0 <= i < |results| ==> results[i].score >= hits[p].score
  {
    var q := BestOfBlock(hits, p);
    assert Eligible(hits, threshold, q);
    forall i | 0 <= i < |chosen| ensures chosen[i] != q {
      KeyMeansBlock(results[i], hits[chosen[i]], i + 1, hits[p]);
    }
    assert forall i :: 0 <= i < |chosen| ==> Beats(hits, chosen[i], q);
  }

  /** The specified selection is the best hit of every block, and only the cut leaves any out. */
  lemma SelectionMeans(hits: seq<Hit>, threshold: real, topK: nat, results: seq<Result>, sources: seq<string>)
    requires ReportsSelection(hits, threshold, topK, results, sources)
    ensures AreTheBest(hits, threshold, topK, results, sources)
    ensures NoneTwice(results) && NoneMissing(hits, threshold, topK, results)
  {
    var chosen :| IsSelection(hits, threshold, topK, chosen) && Reports(hits, chosen, results, sources);
    ChosenAreTheBest(hits, threshold, topK, chosen, results, sources);
    ResultsAreFromDifferentBlocks(hits, threshold, topK, chosen, results, sources);
    forall p | 0 <= p < |hits| && hits[p].score >= threshold && NotAmong(results, hits[p])
      ensures |results| == topK && forall i :: 0 <= i < |results| ==> results[i].score >= hits[p].score
    {
      OnlyTheCutMisses(hits, threshold, topK, chosen, results, sources, p);
    }
  }

  // ---- References shown with an answer ----

  datatype Ref = Ref(id: string, caption: string)

  /** One reference per result; a missing label is replaced by a fixed text. */
  method SourceRefs(results: seq<Result>, sources: seq<string>) returns (refs: seq<Ref>)
    ensures |refs| == |results|
    ensures forall i :: 0 <= i < |refs| ==>
      refs[i].id == (if results[i].citation != "" then results[i].citation else Citation(i + 1)) &&
      refs[i].caption == (if i < |sources| then sources[i] else "未知来源")
  {
    refs := [];
    for i := 0 to |results|
      invariant |refs| == i
      invariant forall j :: 0 <= j < i ==>
        refs[j].id == (if results[j].citation != "" then results[j].citation else Citation(j + 1)) &&
        refs[j].caption == (if j < |sources| then sources[j] else "未知来源")
    {
      var id := if results[i].citation != "" then results[i].citation else Citation(i + 1);
      refs := refs + [Ref(id, if i < |sources| then sources[i] else "未知来源")];
    }
  }
}
