/** Hybrid retrieval over a keyword index that is derived from the store and may be stale. */
module Hybrid {
  import opened Prelude
  import opened Chroma
  import opened Sorting

  /** The published BM25 lists.  `index` is the list of documents it was built from. */
  datatype Bm25Lists = Bm25Lists(index: Option<seq<string>>, ids: seq<ChunkId>, documents: seq<string>, metadatas: seq<ChunkMeta>)

  const NO_LISTS := Bm25Lists(None, [], [], [])

  ghost predicate Aligned(l: Bm25Lists) {
    && |l.ids| == |l.documents| == |l.metadatas|
    && (l.index.Some? ==> l.index.value == l.documents)
    && (l.index.None? ==> l.ids == [])
  }

  /** No chunk of the corpus yields a token; only the empty document does that. */
  predicate NoTokens(documents: seq<string>) {
    forall i :: 0 <= i < |documents| ==> documents[i] == ""
  }

  ghost predicate Tokenless(corpus: Store) {
    forall id :: id in corpus ==> corpus[id].document == ""
  }

  /** The lists are what a rebuild over `corpus` would publish, up to the order of its rows. */
  ghost predicate Agrees(l: Bm25Lists, corpus: Store) {
    if Tokenless(corpus) then l == NO_LISTS
    else
      && Aligned(l)
      && l.index.Some?
      && Enumerates(l.ids, corpus)
      && forall k :: 0 <= k < |l.ids| ==> l.documents[k] == corpus[l.ids[k]].document && l.metadatas[k] == corpus[l.ids[k]].meta
  }

  lemma AgreedIsAligned(l: Bm25Lists, corpus: Store)
    ensures Agrees(l, corpus) ==> Aligned(l)
  {
  }

  /** Two corpora with the same agreed lists are equal, unless neither holds any token. */
  lemma ListsDetermineCorpus(l: Bm25Lists, corpus: Store, other: Store)
    requires Agrees(l, corpus)
    ensures Agrees(l, other) <==> corpus == other || (Tokenless(corpus) && Tokenless(other))
  {
    if Agrees(l, other) && !Tokenless(corpus) {
      assert corpus.Keys == other.Keys by {
        assert forall id :: id in corpus <==> id in l.ids;
        assert forall id :: id in other <==> id in l.ids;
      }
      forall id | id in corpus ensures corpus[id] == other[id] {
        var k :| 0 <= k < |l.ids| && l.ids[k] == id;
        assert corpus[id] == Record(l.documents[k], l.metadatas[k]);
      }
    }
  }

  // ---- What a query may depend on ----

  /** The positions of the index that the request's filter lets through. */
  function VisibleIndices(l: Bm25Lists, where_: Where, n: nat): (r: seq<nat>)
    requires n <= |l.ids|
    ensures forall i :: 0 <= i < |r| ==> r[i] < n
  {
    if n == 0 then []
    else
      var front := VisibleIndices(l, where_, n - 1);
      if |l.metadatas| != |l.ids| || Matches(l.metadatas[n - 1], where_) then front + [n - 1] else front
  }

  /** The permitted entries among the first `n`, with their keyword scores. */
  function View(l: Bm25Lists, scores: seq<real>, where_: Where, n: nat): seq<Scored<ChunkId>>
    requires Aligned(l) && n <= |l.ids| <= |scores|
  {
    if n == 0 then []
    else
      var front := View(l, scores, where_, n - 1);
      if Matches(l.metadatas[n - 1], where_) then front + [Scored(l.ids[n - 1], scores[n - 1])] else front
  }

  datatype Text = Text(id: ChunkId, document: string)

  /** The permitted entries among the first `n`, with their documents. */
  function Texts(l: Bm25Lists, where_: Where, n: nat): seq<Text>
    requires Aligned(l) && n <= |l.ids|
  {
    if n == 0 then []
    else
      var front := Texts(l, where_, n - 1);
      if Matches(l.metadatas[n - 1], where_) then front + [Text(l.ids[n - 1], l.documents[n - 1])] else front
  }

  /** The scored positions that the code sorts. */
  function Positions(visible: seq<nat>, scores: seq<real>): (r: seq<Scored<nat>>)
    requires forall i :: 0 <= i < |visible| ==> visible[i] < |scores|
    ensures |r| == |visible|
  {
    seq(|visible|, i requires 0 <= i < |visible| => Scored(visible[i], scores[visible[i]]))
  }

  lemma {:induction false} ViewIsPicked(l: Bm25Lists, scores: seq<real>, where_: Where, n: nat)
    requires Aligned(l) && n <= |l.ids| <= |scores|
    ensures Pick(l.ids, Positions(VisibleIndices(l, where_, n), scores)) == View(l, scores, where_, n)
  {
    if n > 0 {
      ViewIsPicked(l, scores, where_, n - 1);
      var front := VisibleIndices(l, where_, n - 1);
      assert VisibleIndices(l, where_, n) == if Matches(l.metadatas[n - 1], where_) then front + [n - 1] else front;
      if Matches(l.metadatas[n - 1], where_) {
        PickLast(l.ids, front, scores, n - 1);
      }
    }
  }

  lemma PickLast(ids: seq<ChunkId>, front: seq<nat>, scores: seq<real>, last: nat)
    requires |ids| <= |scores| && last < |ids|
    requires forall i :: 0 <= i < |front| ==> front[i] < |ids|
    ensures Pick(ids, Positions(front + [last], scores)) ==
      Pick(ids, Positions(front, scores)) + [Scored(ids[last], scores[last])]
  {
  }

  /** `exact` lists the entries that contain one of the terms, each once. */
  ghost predicate TermMatches(exact: seq<ChunkId>, terms: seq<string>, texts: seq<Text>) {
    && NoDup(exact)
    && (forall id :: id in exact <==> Matched(id, terms, texts))
  }

  ghost predicate Matched(id: ChunkId, terms: seq<string>, texts: seq<Text>) {
    exists t, k :: 0 <= t < |terms| && 0 <= k < |texts| && texts[k].id == id && Occurs(terms[t], texts[k].document)
  }

  function Take<T>(s: seq<T>, n: nat): (r: seq<T>)
    ensures r <= s && |r| == if n < |s| then n else |s|
  {
    if n < |s| then s[..n] else s
  }

  const SHORTLIST := 50

  function Shortlist(view: seq<Scored<ChunkId>>): seq<Scored<ChunkId>> {
    Take(StableDesc(view), SHORTLIST)
  }

  /** The shortlist is the best of the permitted entries: nothing that was left out beats
      anything that was kept, and nothing is left out while there is room. */
  lemma ShortlistIsBest(view: seq<Scored<ChunkId>>)
    ensures multiset(Shortlist(view)) <= multiset(view)
    ensures |Shortlist(view)| == if |view| < SHORTLIST then |view| else SHORTLIST
    ensures forall kept, left :: kept in Shortlist(view) && left in multiset(view) - multiset(Shortlist(view)) ==>
      kept.score >= left.score
  {
    var sorted := StableDesc(view);
    SortSorts(view);
    var k := |Shortlist(view)|;
    assert sorted == sorted[..k] + sorted[k..];
    assert multiset(view) - multiset(sorted[..k]) == multiset(sorted[k..]);
    forall kept, left | kept in sorted[..k] && left in multiset(sorted[k..]) ensures kept.score >= left.score {
      assert left in sorted[k..];
    }
  }

  /** The score of the last entry for `id`, if there is one. */
  function LastScore(s: seq<Scored<ChunkId>>, id: ChunkId): real
    decreases |s|
  {
    if s == [] then 0.0
    else if s[|s| - 1].item == id then s[|s| - 1].score
    else LastScore(s[..|s| - 1], id)
  }

  function MaxScore(s: seq<Scored<ChunkId>>): real
    requires s != []
  {
    if |s| == 1 then s[0].score
    else
      var m := MaxScore(s[..|s| - 1]);
      if s[|s| - 1].score > m then s[|s| - 1].score else m
  }

  /** Keyword scores relative to the best one, when that is positive. */
  function Normalised(s: seq<Scored<ChunkId>>): (r: seq<Scored<ChunkId>>)
    ensures |r| == |s|
  {
    var top := if s != [] && MaxScore(s) > 0.0 then MaxScore(s) else 1.0;
    seq(|s|, i requires 0 <= i < |s| => Scored(s[i].item, s[i].score / top))
  }

  predicate OccursAt(term: string, document: string, i: nat) {
    i + |term| <= |document| && document[i..i + |term|] == term
  }

  predicate Occurs(term: string, document: string) {
    exists i :: 0 <= i <= |document| && OccursAt(term, document, i)
  }

  /** The final score: a weighted sum, where an exact term match counts as a full keyword score. */
  function Fused(id: ChunkId, vector: seq<Scored<ChunkId>>, keyword: seq<Scored<ChunkId>>, exact: seq<ChunkId>, alpha: real): real {
    Weighted((LastScore(vector, id), Boosted(id, keyword, exact)), alpha)
  }

  function Weighted(scores: (real, real), alpha: real): real {
    alpha * scores.0 + (1.0 - alpha) * scores.1
  }

  function Boosted(id: ChunkId, keyword: seq<Scored<ChunkId>>, exact: seq<ChunkId>): real {
    AtLeastOne(LastScore(keyword, id), id in exact)
  }

  function AtLeastOne(score: real, exact: bool): real {
    if exact && score < 1.0 then 1.0 else score
  }

  /** All candidates of either search, in order of arrival. */
  function Union(vector: seq<Scored<ChunkId>>, keyword: seq<Scored<ChunkId>>, exact: seq<ChunkId>): seq<ChunkId> {
    Distinct(Items(vector) + Items(keyword) + exact)
  }

  function WithScores(ids: seq<ChunkId>, vector: seq<Scored<ChunkId>>, keyword: seq<Scored<ChunkId>>, exact: seq<ChunkId>, alpha: real): (r: seq<Scored<ChunkId>>) {
    seq(|ids|, i requires 0 <= i < |ids| => Scored(ids[i], Fused(ids[i], vector, keyword, exact, alpha)))
  }

  /** The answer of a query, as a function of the vector hits and the permitted entries only. */
  function Answer(vector: seq<Scored<ChunkId>>, view: seq<Scored<ChunkId>>, exact: seq<ChunkId>, alpha: real, topK: nat): seq<ChunkId> {
    var keyword := Normalised(Shortlist(view));
    Take(Items(StableDesc(WithScores(Union(vector, keyword, exact), vector, keyword, exact, alpha))), topK)
  }

  /** The ids chosen before they are read again: while there is no index, the vector hits alone. */
  function Chosen(l: Bm25Lists, vector: seq<Scored<ChunkId>>, scores: seq<real>, exact: seq<ChunkId>, where_: Where,
                  alpha: real, topK: nat): seq<ChunkId>
    requires Aligned(l) && |scores| == |l.ids|
  {
    if l.index.None? || l.ids == [] then Take(Items(vector), topK)
    else Answer(vector, View(l, scores, where_, |l.ids|), exact, alpha, topK)
  }

  /** `ids` are those of the chosen ones that the store still holds under the filter; Chroma
      returns them in an order of its own. */
  ghost predicate Answers(ids: seq<ChunkId>, l: Bm25Lists, vector: seq<Scored<ChunkId>>, scores: seq<real>, terms: seq<string>,
                          exact: seq<ChunkId>, store: Store, where_: Where, alpha: real, topK: nat)
  {
    && Aligned(l) && |scores| == |l.ids|
    && TermMatches(exact, terms, Texts(l, where_, |l.ids|))
    && NoDup(ids) && |ids| <= topK
    && forall id :: id in ids <==> id in Chosen(l, vector, scores, exact, where_, alpha, topK) && id in Select(store, where_)
  }

  /** An answer names no chunk twice, no more than `topK`, and only candidates. */
  lemma AnswerIsDistinct(vector: seq<Scored<ChunkId>>, view: seq<Scored<ChunkId>>, exact: seq<ChunkId>, alpha: real, topK: nat)
    ensures var r := Answer(vector, view, exact, alpha, topK);
      && |r| <= topK
      && NoDup(r)
      && forall id :: id in r ==> id in Items(vector) || id in Items(Shortlist(view)) || id in exact
  {
    var keyword := Normalised(Shortlist(view));
    var ids := Union(vector, keyword, exact);
    var scored := WithScores(ids, vector, keyword, exact, alpha);
    assert Items(scored) == ids;
    DistinctKeepsAll(Items(vector) + Items(keyword) + exact);
    var sorted := StableDesc(scored);
    SortSorts(scored);
    PermutationKeepsNoDup(scored, sorted);
    assert Items(keyword) == Items(Shortlist(view));
    forall id | id in Take(Items(sorted), topK)
      ensures id in Items(vector) || id in Items(Shortlist(view)) || id in exact
    {
      assert id in Items(sorted);
      assert id in ids;
      assert id in Items(vector) + Items(keyword) + exact;
    }
  }

  lemma PermutationKeepsNoDup(s: seq<Scored<ChunkId>>, t: seq<Scored<ChunkId>>)
    requires multiset(s) == multiset(t) && NoDup(Items(s))
    ensures NoDup(Items(t))
    ensures forall id :: id in Items(t) ==> id in Items(s)
  {
    forall id | id in Items(t) ensures id in Items(s) {
      var i :| 0 <= i < |t| && Items(t)[i] == id;
      assert t[i] in multiset(t);
      var j :| 0 <= j < |s| && s[j] == t[i];
      assert Items(s)[j] == id;
    }
    forall i, j | 0 <= i < j < |t| ensures Items(t)[i] != Items(t)[j] {
      assert t[i] in multiset(t) && t[j] in multiset(t);
      assert t[i] in s && t[j] in s;
      var a :| 0 <= a < |s| && s[a] == t[i];
      var b :| 0 <= b < |s| && s[b] == t[j];
      assert Items(s)[a] == Items(t)[i] && Items(s)[b] == Items(t)[j];
      OnceOnly(s, t[i]);
      if t[i] == t[j] { TwiceInSequence(t, i, j); }
      assert a != b;
    }
  }

  lemma TwiceInSequence<T>(t: seq<T>, i: nat, j: nat)
    requires i < j < |t| && t[i] == t[j]
    ensures multiset(t)[t[i]] >= 2
  {
    assert t == t[..j] + [t[j]] + t[j + 1..];
    assert t[..j][i] == t[i];
  }

  lemma {:induction false} OnceOnly(s: seq<Scored<ChunkId>>, x: Scored<ChunkId>)
    requires NoDup(Items(s))
    ensures multiset(s)[x] <= 1
    decreases |s|
  {
    if s != [] {
      var front, last := s[..|s| - 1], s[|s| - 1];
      assert s == front + [last];
      assert Items(s) == Items(front) + [last.item];
      assert NoDup(Items(front)) by {
        assert forall i :: 0 <= i < |front| ==> Items(front)[i] == Items(s)[i];
      }
      OnceOnly(front, x);
      forall k | 0 <= k < |front| ensures front[k] != last {
        assert Items(s)[k] == front[k].item && Items(s)[|front|] == last.item;
      }
      assert last !in front;
    }
  }

  /** Insert one entry at position `at`. */
  function WithEntry(l: Bm25Lists, at: nat, id: ChunkId, document: string, meta: ChunkMeta): (r: Bm25Lists)
    requires Aligned(l) && l.index.Some? && at <= |l.ids|
    ensures Aligned(r)
  {
    var documents := l.documents[..at] + [document] + l.documents[at..];
    Bm25Lists(Some(documents), l.ids[..at] + [id] + l.ids[at..], documents, l.metadatas[..at] + [meta] + l.metadatas[at..])
  }

  /** One more entry, the same in both lists, adds the same to both. */
  lemma SameEntry(l: Bm25Lists, scores: seq<real>, n: nat, l': Bm25Lists, scores': seq<real>, n': nat, where_: Where)
    requires Aligned(l) && 0 < n <= |l.ids| <= |scores| && Aligned(l') && 0 < n' <= |l'.ids| <= |scores'|
    requires l'.ids[n' - 1] == l.ids[n - 1] && scores'[n' - 1] == scores[n - 1]
    requires l'.documents[n' - 1] == l.documents[n - 1] && l'.metadatas[n' - 1] == l.metadatas[n - 1]
    requires View(l', scores', where_, n' - 1) == View(l, scores, where_, n - 1) && Texts(l', where_, n' - 1) == Texts(l, where_, n - 1)
    ensures View(l', scores', where_, n') == View(l, scores, where_, n) && Texts(l', where_, n') == Texts(l, where_, n)
  {
  }

  lemma HiddenEntry(l: Bm25Lists, scores: seq<real>, at: nat, where_: Where)
    requires Aligned(l) && at < |l.ids| <= |scores| && !Matches(l.metadatas[at], where_)
    ensures View(l, scores, where_, at + 1) == View(l, scores, where_, at) && Texts(l, where_, at + 1) == Texts(l, where_, at)
  {
  }

  /** `l'` is `l` with one entry more, at position `at`. */
  ghost predicate Widened(l: Bm25Lists, scores: seq<real>, l': Bm25Lists, scores': seq<real>, at: nat) {
    && Aligned(l) && Aligned(l') && |scores| == |l.ids| && |scores'| == |l'.ids| == |l.ids| + 1 && at <= |l.ids|
    && (forall i :: 0 <= i < at ==> SameAt(l, scores, i, l', scores', i))
    && (forall i, j :: at <= i < |l.ids| && j == i + 1 ==> SameAt(l, scores, i, l', scores', j))
  }

  ghost predicate SameAt(l: Bm25Lists, scores: seq<real>, i: nat, l': Bm25Lists, scores': seq<real>, j: nat)
    requires Aligned(l) && i < |l.ids| == |scores| && Aligned(l') && j < |l'.ids| == |scores'|
  {
    l'.ids[j] == l.ids[i] && l'.documents[j] == l.documents[i] && l'.metadatas[j] == l.metadatas[i] && scores'[j] == scores[i]
  }

  lemma {:induction false} ViewWithEntry(l: Bm25Lists, scores: seq<real>, l': Bm25Lists, scores': seq<real>, where_: Where, n: nat, at: nat)
    requires Widened(l, scores, l', scores', at) && n <= |l.ids| && !Matches(l'.metadatas[at], where_)
    ensures var n' := if n < at then n else n + 1;
      View(l', scores', where_, n') == View(l, scores, where_, n) && Texts(l', where_, n') == Texts(l, where_, n)
    decreases n
  {
    if n > 0 { ViewWithEntry(l, scores, l', scores', where_, n - 1, at); }
    if 0 < n <= at {
      assert SameAt(l, scores, n - 1, l', scores', n - 1);
      SameEntry(l, scores, n, l', scores', n, where_);
    } else if at < n {
      assert SameAt(l, scores, n - 1, l', scores', n);
      SameEntry(l, scores, n, l', scores', n + 1, where_);
    }
    if n == at { HiddenEntry(l', scores', at, where_); }
  }

  /** A hidden entry, wherever it stands in the index and however well it scores, changes
      neither the keyword ranking nor the term matching of a request. */
  lemma HiddenEntryHasNoInfluence(l: Bm25Lists, scores: seq<real>, where_: Where, at: nat, id: ChunkId, document: string, meta: ChunkMeta, score: real)
    requires Aligned(l) && l.index.Some? && |scores| == |l.ids| && at <= |l.ids|
    requires !Matches(meta, where_)
    ensures var l' := WithEntry(l, at, id, document, meta);
      var scores' := scores[..at] + [score] + scores[at..];
      && View(l', scores', where_, |l'.ids|) == View(l, scores, where_, |l.ids|)
      && Texts(l', where_, |l'.ids|) == Texts(l, where_, |l.ids|)
  {
    var l' := WithEntry(l, at, id, document, meta);
    var scores' := scores[..at] + [score] + scores[at..];
    assert l'.metadatas[at] == meta;
    ViewWithEntry(l, scores, l', scores', where_, |l.ids|, at);
  }

  function DocumentsOf(store: Store, ids: seq<ChunkId>): (r: seq<string>)
    requires forall k :: 0 <= k < |ids| ==> ids[k] in store
    ensures |r| == |ids|
  {
    seq(|ids|, k requires 0 <= k < |ids| => store[ids[k]].document)
  }

  function MetasOf(store: Store, ids: seq<ChunkId>): (r: seq<ChunkMeta>)
    requires forall k :: 0 <= k < |ids| ==> ids[k] in store
    ensures |r| == |ids|
  {
    seq(|ids|, k requires 0 <= k < |ids| => store[ids[k]].meta)
  }

  class Bm25Index {
    var lists: Bm25Lists

    constructor ()
      ensures lists == NO_LISTS
    {
      lists := NO_LISTS;
    }

    /** Build complete lists first and publish them at once; a failure leaves the old ones. */
    method Rebuild(collection: Collection, where_: Where) returns (ok: bool)
      modifies this
      ensures ok ==> Agrees(lists, Select(collection.physical, where_))
      ensures !ok ==> lists == old(lists)
      ensures collection.reliable ==> ok
    {
      ghost var corpus := Select(collection.physical, where_);
      var ids;
      ok, ids := collection.Get(where_);
      if !ok {
        return;
      }
      assert forall k :: 0 <= k < |ids| ==> ids[k] in ids;
      var documents := DocumentsOf(collection.physical, ids);
      var metadatas := MetasOf(collection.physical, ids);
      if documents == [] || NoTokens(documents) {
        forall id | id in corpus ensures corpus[id].document == "" {
          var k :| 0 <= k < |ids| && ids[k] == id;
          assert documents[k] == "";
        }
        lists := NO_LISTS;
        return;
      }
      var k :| 0 <= k < |documents| && documents[k] != "";
      assert ids[k] in corpus && corpus[ids[k]].document != "";
      var built := collection.Succeeds();
      if !built {
        return false;
      }
      lists := Bm25Lists(Some(documents), ids, documents, metadatas);
    }

    /** `hybrid_search`.  The vector hits, the keyword scores of the published index and the
        query's terms come from outside; so does the order in which Chroma returns records. */
    method Search(collection: Collection, vector: seq<Scored<ChunkId>>, scores: seq<real>, terms: seq<string>,
                  alpha: real, topK: nat, where_: Where)
      returns (ok: bool, ids: seq<ChunkId>, ghost exact: seq<ChunkId>)
      requires Aligned(lists)
      requires |scores| == |lists.ids| && NoDup(Items(vector))
      ensures collection.reliable ==> ok
      ensures ok ==> Answers(ids, lists, vector, scores, terms, exact, collection.physical, where_, alpha, topK)
    {
      var top: seq<ChunkId>;
      if lists.index.None? || lists.ids == [] {
        exact := [];
        top := Take(Items(vector), topK);
      } else {
        var visible := VisibleIndices(lists, where_, |lists.ids|);
        var shortlist := RankVisible(visible, scores, where_);
        var matched := ExactKeywordIds(terms, Texts(lists, where_, |lists.ids|));
        top := Fuse(vector, Normalised(shortlist), matched, alpha, topK);
        exact := matched;
        AnswerIsDistinct(vector, View(lists, scores, where_, |lists.ids|), exact, alpha, topK);
      }
      ok, ids := VisibleCandidates(collection, top, where_);
    }

    /** BM25 scores of the published documents, one each. */
    method GetScores() returns (scores: seq<real>)
      ensures |scores| == |lists.ids|
    {
      scores := [];
      while |scores| < |lists.ids|
        invariant |scores| <= |lists.ids|
      {
        var score: real := *;
        scores := scores + [score];
      }
    }

    /** Sort the permitted positions by score, cut, and only then look up the ids. */
    method RankVisible(visible: seq<nat>, scores: seq<real>, where_: Where) returns (shortlist: seq<Scored<ChunkId>>)
      requires Aligned(lists) && |scores| == |lists.ids|
      requires visible == VisibleIndices(lists, where_, |lists.ids|)
      ensures shortlist == Shortlist(View(lists, scores, where_, |lists.ids|))
    {
      var positions := Positions(visible, scores);
      PickSort(lists.ids, positions);
      ViewIsPicked(lists, scores, where_, |lists.ids|);
      var best := Take(StableDesc(positions), SHORTLIST);
      shortlist := Pick(lists.ids, best);
      assert shortlist == Take(Pick(lists.ids, StableDesc(positions)), SHORTLIST);
    }

    /** Ids of permitted entries whose document contains one of the terms, each once. */
    method ExactKeywordIds(terms: seq<string>, texts: seq<Text>) returns (matched: seq<ChunkId>)
      ensures TermMatches(matched, terms, texts)
    {
      matched := [];
      for t := 0 to |terms|
        invariant NoDup(matched)
        invariant forall id :: id in matched <==>
          exists u, k :: 0 <= u < t && 0 <= k < |texts| && texts[k].id == id && Occurs(terms[u], texts[k].document)
      {
        ghost var before := matched;
        for k := 0 to |texts|
          invariant NoDup(matched)
          invariant forall id :: id in matched <==>
            (id in before || exists m :: 0 <= m < k && texts[m].id == id && Occurs(terms[t], texts[m].document))
        {
          if Occurs(terms[t], texts[k].document) && texts[k].id !in matched {
            matched := matched + [texts[k].id];
          }
        }
      }
    }

    /** Merge the three lists into one dictionary and keep the best `topK` entries. */
    method Fuse(vector: seq<Scored<ChunkId>>, keyword: seq<Scored<ChunkId>>, exact: seq<ChunkId>, alpha: real, topK: nat)
      returns (top: seq<ChunkId>)
      ensures top == Take(Items(StableDesc(WithScores(Union(vector, keyword, exact), vector, keyword, exact, alpha))), topK)
    {
      var order, union := FromVector(vector);
      order, union := AddKeyword(order, union, vector, keyword);
      order, union := AddExact(order, union, vector, keyword, exact);
      DistinctKeepsAll(Items(vector) + Items(keyword) + exact);
      assert forall i :: 0 <= i < |order| ==> order[i] in union;
      var combined := seq(|order|, i requires 0 <= i < |order| && order[i] in union =>
        Scored(order[i], Weighted(union[order[i]], alpha)));
      assert combined == WithScores(Union(vector, keyword, exact), vector, keyword, exact, alpha);
      top := Take(Items(StableDesc(combined)), topK);
    }

    method FromVector(vector: seq<Scored<ChunkId>>) returns (order: seq<ChunkId>, union: map<ChunkId, (real, real)>)
      ensures Merged(order, union, Items(vector), vector, [], [])
    {
      order, union := [], map[];
      for i := 0 to |vector|
        invariant Merged(order, union, Items(vector[..i]), vector[..i], [], [])
      {
        var id := vector[i].item;
        MergeVector(order, union, Items(vector[..i]), vector[..i], vector[i]);
        assert vector[..i + 1] == vector[..i] + [vector[i]];
        ItemsOfMore(vector[..i], vector[i]);
        order, union := if id in union then order else order + [id], union[id := (vector[i].score, 0.0)];
      }
      assert vector[..|vector|] == vector;
    }

    method AddKeyword(order0: seq<ChunkId>, union0: map<ChunkId, (real, real)>, vector: seq<Scored<ChunkId>>, keyword: seq<Scored<ChunkId>>)
      returns (order: seq<ChunkId>, union: map<ChunkId, (real, real)>)
      requires Merged(order0, union0, Items(vector), vector, [], [])
      ensures Merged(order, union, Items(vector) + Items(keyword), vector, keyword, [])
    {
      order, union := order0, union0;
      NothingYet(vector, keyword);
      for i := 0 to |keyword|
        invariant Merged(order, union, Items(vector) + Items(keyword[..i]), vector, keyword[..i], [])
      {
        var id := keyword[i].item;
        KeywordAt(order, union, vector, keyword, i);
        order, union := if id in union then order else order + [id],
                        union[id := (if id in union then union[id].0 else 0.0, keyword[i].score)];
      }
      assert keyword[..|keyword|] == keyword;
    }

    method AddExact(order0: seq<ChunkId>, union0: map<ChunkId, (real, real)>, vector: seq<Scored<ChunkId>>, keyword: seq<Scored<ChunkId>>, exact: seq<ChunkId>)
      returns (order: seq<ChunkId>, union: map<ChunkId, (real, real)>)
      requires Merged(order0, union0, Items(vector) + Items(keyword), vector, keyword, [])
      ensures Merged(order, union, Items(vector) + Items(keyword) + exact, vector, keyword, exact)
    {
      order, union := order0, union0;
      assert exact[..0] == [] && Items(vector) + Items(keyword) + [] == Items(vector) + Items(keyword);
      for i := 0 to |exact|
        invariant Merged(order, union, Items(vector) + Items(keyword) + exact[..i], vector, keyword, exact[..i])
      {
        var id := exact[i];
        ExactAt(order, union, vector, keyword, exact, i);
        order, union := if id in union then order else order + [id],
                        union[id := if id in union then (union[id].0, if union[id].1 < 1.0 then 1.0 else union[id].1) else (0.0, 1.0)];
      }
      assert exact[..|exact|] == exact;
    }

    /** Read the candidates again and keep those the filter lets through, in any order. */
    method VisibleCandidates(collection: Collection, top: seq<ChunkId>, where_: Where) returns (ok: bool, ids: seq<ChunkId>)
      requires NoDup(top)
      ensures ok ==> NoDup(ids) && |ids| <= |top|
      ensures ok ==> forall id :: id in ids <==> id in top && id in Select(collection.physical, where_)
      ensures collection.reliable ==> ok
    {
      ids := [];
      for i := 0 to |top|
        invariant NoDup(ids) && |ids| <= i
        invariant forall id :: id in ids <==> id in top[..i] && id in Select(collection.physical, where_)
      {
        assert top[i] !in top[..i];
        assert top[i] !in ids;
        if top[i] in collection.physical && Matches(collection.physical[top[i]].meta, where_) {
          ids := ids + [top[i]];
        }
      }
      assert top[..|top|] == top;
      ok := collection.Succeeds();
    }
  }

  /** The dictionary after the ids `arrivals` came in, with the scores of the three lists so far. */
  ghost predicate Merged(order: seq<ChunkId>, union: map<ChunkId, (real, real)>, arrivals: seq<ChunkId>,
                         vector: seq<Scored<ChunkId>>, keyword: seq<Scored<ChunkId>>, exact: seq<ChunkId>)
  {
    && order == Distinct(arrivals)
    && (forall id :: id in union <==> id in arrivals)
    && (forall id :: id in union ==> union[id] == (LastScore(vector, id), Boosted(id, keyword, exact)))
  }

  lemma MergeVector(order: seq<ChunkId>, union: map<ChunkId, (real, real)>, arrivals: seq<ChunkId>,
                    vector: seq<Scored<ChunkId>>, x: Scored<ChunkId>)
    requires Merged(order, union, arrivals, vector, [], [])
    ensures Merged(if x.item in union then order else order + [x.item], union[x.item := (x.score, 0.0)],
                   arrivals + [x.item], vector + [x], [], [])
  {
    DistinctOfMore(arrivals, x.item);
    LastScoreOfMore(vector, x);
  }

  lemma MergeKeyword(order: seq<ChunkId>, union: map<ChunkId, (real, real)>, arrivals: seq<ChunkId>,
                     vector: seq<Scored<ChunkId>>, keyword: seq<Scored<ChunkId>>, x: Scored<ChunkId>)
    requires Merged(order, union, arrivals, vector, keyword, [])
    requires x.item !in arrivals ==> LastScore(vector, x.item) == 0.0
    ensures Merged(if x.item in union then order else order + [x.item],
                   union[x.item := (if x.item in union then union[x.item].0 else 0.0, x.score)],
                   arrivals + [x.item], vector, keyword + [x], [])
  {
    DistinctOfMore(arrivals, x.item);
    LastScoreOfMore(keyword, x);
  }

  lemma MergeExact(order: seq<ChunkId>, union: map<ChunkId, (real, real)>, arrivals: seq<ChunkId>,
                   vector: seq<Scored<ChunkId>>, keyword: seq<Scored<ChunkId>>, exact: seq<ChunkId>, x: ChunkId)
    requires Merged(order, union, arrivals, vector, keyword, exact)
    requires x !in arrivals ==> LastScore(vector, x) == 0.0 && LastScore(keyword, x) == 0.0
    ensures Merged(if x in union then order else order + [x],
                   union[x := if x in union then (union[x].0, if union[x].1 < 1.0 then 1.0 else union[x].1) else (0.0, 1.0)],
                   arrivals + [x], vector, keyword, exact + [x])
  {
    DistinctOfMore(arrivals, x);
    BoostedOfMore(keyword, exact, x);
  }

  lemma KeywordAt(order: seq<ChunkId>, union: map<ChunkId, (real, real)>, vector: seq<Scored<ChunkId>>, keyword: seq<Scored<ChunkId>>, i: nat)
    requires i < |keyword| && Merged(order, union, Items(vector) + Items(keyword[..i]), vector, keyword[..i], [])
    ensures var x := keyword[i];
      Merged(if x.item in union then order else order + [x.item],
             union[x.item := (if x.item in union then union[x.item].0 else 0.0, x.score)],
             Items(vector) + Items(keyword[..i + 1]), vector, keyword[..i + 1], [])
  {
    var seen, x := keyword[..i], keyword[i];
    AbsentScoresNothing(vector);
    assert x.item in Items(vector) ==> x.item in Items(vector) + Items(seen);
    MergeKeyword(order, union, Items(vector) + Items(seen), vector, seen, x);
    ItemsOfMore(seen, x);
    Regroup(Items(vector), Items(seen), [x.item]);
    assert keyword[..i + 1] == seen + [x];
  }

  lemma ExactAt(order: seq<ChunkId>, union: map<ChunkId, (real, real)>, vector: seq<Scored<ChunkId>>, keyword: seq<Scored<ChunkId>>,
                exact: seq<ChunkId>, i: nat)
    requires i < |exact| && Merged(order, union, Items(vector) + Items(keyword) + exact[..i], vector, keyword, exact[..i])
    ensures var x := exact[i];
      Merged(if x in union then order else order + [x],
             union[x := if x in union then (union[x].0, if union[x].1 < 1.0 then 1.0 else union[x].1) else (0.0, 1.0)],
             Items(vector) + Items(keyword) + exact[..i + 1], vector, keyword, exact[..i + 1])
  {
    var both, seen, x := Items(vector) + Items(keyword), exact[..i], exact[i];
    AbsentScoresNothing(vector);
    AbsentScoresNothing(keyword);
    assert x in Items(vector) || x in Items(keyword) ==> x in both + seen;
    MergeExact(order, union, both + seen, vector, keyword, seen, x);
    Regroup(both, seen, [x]);
    assert exact[..i + 1] == seen + [x];
  }

  lemma BoostedOfMore(keyword: seq<Scored<ChunkId>>, exact: seq<ChunkId>, x: ChunkId)
    ensures forall id :: Boosted(id, keyword, exact + [x]) == AtLeastOne(Boosted(id, keyword, exact), id == x)
  {
    forall id
      ensures Boosted(id, keyword, exact + [x]) == AtLeastOne(Boosted(id, keyword, exact), id == x)
    {
      assert id in exact + [x] <==> id in exact || id == x;
    }
  }

  lemma NothingYet(vector: seq<Scored<ChunkId>>, keyword: seq<Scored<ChunkId>>)
    ensures keyword[..0] == []
    ensures Items(vector) + Items(keyword[..0]) == Items(vector)
  {
  }

  lemma ItemsOfMore(s: seq<Scored<ChunkId>>, x: Scored<ChunkId>)
    ensures Items(s + [x]) == Items(s) + [x.item]
  {
  }

  lemma LastScoreOfMore(s: seq<Scored<ChunkId>>, x: Scored<ChunkId>)
    ensures forall id :: LastScore(s + [x], id) == if id == x.item then x.score else LastScore(s, id)
  {
    assert (s + [x])[..|s|] == s;
  }

  lemma {:induction false} AbsentScoresNothing(s: seq<Scored<ChunkId>>)
    ensures forall id :: id !in Items(s) ==> LastScore(s, id) == 0.0
    decreases |s|
  {
    if s != [] {
      var front := s[..|s| - 1];
      AbsentScoresNothing(front);
      assert Items(s) == Items(front) + [s[|s| - 1].item];
    }
  }
}
