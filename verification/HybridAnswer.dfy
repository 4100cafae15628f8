/** What a hybrid answer is worth, said of the lists that go into it and of nothing computed. */
module HybridAnswer {
  import opened Prelude
  import opened Chroma
  import opened Sorting
  import opened Hybrid

  // ---- Which entries take part ----

  /** The keyword search ranks an entry exactly if the request's filter names its revision. */
  lemma {:induction false} ViewIsPermitted(l: Bm25Lists, scores: seq<real>, revisions: set<nat>, n: nat, x: Scored<ChunkId>)
    requires Aligned(l) && n <= |l.ids| <= |scores|
    ensures x in View(l, scores, RevisionIn(revisions), n) <==>
      exists i :: 0 <= i < n && l.metadatas[i].revision in revisions && x == Scored(l.ids[i], scores[i])
  {
    if n > 0 { ViewIsPermitted(l, scores, revisions, n - 1, x); }
  }

  /** And looks for the terms in the documents of exactly those. */
  lemma {:induction false} TextsArePermitted(l: Bm25Lists, revisions: set<nat>, n: nat, x: Text)
    requires Aligned(l) && n <= |l.ids|
    ensures x in Texts(l, RevisionIn(revisions), n) <==>
      exists i :: 0 <= i < n && l.metadatas[i].revision in revisions && x == Text(l.ids[i], l.documents[i])
  {
    if n > 0 { TextsArePermitted(l, revisions, n - 1, x); }
  }

  ghost predicate Around(before: string, term: string, after: string, document: string) {
    document == before + term + after
  }

  /** A term is found wherever it stands in the document. */
  lemma OccursIffInside(term: string, document: string)
    ensures Occurs(term, document) <==> exists before, after :: Around(before, term, after, document)
  {
    if Occurs(term, document) {
      var i :| 0 <= i <= |document| && OccursAt(term, document, i);
      assert document == document[..i] + document[i..i + |term|] + document[i + |term|..];
      assert Around(document[..i], term, document[i + |term|..], document);
    }
    if before, after :| Around(before, term, after, document) {
      assert document[|before|..|before| + |term|] == term;
      assert OccursAt(term, document, |before|);
    }
  }

  // ---- What a candidate is worth ----

  /** The score that `s` gives `id` last, and none at all is worth zero. */
  ghost predicate ScoreIn(s: seq<Scored<ChunkId>>, id: ChunkId, v: real) {
    || (exists i :: 0 <= i < |s| && s[i] == Scored(id, v) && forall j :: i < j < |s| ==> s[j].item != id)
    || (v == 0.0 && forall i :: 0 <= i < |s| ==> s[i].item != id)
  }

  /** The greatest score, if some score is positive. */
  ghost predicate UnitOf(s: seq<Scored<ChunkId>>, unit: real) {
    || (unit == 1.0 && forall i :: 0 <= i < |s| ==> s[i].score <= 0.0)
    || (unit > 0.0 && (exists i :: 0 <= i < |s| && s[i].score == unit) && forall i :: 0 <= i < |s| ==> s[i].score <= unit)
  }

  /** The share `alpha` of the vector score and the rest of the keyword score in units of the
      best one, raised to a full one for an exact match. */
  function Blend(v: real, k: real, unit: real, exact: bool, alpha: real): real
    requires unit > 0.0
  {
    alpha * v + (1.0 - alpha) * (if exact && k < unit then 1.0 else k / unit)
  }

  ghost predicate Worth(id: ChunkId, vector: seq<Scored<ChunkId>>, keyword: seq<Scored<ChunkId>>, exact: seq<ChunkId>, alpha: real, worth: real) {
    exists v, k, unit :: ScoreIn(vector, id, v) && ScoreIn(keyword, id, k) && UnitOf(keyword, unit) && worth == Blend(v, k, unit, id in exact, alpha)
  }

  ghost predicate Candidate(id: ChunkId, vector: seq<Scored<ChunkId>>, keyword: seq<Scored<ChunkId>>, exact: seq<ChunkId>) {
    || (exists i :: 0 <= i < |vector| && vector[i].item == id)
    || (exists i :: 0 <= i < |keyword| && keyword[i].item == id)
    || id in exact
  }

  lemma {:induction false} LastScoreIs(s: seq<Scored<ChunkId>>, id: ChunkId, v: real)
    ensures ScoreIn(s, id, v) <==> v == LastScore(s, id)
    decreases |s|
  {
    if s != [] {
      var front, last := s[..|s| - 1], s[|s| - 1];
      LastScoreIs(front, id, v);
      if last.item == id {
        if ScoreIn(s, id, v) {
          var i :| 0 <= i < |s| && s[i] == Scored(id, v) && forall j :: i < j < |s| ==> s[j].item != id;
          assert i == |s| - 1;
        }
        assert v == last.score ==> s[|s| - 1] == Scored(id, v);
      } else {
        ScoreInFront(front, last, id, v);
        assert s == front + [last];
      }
    }
  }

  lemma ScoreInFront(front: seq<Scored<ChunkId>>, last: Scored<ChunkId>, id: ChunkId, v: real)
    requires last.item != id
    ensures ScoreIn(front + [last], id, v) <==> ScoreIn(front, id, v)
  {
    var s := front + [last];
    if i :| 0 <= i < |front| && front[i] == Scored(id, v) && forall j :: i < j < |front| ==> front[j].item != id {
      assert s[i] == Scored(id, v);
    }
    if i :| 0 <= i < |s| && s[i] == Scored(id, v) && forall j :: i < j < |s| ==> s[j].item != id {
      assert i < |front| && front[i] == Scored(id, v);
      assert forall j :: i < j < |front| ==> front[j] == s[j];
    }
    if forall i :: 0 <= i < |s| ==> s[i].item != id {
      assert forall i :: 0 <= i < |front| ==> front[i] == s[i];
    }
  }

  lemma {:induction false} MaxScoreIsGreatest(s: seq<Scored<ChunkId>>)
    requires s != []
    ensures exists i :: 0 <= i < |s| && s[i].score == MaxScore(s)
    ensures forall i :: 0 <= i < |s| ==> s[i].score <= MaxScore(s)
    decreases |s|
  {
    if |s| == 1 {
      assert s[0].score == MaxScore(s);
    } else {
      var front, last := s[..|s| - 1], s[|s| - 1];
      MaxScoreIsGreatest(front);
      var i :| 0 <= i < |front| && front[i].score == MaxScore(front);
      assert s[i] == front[i];
      assert last.score > MaxScore(front) ==> s[|s| - 1].score == MaxScore(s);
      assert last.score <= MaxScore(front) ==> s[i].score == MaxScore(s);
      assert forall j :: 0 <= j < |front| ==> front[j] == s[j];
    }
  }

  function Unit(s: seq<Scored<ChunkId>>): real {
    if s != [] && MaxScore(s) > 0.0 then MaxScore(s) else 1.0
  }

  lemma UnitIs(s: seq<Scored<ChunkId>>, unit: real)
    ensures UnitOf(s, unit) <==> unit == Unit(s)
  {
    if s != [] { MaxScoreIsGreatest(s); }
  }

  lemma {:induction false} NormalisedScore(s: seq<Scored<ChunkId>>, n: nat, id: ChunkId)
    requires n <= |s|
    ensures Unit(s) > 0.0 && LastScore(Normalised(s)[..n], id) == LastScore(s[..n], id) / Unit(s)
  {
    if n > 0 {
      NormalisedScore(s, n - 1, id);
      assert Normalised(s)[..n][..n - 1] == Normalised(s)[..n - 1] && s[..n][..n - 1] == s[..n - 1];
    }
  }

  lemma FusedIsBlend(id: ChunkId, vector: seq<Scored<ChunkId>>, keyword: seq<Scored<ChunkId>>, exact: seq<ChunkId>, alpha: real)
    ensures Unit(keyword) > 0.0
    ensures Fused(id, vector, Normalised(keyword), exact, alpha) ==
      Blend(LastScore(vector, id), LastScore(keyword, id), Unit(keyword), id in exact, alpha)
  {
    NormalisedScore(keyword, |keyword|, id);
    assert Normalised(keyword)[..|keyword|] == Normalised(keyword) && keyword[..|keyword|] == keyword;
    WeightedIsBlend(LastScore(vector, id), LastScore(keyword, id), Unit(keyword), LastScore(Normalised(keyword), id), id in exact, alpha);
  }

  lemma WeightedIsBlend(v: real, k: real, unit: real, share: real, exact: bool, alpha: real)
    requires unit > 0.0 && share == k / unit
    ensures Weighted((v, AtLeastOne(share, exact)), alpha) == Blend(v, k, unit, exact, alpha)
  {
    RatioBelowOne(k, unit);
    var w := AtLeastOne(share, exact);
    assert w == if exact && k < unit then 1.0 else k / unit;
    assert Weighted((v, w), alpha) == alpha * v + (1.0 - alpha) * w;
  }

  lemma WorthIs(id: ChunkId, vector: seq<Scored<ChunkId>>, keyword: seq<Scored<ChunkId>>, exact: seq<ChunkId>, alpha: real, worth: real)
    ensures Worth(id, vector, keyword, exact, alpha, worth) <==> worth == Fused(id, vector, Normalised(keyword), exact, alpha)
  {
    FusedIsBlend(id, vector, keyword, exact, alpha);
    forall v { LastScoreIs(vector, id, v); }
    forall k { LastScoreIs(keyword, id, k); }
    forall unit { UnitIs(keyword, unit); }
  }

  lemma RatioBelowOne(k: real, unit: real)
    requires unit > 0.0
    ensures k / unit < 1.0 <==> k < unit
  {
    assert k == (k / unit) * unit;
  }

  // ---- The answer ----

  /** Best first; all of them while there is room, and nothing left out is worth more than
      anything kept. */
  ghost predicate BestOf(r: seq<ChunkId>, vector: seq<Scored<ChunkId>>, keyword: seq<Scored<ChunkId>>, exact: seq<ChunkId>, alpha: real, topK: nat) {
    && NoDup(r) && |r| <= topK
    && (forall id :: id in r ==> Candidate(id, vector, keyword, exact))
    && (forall i, j, a, b ::
          0 <= i < j < |r| && Worth(r[i], vector, keyword, exact, alpha, a) && Worth(r[j], vector, keyword, exact, alpha, b) ==>
          a >= b)
    && (forall id, left, a, b ::
          id in r && left !in r && Candidate(left, vector, keyword, exact) &&
          Worth(id, vector, keyword, exact, alpha, a) && Worth(left, vector, keyword, exact, alpha, b) ==>
          a >= b)
    && (forall left :: Candidate(left, vector, keyword, exact) && left !in r ==> |r| == topK)
  }

  lemma CandidatesAre(id: ChunkId, vector: seq<Scored<ChunkId>>, keyword: seq<Scored<ChunkId>>, exact: seq<ChunkId>)
    ensures Candidate(id, vector, keyword, exact) <==> id in Union(vector, Normalised(keyword), exact)
  {
    var all := Items(vector) + Items(Normalised(keyword)) + exact;
    DistinctKeepsAll(all);
    assert Items(Normalised(keyword)) == Items(keyword);
    assert id in Items(vector) <==> exists i :: 0 <= i < |vector| && vector[i].item == id by {
      if i :| 0 <= i < |vector| && vector[i].item == id { assert Items(vector)[i] == id; }
    }
    assert id in Items(keyword) <==> exists i :: 0 <= i < |keyword| && keyword[i].item == id by {
      if i :| 0 <= i < |keyword| && keyword[i].item == id { assert Items(keyword)[i] == id; }
    }
    assert id in all <==> id in Items(vector) || id in Items(keyword) || id in exact;
  }

  /** The candidates, each with its worth, in order of arrival. */
  function Rated(vector: seq<Scored<ChunkId>>, keyword: seq<Scored<ChunkId>>, exact: seq<ChunkId>, alpha: real): seq<Scored<ChunkId>> {
    WithScores(Union(vector, Normalised(keyword), exact), vector, Normalised(keyword), exact, alpha)
  }

  lemma RatedCandidates(vector: seq<Scored<ChunkId>>, keyword: seq<Scored<ChunkId>>, exact: seq<ChunkId>, alpha: real)
    returns (rated: seq<Scored<ChunkId>>)
    ensures rated == Rated(vector, keyword, exact, alpha) && NoDup(Items(rated))
    ensures forall x :: x in rated ==> x.score == Fused(x.item, vector, Normalised(keyword), exact, alpha)
    ensures forall id :: id in Items(rated) <==> Candidate(id, vector, keyword, exact)
  {
    rated := Rated(vector, keyword, exact, alpha);
    assert Items(rated) == Union(vector, Normalised(keyword), exact);
    DistinctKeepsAll(Items(vector) + Items(Normalised(keyword)) + exact);
    forall id ensures id in Items(rated) <==> Candidate(id, vector, keyword, exact) {
      CandidatesAre(id, vector, keyword, exact);
    }
  }

  /** The sorted candidates: every one is there, with its worth, best first. */
  lemma SortedCandidates(vector: seq<Scored<ChunkId>>, keyword: seq<Scored<ChunkId>>, exact: seq<ChunkId>, alpha: real)
    returns (sorted: seq<Scored<ChunkId>>)
    ensures sorted == StableDesc(Rated(vector, keyword, exact, alpha))
    ensures Descending(sorted) && NoDup(Items(sorted))
    ensures forall i :: 0 <= i < |sorted| ==> sorted[i].score == Fused(sorted[i].item, vector, Normalised(keyword), exact, alpha)
    ensures forall id :: id in Items(sorted) <==> Candidate(id, vector, keyword, exact)
  {
    var rated := RatedCandidates(vector, keyword, exact, alpha);
    sorted := StableDesc(rated);
    SortSorts(rated);
    PermutationKeepsNoDup(rated, sorted);
    forall id ensures id in Items(rated) ==> id in Items(sorted) { StaysIn(rated, sorted, id); }
  }

  lemma StaysIn(s: seq<Scored<ChunkId>>, t: seq<Scored<ChunkId>>, id: ChunkId)
    requires multiset(s) == multiset(t)
    ensures id in Items(s) ==> id in Items(t)
  {
    if id in Items(s) {
      var i :| 0 <= i < |s| && Items(s)[i] == id;
      assert s[i] in multiset(t);
      var j :| 0 <= j < |t| && t[j] == s[i];
      assert Items(t)[j] == id;
    }
  }

  /** The answer of a query is the best of its candidates. */
  lemma AnswerIsBest(vector: seq<Scored<ChunkId>>, view: seq<Scored<ChunkId>>, exact: seq<ChunkId>, alpha: real, topK: nat)
    ensures BestOf(Answer(vector, view, exact, alpha, topK), vector, Shortlist(view), exact, alpha, topK)
  {
    var keyword := Shortlist(view);
    var sorted := SortedCandidates(vector, keyword, exact, alpha);
    var r := Take(Items(sorted), topK);
    assert forall i :: 0 <= i < |r| ==> r[i] == sorted[i].item;
    forall id, a | Worth(id, vector, keyword, exact, alpha, a) { WorthIs(id, vector, keyword, exact, alpha, a); }
    forall id, left, a, b | id in r && left !in r && Candidate(left, vector, keyword, exact) &&
      Worth(id, vector, keyword, exact, alpha, a) && Worth(left, vector, keyword, exact, alpha, b)
      ensures a >= b
    {
      var i :| 0 <= i < |r| && r[i] == id;
      var j :| 0 <= j < |sorted| && Items(sorted)[j] == left;
      assert j >= |r|;
      assert sorted[i].score >= sorted[j].score;
    }
    forall left | Candidate(left, vector, keyword, exact) && left !in r ensures |r| == topK {
      assert left in Items(sorted);
    }
  }
}
