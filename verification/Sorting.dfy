/** Python's `sorted(..., reverse=True)`: a stable sort, best score first. */
module Sorting {

  datatype Scored<+T> = Scored(item: T, score: real)

  function Items<T>(s: seq<Scored<T>>): seq<T> {
    seq(|s|, i requires 0 <= i < |s| => s[i].item)
  }

  function Insert<T>(s: seq<Scored<T>>, x: Scored<T>): (r: seq<Scored<T>>)
    ensures |r| == |s| + 1
    ensures forall i :: 0 <= i < |r| ==> r[i] == x || r[i] in s
    decreases |s|
  {
    if s == [] || s[|s| - 1].score >= x.score then s + [x]
    else Insert(s[..|s| - 1], x) + [s[|s| - 1]]
  }

  function StableDesc<T>(s: seq<Scored<T>>): (r: seq<Scored<T>>)
    ensures |r| == |s|
    ensures forall i :: 0 <= i < |r| ==> r[i] in s
    decreases |s|
  {
    if s == [] then [] else Insert(StableDesc(s[..|s| - 1]), s[|s| - 1])
  }

  ghost predicate Descending<T>(s: seq<Scored<T>>) {
    forall i, j :: 0 <= i < j < |s| ==> s[i].score >= s[j].score
  }

  lemma {:induction false} InsertPermutes<T>(s: seq<Scored<T>>, x: Scored<T>)
    ensures multiset(Insert(s, x)) == multiset(s) + multiset{x}
    decreases |s|
  {
    if s == [] || s[|s| - 1].score >= x.score {
    } else {
      InsertPermutes(s[..|s| - 1], x);
      assert s == s[..|s| - 1] + [s[|s| - 1]];
    }
  }

  lemma {:induction false} InsertSorted<T>(s: seq<Scored<T>>, x: Scored<T>)
    requires Descending(s)
    ensures Descending(Insert(s, x))
    decreases |s|
  {
    if s == [] || s[|s| - 1].score >= x.score {
    } else {
      var front, last := s[..|s| - 1], s[|s| - 1];
      InsertSorted(front, x);
      var r := Insert(front, x);
      forall i | 0 <= i < |r| ensures r[i].score >= last.score {
        assert r[i] == x || r[i] in front;
      }
    }
  }

  /** The sort permutes its input and puts it in descending order. */
  lemma {:induction false} SortSorts<T>(s: seq<Scored<T>>)
    ensures multiset(StableDesc(s)) == multiset(s)
    ensures Descending(StableDesc(s))
    decreases |s|
  {
    if s != [] {
      assert s == s[..|s| - 1] + [s[|s| - 1]];
      SortSorts(s[..|s| - 1]);
      InsertPermutes(StableDesc(s[..|s| - 1]), s[|s| - 1]);
      InsertSorted(StableDesc(s[..|s| - 1]), s[|s| - 1]);
    }
  }

  /** `a` goes before `b` when it scores more, or the same and came first. */
  predicate Before(a: Scored<nat>, b: Scored<nat>) {
    a.score > b.score || (a.score == b.score && a.item < b.item)
  }

  ghost predicate Ranked(s: seq<Scored<nat>>) {
    forall i, j :: 0 <= i < j < |s| ==> Before(s[i], s[j])
  }

  lemma {:induction false} InsertRanked(s: seq<Scored<nat>>, x: Scored<nat>)
    requires Ranked(s)
    requires forall i :: 0 <= i < |s| ==> s[i].item < x.item
    ensures Ranked(Insert(s, x))
    decreases |s|
  {
    if s == [] || s[|s| - 1].score >= x.score {
    } else {
      var front, last := s[..|s| - 1], s[|s| - 1];
      InsertRanked(front, x);
      var r := Insert(front, x);
      forall i | 0 <= i < |r| ensures Before(r[i], last) {
        assert r[i] == x || r[i] in front;
      }
    }
  }

  /** On items numbered in order of arrival, ties keep that order. */
  lemma {:induction false} SortRanks(s: seq<Scored<nat>>)
    requires forall i, j :: 0 <= i < j < |s| ==> s[i].item < s[j].item
    ensures Ranked(StableDesc(s))
    decreases |s|
  {
    if s != [] {
      var front, last := s[..|s| - 1], s[|s| - 1];
      SortRanks(front);
      var r := StableDesc(front);
      forall i | 0 <= i < |r| ensures r[i].item < last.item {
        assert r[i] in front;
      }
      InsertRanked(r, last);
    }
  }

  /** Replace item numbers by the values they number. */
  function Pick<T>(values: seq<T>, s: seq<Scored<nat>>): (r: seq<Scored<T>>)
    requires forall i :: 0 <= i < |s| ==> s[i].item < |values|
    ensures |r| == |s|
  {
    seq(|s|, i requires 0 <= i < |s| => Scored(values[s[i].item], s[i].score))
  }

  lemma {:induction false} PickInsert<T>(values: seq<T>, s: seq<Scored<nat>>, x: Scored<nat>)
    requires forall i :: 0 <= i < |s| ==> s[i].item < |values|
    requires x.item < |values|
    ensures forall i :: 0 <= i < |Insert(s, x)| ==> Insert(s, x)[i].item < |values|
    ensures Pick(values, Insert(s, x)) == Insert(Pick(values, s), Scored(values[x.item], x.score))
    decreases |s|
  {
    if s == [] || s[|s| - 1].score >= x.score {
    } else {
      PickInsert(values, s[..|s| - 1], x);
      assert Pick(values, s)[..|s| - 1] == Pick(values, s[..|s| - 1]);
    }
  }

  /** Sorting positions by score and then looking the values up is sorting the values. */
  lemma {:induction false} PickSort<T>(values: seq<T>, s: seq<Scored<nat>>)
    requires forall i :: 0 <= i < |s| ==> s[i].item < |values|
    ensures forall i :: 0 <= i < |s| ==> StableDesc(s)[i].item < |values|
    ensures Pick(values, StableDesc(s)) == StableDesc(Pick(values, s))
    decreases |s|
  {
    if s != [] {
      var front, last := s[..|s| - 1], s[|s| - 1];
      PickSort(values, front);
      PickInsert(values, StableDesc(front), last);
      assert Pick(values, s)[..|s| - 1] == Pick(values, front);
    }
  }
}
