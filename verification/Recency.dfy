/** Least-recently-used order: what it means that a list of keys is kept in order of last touch. */
module Recency {
  import opened Prelude

  function Remove<K(==)>(s: seq<K>, k: K): seq<K>
    decreases |s|
  {
    if s == [] then []
    else if s[|s| - 1] == k then Remove(s[..|s| - 1], k)
    else Remove(s[..|s| - 1], k) + [s[|s| - 1]]
  }

  /** The touched keys, each once, the most recently touched last. */
  function Order<K(==)>(touches: seq<K>): seq<K>
    decreases |touches|
  {
    if touches == [] then []
    else Remove(Order(touches[..|touches| - 1]), touches[|touches| - 1]) + [touches[|touches| - 1]]
  }

  /** `s` is the end of `t`: the most recent part of it. */
  ghost predicate IsSuffix<K>(s: seq<K>, t: seq<K>) { |s| <= |t| && t[|t| - |s|..] == s }

  lemma {:induction false} RemoveHas<K>(s: seq<K>, k: K, x: K)
    ensures x in Remove(s, k) <==> x in s && x != k
    decreases |s|
  {
    if s != [] {
      RemoveHas(s[..|s| - 1], k, x);
      assert s == s[..|s| - 1] + [s[|s| - 1]];
    }
  }

  lemma {:induction false} RemoveFromSum<K>(s: seq<K>, t: seq<K>, k: K)
    ensures Remove(s + t, k) == Remove(s, k) + Remove(t, k)
    decreases |t|
  {
    if t == [] {
      assert s + t == s;
    } else {
      RemoveFromSum(s, t[..|t| - 1], k);
      assert (s + t)[..|s + t| - 1] == s + t[..|t| - 1];
    }
  }

  lemma {:induction false} RemoveNothing<K>(s: seq<K>, k: K)
    requires k !in s
    ensures Remove(s, k) == s
    decreases |s|
  {
    if s != [] {
      assert s == s[..|s| - 1] + [s[|s| - 1]];
      RemoveNothing(s[..|s| - 1], k);
    }
  }

  lemma {:induction false} RemovesCommute<K>(s: seq<K>, j: K, k: K)
    ensures Remove(Remove(s, j), k) == Remove(Remove(s, k), j)
    decreases |s|
  {
    if s != [] {
      var front, last := s[..|s| - 1], s[|s| - 1];
      RemovesCommute(front, j, k);
      if last != j { RemoveFromSum(Remove(front, j), [last], k); }
      if last != k { RemoveFromSum(Remove(front, k), [last], j); }
    }
  }

  lemma {:induction false} RemoveKeepsNoDup<K>(s: seq<K>, k: K)
    requires NoDup(s)
    ensures NoDup(Remove(s, k)) && |Remove(s, k)| == |s| - if k in s then 1 else 0
    decreases |s|
  {
    if s != [] {
      var front, last := s[..|s| - 1], s[|s| - 1];
      assert s == front + [last] && last !in front;
      RemoveKeepsNoDup(front, k);
      RemoveHas(front, k, last);
      if last == k { RemoveNothing(front, k); }
    }
  }

  lemma {:induction false} OrderHas<K>(touches: seq<K>, x: K)
    ensures NoDup(Order(touches))
    ensures x in Order(touches) <==> x in touches
    decreases |touches|
  {
    if touches != [] {
      var front, last := touches[..|touches| - 1], touches[|touches| - 1];
      assert touches == front + [last];
      OrderHas(front, x);
      RemoveHas(Order(front), last, x);
      RemoveHas(Order(front), last, last);
      RemoveKeepsNoDup(Order(front), last);
    }
  }

  /** The position of the last touch of `k`. */
  function LastTouch<K(==)>(touches: seq<K>, k: K): (i: nat)
    requires k in touches
    ensures i < |touches| && touches[i] == k && k !in touches[i + 1..]
    decreases |touches|
  {
    var n := |touches| - 1;
    if touches[n] == k then n
    else
      assert touches == touches[..n] + [touches[n]];
      var i := LastTouch(touches[..n], k);
      assert touches[i + 1..] == touches[..n][i + 1..] + [touches[n]];
      i
  }

  /** `Order` really is the order of last touches. */
  lemma {:induction false} OrderIsByLastTouch<K>(touches: seq<K>, i: nat, j: nat)
    requires i < j < |Order(touches)|
    ensures Order(touches)[i] in touches && Order(touches)[j] in touches
    ensures LastTouch(touches, Order(touches)[i]) < LastTouch(touches, Order(touches)[j])
    decreases |touches|
  {
    var order, front, last := Order(touches), touches[..|touches| - 1], touches[|touches| - 1];
    assert touches == front + [last];
    var older := Remove(Order(front), last);
    OrderHas(touches, order[i]);
    OrderHas(touches, order[j]);
    assert order[i] == older[i];
    RemoveHas(Order(front), last, older[i]);
    OrderHas(front, older[i]);
    if j < |older| {
      assert order[j] == older[j];
      RemoveHas(Order(front), last, older[j]);
      OrderHas(front, older[j]);
      RemoveKeepsOrder(Order(front), last, i, j);
      var a, b :| 0 <= a < b < |Order(front)| && Order(front)[a] == older[i] && Order(front)[b] == older[j];
      OrderIsByLastTouch(front, a, b);
    }
  }

  lemma {:induction false} RemoveKeepsOrder<K>(s: seq<K>, k: K, i: nat, j: nat)
    requires i < j < |Remove(s, k)|
    ensures exists a, b :: 0 <= a < b < |s| && s[a] == Remove(s, k)[i] && s[b] == Remove(s, k)[j]
    decreases |s|
  {
    var n := |s| - 1;
    var front := Remove(s[..n], k);
    if j < |front| {
      RemoveKeepsOrder(s[..n], k, i, j);
      var a, b :| 0 <= a < b < n && s[..n][a] == front[i] && s[..n][b] == front[j];
      assert s[a] == Remove(s, k)[i] && s[b] == Remove(s, k)[j];
    } else {
      RemoveHas(s[..n], k, front[i]);
      var a :| 0 <= a < n && s[..n][a] == front[i];
      assert s[a] == Remove(s, k)[i] && s[n] == Remove(s, k)[j];
    }
  }

  // ---- What a bounded cache does to its keys ----

  /** Touching a key moves it to the recent end of both lists. */
  lemma TouchKeepsSuffix<K>(kept: seq<K>, touches: seq<K>, k: K)
    requires IsSuffix(kept, Order(touches))
    ensures IsSuffix(Remove(kept, k) + [k], Order(touches + [k]))
  {
    assert (touches + [k])[..|touches|] == touches;
    ForgetSuffix(kept, Order(touches), k);
    var less := Remove(Order(touches), k);
    assert less + [k] == less[..|less| - |Remove(kept, k)|] + (Remove(kept, k) + [k]);
  }

  lemma ForgetSuffix<K>(kept: seq<K>, all: seq<K>, k: K)
    requires IsSuffix(kept, all)
    ensures IsSuffix(Remove(kept, k), Remove(all, k))
  {
    var older := all[..|all| - |kept|];
    assert all == older + kept;
    RemoveFromSum(older, kept, k);
  }

  /** Forgetting a key forgets its touches. */
  lemma {:induction false} ForgetKeepsOrder<K>(touches: seq<K>, k: K)
    ensures Order(Remove(touches, k)) == Remove(Order(touches), k)
    decreases |touches|
  {
    if touches != [] {
      var front, last := touches[..|touches| - 1], touches[|touches| - 1];
      ForgetKeepsOrder(front, k);
      RemoveFromSum(Remove(Order(front), last), [last], k);
      RemovesCommute(Order(front), last, k);
      if last == k {
        RemoveHas(Order(front), k, k);
        RemoveNothing(Remove(Order(front), k), k);
      } else {
        var rest := Remove(front, k);
        assert Remove(touches, k) == rest + [last] && (rest + [last])[..|rest|] == rest;
      }
    }
  }

  /** Dropping the oldest entries keeps the most recent ones. */
  lemma DropKeepsSuffix<K>(kept: seq<K>, all: seq<K>, n: nat)
    requires IsSuffix(kept, all) && n <= |kept|
    ensures IsSuffix(kept[n..], all)
  {
  }
}
