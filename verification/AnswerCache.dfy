/** The two-tier answer cache: a bounded in-process tier over a SQLite table, with every read and
    write bracketed by checks of the knowledge-base generation. */
module AnswerCache {
  import opened Prelude
  import opened CacheKey
  import Recency

  const MAX_CACHE_SIZE: nat := 100

  datatype Answer = Answer(content: string, sources: seq<string>)

  // ---- The generation, which other requests may advance at any time ----

  class Generations {
    var current: nat
    ghost var history: seq<nat>     // the generation at every instant so far

    ghost predicate Valid()
      reads this
    {
      && history != [] && history[|history| - 1] == current
      && forall i, j :: 0 <= i <= j < |history| ==> history[i] <= history[j]
    }

    constructor (start: nat)
      ensures Valid() && current == start
    {
      current, history := start, [start];
    }

    /** Time passes and uploads or deletions may commit. */
    method Elapse()
      requires Valid()
      modifies this
      ensures Valid() && old(history) <= history
    {
      var steps: int := *;
      for i := 0 to if steps < 0 then 0 else steps
        invariant Valid() && old(history) <= history
      {
        var committed: bool := *;
        current := if committed then current + 1 else current;
        history := history + [current];
      }
    }

    /** Reads the generation at some later instant `at`. */
    method Read() returns (g: nat, ghost at: nat)
      requires Valid()
      modifies this
      ensures Valid() && old(history) < history
      ensures at == |history| - 1 && g == history[at]
    {
      Elapse();
      history := history + [current];
      g, at := current, |history| - 1;
    }
  }

  /** The generation was `g` at every instant from `first` to `last`. */
  ghost predicate Steady(history: seq<nat>, g: nat, first: nat, last: nat) {
    first <= last < |history| && forall i :: first <= i <= last ==> history[i] == g
  }

  // ---- The persistent tier ----

  datatype Row = Row(payload: Answer, expires: real, accessed: real, created: real)

  /** Eviction order of the table: least recently accessed first, then oldest. */
  predicate NoLater(a: Row, b: Row) { a.accessed < b.accessed || (a.accessed == b.accessed && a.created <= b.created) }

  function Unexpired(rows: map<Key, Row>, now: real): map<Key, Row> { map k | k in rows && now < rows[k].expires :: rows[k] }

  /** Inserting keeps the creation time of a row that is already there. */
  function Upserted(rows: map<Key, Row>, key: Key, value: Answer, now: real, ttl: real): map<Key, Row> {
    rows[key := Row(value, now + ttl, now, if key in rows then rows[key].created else now)]
  }

  /** Some rows went, as many as were too many, and none of them was accessed after one that stayed. */
  ghost predicate Evicted(full: map<Key, Row>, kept: map<Key, Row>, maxEntries: nat) {
    && (forall k :: k in kept ==> k in full && kept[k] == full[k])
    && |kept| == (if |full| > maxEntries then maxEntries else |full|)
    && (forall j, k :: j in full && j !in kept && k in kept ==> NoLater(full[j], full[k]))
  }

  ghost predicate Written(before: map<Key, Row>, after: map<Key, Row>, key: Key, value: Answer,
                          now: real, ttl: real, maxEntries: nat) {
    Evicted(Upserted(Unexpired(before, now), key, value, now, ttl), after, maxEntries)
  }

  /** After a write nothing in the table is expired and the table is within its bound. */
  lemma WriteBounds(before: map<Key, Row>, after: map<Key, Row>, key: Key, value: Answer, now: real, ttl: real, maxEntries: nat)
    requires Written(before, after, key, value, now, ttl, maxEntries) && ttl > 0.0
    ensures |after| <= maxEntries && forall k :: k in after ==> now < after[k].expires
  {
    assert forall k :: k in after ==> k in Upserted(Unexpired(before, now), key, value, now, ttl);
  }

  /** Nothing else is lost: a row that has not expired stays as it was, unless the table is full of
      rows accessed later, or at the same time and not older; and a row that is written again keeps its creation time. */
  lemma WriteKeeps(before: map<Key, Row>, after: map<Key, Row>, key: Key, value: Answer, now: real, ttl: real, maxEntries: nat, k: Key)
    requires Written(before, after, key, value, now, ttl, maxEntries) && k in before && now < before[k].expires
    ensures k != key && k in after ==> after[k] == before[k]
    ensures k == key && k in after ==> after[k].created == before[k].created
    ensures k !in after ==> |after| == maxEntries && forall other :: other in after ==>
      var accessed := if k == key then now else before[k].accessed;
      after[other].accessed > accessed || (after[other].accessed == accessed && after[other].created >= before[k].created)
  {
    var full := Upserted(Unexpired(before, now), key, value, now, ttl);
    assert k in full;
    if k !in after {
      if |full| <= maxEntries {
        SameSizeSameRows(full, after);
      }
    }
  }

  lemma SameSizeSameRows(full: map<Key, Row>, kept: map<Key, Row>)
    requires (forall k :: k in kept ==> k in full && kept[k] == full[k]) && |kept| == |full|
    ensures kept == full
  {
    SubsetOfSameSize(kept.Keys, full.Keys);
  }

  lemma {:induction false} SubsetOfSameSize(a: set<Key>, b: set<Key>)
    requires a <= b && |a| == |b|
    ensures a == b
  {
    if x :| x in b && x !in a {
      assert a <= b - {x};
      SubsetIsSmaller(a, b - {x});
    }
  }

  lemma {:induction false} SubsetIsSmaller(a: set<Key>, b: set<Key>)
    requires a <= b
    ensures |a| <= |b|
    decreases |a|
  {
    if x :| x in a { SubsetIsSmaller(a - {x}, b - {x}); }
  }

  /** When the clock has moved since every other access, the row just written survives. */
  lemma NewKeySurvives(before: map<Key, Row>, after: map<Key, Row>, key: Key, value: Answer, now: real, ttl: real, maxEntries: nat)
    requires Written(before, after, key, value, now, ttl, maxEntries) && maxEntries >= 1
    requires forall k :: k in before && k != key ==> before[k].accessed < now
    ensures key in after && after[key].payload == value && after[key].accessed == now
  {
    var full := Upserted(Unexpired(before, now), key, value, now, ttl);
    assert key in full;
  }

  lemma {:induction false} OldestExists(rows: map<Key, Row>) returns (oldest: Key)
    requires |rows| > 0
    ensures oldest in rows && forall k :: k in rows ==> NoLater(rows[oldest], rows[k])
    decreases |rows|
  {
    var k :| k in rows;
    var rest := rows - {k};
    assert rows.Keys == rest.Keys + {k};
    if |rest| == 0 {
      assert forall j :: j in rows ==> j == k;
      oldest := k;
    } else {
      var o := OldestExists(rest);
      oldest := if NoLater(rows[k], rows[o]) then k else o;
      assert forall j :: j in rows ==> j == k || j in rest;
    }
  }

  class PersistentCache {
    const maxEntries: nat
    const ttl: real
    const reliable: bool            // no database call raises
    var rows: map<Key, Row>

    ghost predicate Valid()
      reads this
    {
      maxEntries >= 1 && ttl >= 1.0
    }

    constructor (maxEntries: int, ttl: real, reliable: bool, stored: map<Key, Row>)
      ensures Valid() && rows == stored && this.reliable == reliable
    {
      this.maxEntries := if maxEntries < 1 then 1 else maxEntries;
      this.ttl := if ttl < 1.0 then 1.0 else ttl;
      this.reliable := reliable;
      rows := stored;
    }

    method Get(key: Key, now: real) returns (value: Option<Answer>)
      modifies `rows
      ensures value.Some? ==> key in old(rows) && now < old(rows)[key].expires && value.value == old(rows)[key].payload
      ensures value.Some? ==> rows == old(rows)[key := old(rows)[key].(accessed := now)]
      ensures value.None? ==> rows == old(rows) || (key in old(rows) && old(rows)[key].expires <= now && rows == old(rows) - {key})
      ensures reliable ==> (value.Some? <==> key in old(rows) && now < old(rows)[key].expires) && (value.None? ==> rows == old(rows) - {key})
    {
      var failed: bool := *;
      if (failed && !reliable) || key !in rows { return None; }
      var row := rows[key];
      if row.expires <= now {
        rows := rows - {key};
        return None;
      }
      rows := rows[key := row.(accessed := now)];
      return Some(row.payload);
    }

    /** One transaction; it may fail outright, or report failure although it went through. */
    method Set(key: Key, value: Answer, now: real) returns (raised: bool)
      requires Valid()
      modifies `rows
      ensures reliable ==> !raised
      ensures !raised ==> Written(old(rows), rows, key, value, now, ttl, maxEntries)
      ensures raised ==> rows == old(rows) || Written(old(rows), rows, key, value, now, ttl, maxEntries)
    {
      var failed: bool := *;
      raised := failed && !reliable;
      var applied: bool := *;
      if !raised || applied {
        var full := Upserted(Unexpired(rows, now), key, value, now, ttl);
        rows := Evict(full);
      }
    }

    method Evict(full: map<Key, Row>) returns (kept: map<Key, Row>)
      ensures Evicted(full, kept, maxEntries)
    {
      kept := full;
      while |kept| > maxEntries
        invariant forall k :: k in kept ==> k in full && kept[k] == full[k]
        invariant |kept| >= if |full| > maxEntries then maxEntries else |full|
        invariant |full| <= maxEntries ==> kept == full
        invariant forall j, k :: j in full && j !in kept && k in kept ==> NoLater(full[j], full[k])
        decreases |kept|
      {
        ghost var first := OldestExists(kept);
        var oldest :| oldest in kept && forall k :: k in kept ==> NoLater(kept[oldest], kept[k]);
        assert kept.Keys == (kept - {oldest}).Keys + {oldest};
        kept := kept - {oldest};
      }
    }

    method Delete(key: Key) returns (raised: bool)
      modifies `rows
      ensures reliable ==> !raised
      ensures !raised ==> rows == old(rows) - {key}
      ensures raised ==> rows == old(rows)
    {
      var failed: bool := *;
      raised := failed && !reliable;
      if !raised { rows := rows - {key}; }
    }
  }

  // ---- The in-process tier ----

  /** What happens to its keys: a read hit or a write touches one; a refill from the table leaves
      one that is already there at its place; a stale one is forgotten. */
  datatype Use = Touch(key: Key) | Refill(key: Key) | Forget(key: Key)

  /** The most recent `MAX_CACHE_SIZE` of the keys. */
  function MostRecent(order: seq<Key>): seq<Key> {
    if |order| > MAX_CACHE_SIZE then order[|order| - MAX_CACHE_SIZE..] else order
  }

  function Touched(order: seq<Key>, key: Key): seq<Key> { Recency.Remove(order, key) + [key] }

  function Assigned(order: seq<Key>, key: Key): seq<Key> { if key in order then order else order + [key] }

  function Step(order: seq<Key>, u: Use): seq<Key> {
    match u
    case Touch(k) => MostRecent(Touched(order, k))
    case Refill(k) => MostRecent(Assigned(order, k))
    case Forget(k) => Recency.Remove(order, k)
  }

  /** The keys an initially empty tier holds after `uses`. */
  function Kept(uses: seq<Use>): seq<Key>
    decreases |uses|
  {
    if uses == [] then [] else Step(Kept(uses[..|uses| - 1]), uses[|uses| - 1])
  }

  /** The touches that still count: a refill is one if the key was not there, and forgetting a key
      takes back all of its touches. */
  function Counted(kept: seq<Key>, touches: seq<Key>, u: Use): seq<Key> {
    match u
    case Touch(k) => touches + [k]
    case Refill(k) => if k in kept then touches else touches + [k]
    case Forget(k) => Recency.Remove(touches, k)
  }

  function Touches(uses: seq<Use>): seq<Key>
    decreases |uses|
  {
    if uses == [] then []
    else Counted(Kept(uses[..|uses| - 1]), Touches(uses[..|uses| - 1]), uses[|uses| - 1])
  }

  /** Whatever the tier was used for, it holds the most recently touched keys, in that order. */
  lemma {:induction false} KeptAreTheMostRecent(uses: seq<Use>)
    ensures Recency.IsSuffix(Kept(uses), Recency.Order(Touches(uses)))
    decreases |uses|
  {
    if uses != [] {
      KeptAreTheMostRecent(uses[..|uses| - 1]);
      KeptIsBounded(uses[..|uses| - 1]);
      StepKeepsRecency(Kept(uses[..|uses| - 1]), Touches(uses[..|uses| - 1]), uses[|uses| - 1]);
    }
  }

  lemma StepKeepsRecency(kept: seq<Key>, touches: seq<Key>, u: Use)
    requires Recency.IsSuffix(kept, Recency.Order(touches)) && |kept| <= MAX_CACHE_SIZE
    ensures Recency.IsSuffix(Step(kept, u), Recency.Order(Counted(kept, touches, u)))
  {
    match u
    case Touch(k) => TouchKeepsRecency(kept, touches, k);
    case Refill(k) =>
      if k !in kept {
        Recency.RemoveNothing(kept, k);
        TouchKeepsRecency(kept, touches, k);
      }
    case Forget(k) =>
      Recency.ForgetSuffix(kept, Recency.Order(touches), k);
      Recency.ForgetKeepsOrder(touches, k);
  }

  lemma TouchKeepsRecency(kept: seq<Key>, touches: seq<Key>, k: Key)
    requires Recency.IsSuffix(kept, Recency.Order(touches))
    ensures Recency.IsSuffix(MostRecent(Touched(kept, k)), Recency.Order(touches + [k]))
  {
    Recency.TouchKeepsSuffix(kept, touches, k);
    DropToSuffix(Touched(kept, k), Recency.Order(touches + [k]));
  }

  /** A key leaves only when it is forgotten or there are too many: while nothing is forgotten the
      tier holds all of the most recently touched keys that fit. */
  lemma {:induction false} NothingElseIsDropped(uses: seq<Use>)
    requires forall i :: 0 <= i < |uses| ==> !uses[i].Forget?
    ensures Kept(uses) == MostRecent(Recency.Order(Touches(uses)))
    decreases |uses|
  {
    if uses != [] {
      var front, u := uses[..|uses| - 1], uses[|uses| - 1];
      NothingElseIsDropped(front);
      KeptAreTheMostRecent(uses);
      KeptIsBounded(front);
      KeptIsFull(Kept(front), Touches(front), u);
      SuffixOfSize(Kept(uses), Recency.Order(Touches(uses)));
    }
  }

  function Least(a: nat, b: nat): nat { if a < b then a else b }

  lemma KeptIsFull(kept: seq<Key>, touches: seq<Key>, u: Use)
    requires kept == MostRecent(Recency.Order(touches)) && !u.Forget?
    ensures |Step(kept, u)| == Least(|Recency.Order(Counted(kept, touches, u))|, MAX_CACHE_SIZE)
  {
    Recency.OrderHas(touches, u.key);
    if u.Touch? {
      TouchIsFull(kept, touches, u.key);
    } else if u.key !in kept {
      NoDupSuffix(Recency.Order(touches), kept);
      Recency.RemoveNothing(kept, u.key);
      TouchIsFull(kept, touches, u.key);
    }
  }

  lemma NoDupSuffix(all: seq<Key>, kept: seq<Key>)
    requires NoDup(all) && kept == MostRecent(all)
    ensures NoDup(kept) && forall k :: k in kept ==> k in all
  {
  }

  lemma TouchIsFull(kept: seq<Key>, touches: seq<Key>, k: Key)
    requires kept == MostRecent(Recency.Order(touches))
    ensures |MostRecent(Touched(kept, k))| == Least(|Recency.Order(touches + [k])|, MAX_CACHE_SIZE)
  {
    var all := Recency.Order(touches);
    assert (touches + [k])[..|touches|] == touches;
    Recency.OrderHas(touches, k);
    NoDupSuffix(all, kept);
    Recency.RemoveKeepsNoDup(kept, k);
    Recency.RemoveKeepsNoDup(all, k);
  }

  lemma SuffixOfSize(kept: seq<Key>, all: seq<Key>)
    requires Recency.IsSuffix(kept, all) && |kept| == Least(|all|, MAX_CACHE_SIZE)
    ensures kept == MostRecent(all)
  {
  }

  /** It never holds more than its bound, nor a key twice. */
  lemma {:induction false} KeptIsBounded(uses: seq<Use>)
    ensures NoDup(Kept(uses)) && |Kept(uses)| <= MAX_CACHE_SIZE
    decreases |uses|
  {
    if uses != [] {
      var kept, k := Kept(uses[..|uses| - 1]), uses[|uses| - 1].key;
      KeptIsBounded(uses[..|uses| - 1]);
      Recency.RemoveKeepsNoDup(kept, k);
      Recency.RemoveHas(kept, k, k);
    }
  }

  lemma DropToSuffix(order: seq<Key>, all: seq<Key>)
    requires Recency.IsSuffix(order, all)
    ensures Recency.IsSuffix(MostRecent(order), all)
  {
    if |order| > MAX_CACHE_SIZE {
      Recency.DropKeepsSuffix(order, all, |order| - MAX_CACHE_SIZE);
    }
  }

  lemma KeptOfMore(uses: seq<Use>, u: Use)
    ensures Kept(uses + [u]) == Step(Kept(uses), u)
    ensures NoDup(Kept(uses)) && NoDup(Kept(uses + [u])) && |Kept(uses)| <= MAX_CACHE_SIZE && |Kept(uses + [u])| <= MAX_CACHE_SIZE
    ensures forall k :: k in Recency.Remove(Kept(uses), u.key) <==> k in Kept(uses) && k != u.key
    ensures NoDup(Touched(Kept(uses), u.key))
  {
    assert (uses + [u])[..|uses|] == uses;
    KeptIsBounded(uses);
    KeptIsBounded(uses + [u]);
    forall k { Recency.RemoveHas(Kept(uses), u.key, k); }
    Recency.RemoveKeepsNoDup(Kept(uses), u.key);
  }

  /** After an assignment and the trimming the key is there. */
  lemma AssignedStays(order: seq<Key>, key: Key, full: seq<Key>, kept: seq<Key>)
    requires NoDup(order) && |order| <= MAX_CACHE_SIZE && full == Assigned(order, key) && kept == MostRecent(full)
    ensures NoDup(full) && key in kept && forall k :: k in full <==> k in order || k == key
    ensures key !in order ==> full == Touched(order, key)
  {
    if key !in order {
      Recency.RemoveNothing(order, key);
      assert kept[|kept| - 1] == key;
    }
  }

  lemma FirstIsNotAmongTheRest(order: seq<Key>)
    requires NoDup(order) && order != []
    ensures NoDup(order[1..]) && forall k :: k in order[1..] <==> k in order && k != order[0]
  {
    assert order == [order[0]] + order[1..];
  }

  ghost predicate InMemory(order: seq<Key>, values: map<Key, Answer>, uses: seq<Use>, writes: set<(Key, Answer)>) {
    && order == Kept(uses)
    && (forall k :: k in order <==> k in values)
    && (forall k :: k in values ==> (k, values[k]) in writes)
  }

  // ---- The service ----

  /** How a call of `Set` ends. */
  datatype Outcome = SwitchedOff | Stale | TableFailed | TakenBack(deleted: bool) | Stored

  /** Every write has a cause. */
  ghost predicate AllExplained<Cause(!new)>(causes: set<Cause>, explains: (Cause, (Key, Answer)) -> bool, writes: set<(Key, Answer)>) {
    forall w :: w in writes ==> exists c :: c in causes && explains(c, w)
  }

  lemma ExplainOneMore<Cause(!new)>(causes: set<Cause>, explains: (Cause, (Key, Answer)) -> bool, writes: set<(Key, Answer)>,
                                    cause: Cause, w: (Key, Answer))
    requires AllExplained(causes, explains, writes) && explains(cause, w)
    ensures AllExplained(causes + {cause}, explains, writes + {w})
  {
    forall v | v in writes + {w} ensures exists c :: c in causes + {cause} && explains(c, v) {
      if v in writes {
        var c :| c in causes && explains(c, v);
        assert c in causes + {cause};
      } else {
        assert cause in causes + {cause};
      }
    }
  }

  class CacheService<Cause(0, !new)> {
    const enabled: bool
    const shared: bool                        // other requests use it at the same time
    const table: PersistentCache
    const generations: Generations
    const explains: (Cause, (Key, Answer)) -> bool   // what all of them keep to when they write
    var order: seq<Key>                       // the ordered dictionary, oldest key first
    var values: map<Key, Answer>
    ghost var uses: seq<Use>                  // everything that happened to the keys
    ghost var writes: set<(Key, Answer)>      // everything ever handed to `Set`
    ghost var causes: set<Cause>

    ghost predicate Valid()
      reads this, table, generations
    {
      && table.Valid() && generations.Valid()
      && InMemory(order, values, uses, writes)
      && (forall k :: k in table.rows ==> (k, table.rows[k].payload) in writes)
      && AllExplained(causes, explains, writes)
    }

    /** Nobody else uses it, and the table answers. */
    predicate Working() { !shared && table.reliable }

    ghost predicate Holds(key: Key, value: Answer)
      reads `values
    {
      key in values && values[key] == value
    }

    constructor (enabled: bool, shared: bool, table: PersistentCache, generations: Generations,
                 explains: (Cause, (Key, Answer)) -> bool, ghost earlier: set<(Key, Answer)>, ghost causes: set<Cause>)
      requires table.Valid() && generations.Valid() && AllExplained(causes, explains, earlier)
      requires forall k :: k in table.rows ==> (k, table.rows[k].payload) in earlier
      ensures Valid() && order == [] && writes == earlier && this.causes == causes
      ensures this.enabled == enabled && this.shared == shared && this.table == table && this.generations == generations
      ensures this.explains == explains
    {
      this.enabled, this.shared, this.table, this.generations := enabled, shared, table, generations;
      this.explains := explains;
      order, values, uses, writes, this.causes := [], map[], [], earlier, causes;
    }

    // ---- Under the lock of the in-process tier ----

    /** Puts a value at the recent end, dropping the least recent entries if there are too many. */
    method Put(key: Key, value: Answer)
      requires InMemory(order, values, uses, writes) && (key, value) in writes
      modifies `order, `values, `uses
      ensures InMemory(order, values, uses, writes) && uses == old(uses) + [Touch(key)]
      ensures order == MostRecent(Touched(old(order), key)) && key in order
      ensures forall k :: k in order ==> (k == key || k in old(values)) && values[k] == if k == key then value else old(values)[k]
    {
      KeptOfMore(uses, Touch(key));
      ghost var full := Touched(order, key);
      assert full[|full| - 1] == key && forall k :: k in full <==> k in Recency.Remove(order, key) || k == key;
      order, values := Touched(order, key), values[key := value];
      TrimSessionCache();
      assert order[|order| - 1] == key;
      uses := uses + [Touch(key)];
    }

    /** A plain assignment: a key that is there keeps its place, a new one comes to the recent end. */
    method Assign(key: Key, value: Answer)
      requires InMemory(order, values, uses, writes) && (key, value) in writes
      modifies `order, `values, `uses
      ensures InMemory(order, values, uses, writes) && uses == old(uses) + [Refill(key)]
      ensures order == MostRecent(Assigned(old(order), key)) && key in order
      ensures key !in old(order) ==> order == MostRecent(Touched(old(order), key))
      ensures forall k :: k in order ==> (k == key || k in old(values)) && values[k] == if k == key then value else old(values)[k]
    {
      KeptOfMore(uses, Refill(key));
      ghost var full := Assigned(order, key);
      AssignedStays(order, key, full, MostRecent(full));
      order, values := Assigned(order, key), values[key := value];
      TrimSessionCache();
      uses := uses + [Refill(key)];
    }

    method TrimSessionCache()
      requires NoDup(order) && forall k :: k in order <==> k in values
      modifies `order, `values
      ensures order == MostRecent(old(order))
      ensures forall k :: k in order <==> k in values
      ensures forall k :: k in values ==> k in old(values) && values[k] == old(values)[k]
    {
      ghost var dropped := 0;
      while |order| > MAX_CACHE_SIZE
        invariant dropped <= |old(order)| && order == old(order)[dropped..]
        invariant dropped > 0 ==> |order| >= MAX_CACHE_SIZE
        invariant forall k :: k in order <==> k in values
        invariant forall k :: k in values ==> k in old(values) && values[k] == old(values)[k]
        decreases |order|
      {
        FirstIsNotAmongTheRest(order);
        order, values, dropped := order[1..], values - {order[0]}, dropped + 1;
      }
    }

    /** Removes a key from the in-process tier, if it is there. */
    method Pop(key: Key)
      requires InMemory(order, values, uses, writes)
      modifies `order, `values, `uses
      ensures InMemory(order, values, uses, writes) && uses == old(uses) + [Forget(key)]
      ensures order == Recency.Remove(old(order), key) && values == old(values) - {key} && key !in order
    {
      KeptOfMore(uses, Forget(key));
      order, values, uses := Recency.Remove(order, key), values - {key}, uses + [Forget(key)];
    }

    // ---- Other requests, between the sections under the lock ----

    /** Any one thing that another request does; what it writes it writes for a cause. */
    method OtherStep()
      requires Valid()
      modifies `order, `values, `uses, `writes, `causes, table`rows
      ensures Valid() && old(writes) <= writes && old(causes) <= causes
    {
      var key: Key := *;
      var value: Answer := *;
      var cause: Cause := *;
      var now: real := *;
      if explains(cause, (key, value)) {
        ExplainOneMore(causes, explains, writes, cause, (key, value));
        causes, writes := causes + {cause}, writes + {(key, value)};
        OtherWrite(key, value, now);
      } else if * {
        Pop(key);
      } else if * {
        var found := table.Get(key, now);
      } else {
        var raised := table.Delete(key);
      }
    }

    method OtherWrite(key: Key, value: Answer, now: real)
      requires Valid() && (key, value) in writes
      modifies `order, `values, `uses, table`rows
      ensures Valid()
    {
      if * {
        Put(key, value);
      } else if * {
        Assign(key, value);
      } else {
        var raised := table.Set(key, value, now);
        RowsStayKnown(old(table.rows), table.rows, key, value, now, table.ttl, table.maxEntries, writes);
        assert writes + {(key, value)} == writes;
      }
    }

    /** Any number of things that other requests do meanwhile. */
    method Others()
      requires Valid()
      modifies `order, `values, `uses, `writes, `causes, table`rows
      ensures Valid() && old(writes) <= writes && old(causes) <= causes
      ensures !shared ==> Same(old(order), order, old(values), values, old(table.rows), table.rows) && writes == old(writes) && causes == old(causes)
    {
      if !shared { return; }
      var steps: int := *;
      for i := 0 to if steps < 0 then 0 else steps
        invariant Valid() && old(writes) <= writes && old(causes) <= causes
      {
        OtherStep();
      }
    }

    /** A check of the expected generation, if there is one to check. */
    method Unchanged(expected: Option<nat>) returns (same: bool, ghost at: nat)
      requires generations.Valid()
      modifies generations
      ensures generations.Valid() && old(generations.history) < generations.history
      ensures at == |generations.history| - 1
      ensures same <==> expected.None? || generations.history[at] == expected.value
    {
      var g;
      g, at := generations.Read();
      same := expected.None? || g == expected.value;
    }

    /** In-process tier first, then the table with a refill.  Other requests may come in before
        the lock is taken and between its sections. */
    method Get(key: Key, expected: Option<nat>, now: real)
      returns (value: Option<Answer>, ghost first: nat, ghost last: nat)
      requires Valid()
      modifies `order, `values, `uses, `writes, `causes, table`rows, generations
      ensures Valid() && old(generations.history) <= generations.history && old(writes) <= writes && old(causes) <= causes
      // what a returned value is, and when it was still right
      ensures value.Some? ==> enabled && (key, value.value) in writes && key in values && values[key] == value.value
      ensures value.Some? && expected.Some? ==> |old(generations.history)| <= first && Steady(generations.history, expected.value, first, last)
      // the tiers, if nobody else uses them
      ensures !shared ==> writes == old(writes) && causes == old(causes)
      ensures !shared && value.Some? ==> order == MostRecent(Touched(old(order), key))
      ensures !shared && value.None? && (!enabled || key !in old(values)) ==> order == old(order)
      ensures enabled ==> |old(generations.history)| <= first < |generations.history|
      ensures !shared && enabled && key in old(values) ==>
        if expected.Some? && generations.history[first] != expected.value then value.None? && order == old(order)
        else if value.Some? then true
        else
          && first <= last < |generations.history| && expected.Some? && generations.history[last] != expected.value
          && order == Recency.Remove(old(order), key)
      ensures !shared ==> Extends(old(values), values, key) && SameRows(old(table.rows), table.rows)
      // as long as nothing is committed meanwhile, a cache finds what it holds
      ensures !shared && enabled && Quiet(generations.history, |old(generations.history)|, expected) && key in old(values) ==>
        value == Some(old(values)[key]) && table.rows == old(table.rows)
      ensures !shared && enabled && Quiet(generations.history, |old(generations.history)|, expected) && key !in old(values) && table.reliable ==>
        value == Found(old(table.rows), key, now)
    {
      value, first, last := None, 0, 0;
      if !enabled { return; }
      var same;
      same, first := Unchanged(expected);
      if !same { return; }
      Others();
      if key in values {
        same, last := Unchanged(expected);
        if !same {
          Pop(key);
          return;
        }
        SteadyBetween(generations, first, last);
        value := Some(values[key]);
        Put(key, value.value);
        return;
      }
      value, last := GetFromTable(key, expected, now, first);
    }

    method ReadTable(key: Key, now: real) returns (value: Option<Answer>)
      requires Valid()
      modifies `order, `values, `uses, `writes, `causes, table`rows
      ensures Valid() && old(writes) <= writes && old(causes) <= causes
      ensures value.Some? ==> (key, value.value) in writes
      ensures !shared ==> order == old(order) && values == old(values) && writes == old(writes) && causes == old(causes)
      ensures !shared ==> SameRows(old(table.rows), table.rows)
      ensures !shared && table.reliable ==> value == Found(old(table.rows), key, now)
    {
      Others();
      value := table.Get(key, now);
      Others();
    }

    method GetFromTable(key: Key, expected: Option<nat>, now: real, ghost first: nat)
      returns (value: Option<Answer>, ghost last: nat)
      requires Valid() && (!shared ==> key !in values)
      requires first < |generations.history| && (expected.Some? ==> generations.history[first] == expected.value)
      modifies `order, `values, `uses, `writes, `causes, table`rows, generations
      ensures Valid() && old(generations.history) <= generations.history && old(writes) <= writes && old(causes) <= causes
      ensures value.Some? ==> (key, value.value) in writes && key in values && values[key] == value.value
      ensures value.Some? && expected.Some? ==> Steady(generations.history, expected.value, first, last)
      ensures !shared ==> writes == old(writes) && causes == old(causes)
      ensures !shared && value.Some? ==> order == MostRecent(Touched(old(order), key))
      ensures !shared && value.None? ==> order == old(order)
      ensures !shared ==> Extends(old(values), values, key) && SameRows(old(table.rows), table.rows)
      ensures !shared && Quiet(generations.history, |old(generations.history)|, expected) && table.reliable ==> value == Found(old(table.rows), key, now)
    {
      last := 0;
      value := ReadTable(key, now);
      if value.Some? {
        var same;
        same, last := Unchanged(expected);
        if !same { return None, last; }
        SteadyBetween(generations, first, last);
        Others();
        Assign(key, value.value);
      }
    }

    method WriteTable(key: Key, value: Answer, now: real) returns (raised: bool)
      requires Valid() && (key, value) in writes
      modifies `order, `values, `uses, `writes, `causes, table`rows
      ensures Valid() && old(writes) <= writes && old(causes) <= causes
      ensures table.reliable ==> !raised
      ensures !shared ==> order == old(order) && values == old(values) && writes == old(writes) && causes == old(causes)
      ensures !shared && !raised ==> Written(old(table.rows), table.rows, key, value, now, table.ttl, table.maxEntries)
      ensures !shared && raised ==>
        table.rows == old(table.rows) || Written(old(table.rows), table.rows, key, value, now, table.ttl, table.maxEntries)
    {
      Others();
      ghost var rows := table.rows;
      raised := table.Set(key, value, now);
      RowsStayKnown(rows, table.rows, key, value, now, table.ttl, table.maxEntries, writes);
      assert writes + {(key, value)} == writes;
      Others();
    }

    method Record(key: Key, value: Answer, ghost cause: Cause)
      requires Valid() && explains(cause, (key, value))
      modifies `order, `values, `uses, `writes, `causes
      ensures Valid() && writes == old(writes) + {(key, value)} && causes == old(causes) + {cause}
      ensures order == MostRecent(Touched(old(order), key)) && key in values && values[key] == value
      ensures Extends(old(values), values, key)
    {
      ExplainOneMore(causes, explains, writes, cause, (key, value));
      causes, writes := causes + {cause}, writes + {(key, value)};
      Put(key, value);
    }

    method TakeBack(key: Key) returns (failed: bool)
      requires Valid()
      modifies `order, `values, `uses, `writes, `causes, table`rows
      ensures Valid() && old(writes) <= writes && old(causes) <= causes
      ensures !shared ==> writes == old(writes) && causes == old(causes)
      ensures table.reliable ==> !failed
      ensures !shared ==> key !in order && Extends(old(values), values, key) && (!failed ==> key !in table.rows)
    {
      Others();
      Pop(key);
      Others();
      failed := table.Delete(key);
    }

    /** In-process tier, then the table, then a last check that takes everything back if it fails. */
    method Set(key: Key, value: Answer, ghost cause: Cause, expected: Option<nat>, now: real)
      returns (ok: bool, ghost how: Outcome, ghost first: nat, ghost last: nat)
      requires Valid() && explains(cause, (key, value))
      modifies `order, `values, `uses, `writes, `causes, table`rows, generations
      ensures Valid() && old(generations.history) <= generations.history && old(writes) <= writes && old(causes) <= causes
      // how it ended, as the two checks and the table decide
      ensures ok <==> how.Stored?
      ensures how.SwitchedOff? <==> !enabled
      ensures enabled ==> |old(generations.history)| <= first < |generations.history|
      ensures how.Stale? <==> enabled && expected.Some? && generations.history[first] != expected.value
      ensures how.TakenBack? ==> first <= last < |generations.history| && expected.Some? && generations.history[last] != expected.value
      ensures table.reliable ==> !how.TableFailed? && how != TakenBack(false)
      // stored only under the expected generation
      ensures ok && expected.Some? ==> Steady(generations.history, expected.value, first, last)
      ensures ok ==> (key, value) in writes && cause in causes
      // and in both tiers, if nobody else uses them
      ensures !shared ==> (writes == old(writes) && causes == old(causes)) || (writes == old(writes) + {(key, value)} && causes == old(causes) + {cause})
      ensures !shared && ok ==> order == MostRecent(Touched(old(order), key)) && key in values && values[key] == value
      ensures !shared && ok ==> Written(old(table.rows), table.rows, key, value, now, table.ttl, table.maxEntries)
      // otherwise nothing was touched, or the key is gone from the in-process tier, and from the table as far as it answered
      ensures !shared && (how.SwitchedOff? || how.Stale?) ==> Same(old(order), order, old(values), values, old(table.rows), table.rows)
      ensures !shared && (how.TableFailed? || how.TakenBack?) ==> key !in order
      ensures !shared && how.TableFailed? ==>
        table.rows == old(table.rows) || Written(old(table.rows), table.rows, key, value, now, table.ttl, table.maxEntries)
      ensures !shared && how == TakenBack(true) ==> key !in table.rows
      ensures !shared ==> Extends(old(values), values, key)
      // as long as nothing is committed meanwhile, a working cache stores
      ensures enabled && Quiet(generations.history, |old(generations.history)|, expected) && table.reliable ==> ok
    {
      ok, how, first, last := false, SwitchedOff, 0, 0;
      if !enabled { return; }
      var same;
      same, first := Unchanged(expected);
      how := Stale;
      if !same { return; }
      Others();
      Record(key, value, cause);
      var raised := WriteTable(key, value, now);
      if raised {
        Pop(key);
        how := TableFailed;
        return;
      }
      same, last := Unchanged(expected);
      if !same {
        var failed := TakeBack(key);
        how := TakenBack(!failed);
        return;
      }
      SteadyBetween(generations, first, last);
      ok, how := true, Stored;
    }
  }

  ghost predicate Same(order: seq<Key>, order': seq<Key>, values: map<Key, Answer>, values': map<Key, Answer>,
                            rows: map<Key, Row>, rows': map<Key, Row>) {
    order' == order && values' == values && rows' == rows
  }

  lemma RowsStayKnown(before: map<Key, Row>, after: map<Key, Row>, key: Key, value: Answer, now: real, ttl: real,
                      maxEntries: nat, writes: set<(Key, Answer)>)
    requires forall k :: k in before ==> (k, before[k].payload) in writes
    requires before == after || Written(before, after, key, value, now, ttl, maxEntries)
    ensures forall k :: k in after ==> (k, after[k].payload) in writes + {(key, value)}
  {
    forall k | k in after && before != after
      ensures (k, after[k].payload) in writes + {(key, value)}
    {
      assert k in Upserted(Unexpired(before, now), key, value, now, ttl);
    }
  }

  /** Other keys keep their values, or leave. */
  ghost predicate Extends(before: map<Key, Answer>, after: map<Key, Answer>, key: Key) {
    forall k :: k in after && k != key ==> k in before && after[k] == before[k]
  }

  ghost predicate SameRows(before: map<Key, Row>, after: map<Key, Row>) {
    forall k :: k in after ==> k in before && after[k].payload == before[k].payload
  }

  /** No check made since instant `from` can have seen anything but the expected generation. */
  ghost predicate Quiet(history: seq<nat>, from: nat, expected: Option<nat>) {
    expected.Some? ==> forall i :: from <= i < |history| ==> history[i] == expected.value
  }

  function Found(rows: map<Key, Row>, key: Key, now: real): Option<Answer> {
    if key in rows && now < rows[key].expires then Some(rows[key].payload) else None
  }

  /** The generation only grows, so two equal readings pin it for the whole time between. */
  lemma SteadyBetween(generations: Generations, first: nat, last: nat)
    requires generations.Valid() && first <= last < |generations.history|
    ensures generations.history[first] == generations.history[last] ==>
      Steady(generations.history, generations.history[last], first, last)
  {
  }
}
