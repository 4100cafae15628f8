/** The locks around the knowledge base are always taken in the order gate, vector, then one of
    the innermost locks, so no set of threads can block each other for ever. */
module LockOrder {

  datatype Lock = GateLock | VectorLock | ManifestLock | Bm25Lock | ResourceLock

  function Rank(l: Lock): nat {
    match l
    case GateLock => 0
    case VectorLock => 1
    case _ => 2
  }

  datatype Action =
    | Take(lock: Lock)
    | TakeGateWhenIdle       // wait on the condition variable until nothing destructive runs
    | Give(lock: Lock)
    | SetDestructive         // under the gate: refused, and the thread leaves, if already set
    | ClearDestructive       // under the gate

  /** A thread with its locks, what it will still do, and whether it set the destructive flag. */
  datatype Thread = Thread(held: set<Lock>, todo: seq<Action>, owner: bool)

  datatype System = System(threads: seq<Thread>, destructive: bool)

  // ---- The programs; `inner` is whatever innermost locks the path taken happens to need ----

  function Touch(inner: seq<Lock>): seq<Action> {
    if inner == [] then [] else [Take(inner[0]), Give(inner[0])] + Touch(inner[1..])
  }

  function UnderVector(inner: seq<Lock>): seq<Action> { [Take(VectorLock)] + (Touch(inner) + [Give(VectorLock)]) }

  function UnderGate(body: seq<Action>): seq<Action> { [Take(GateLock)] + (body + [Give(GateLock)]) }

  function BeginBatch(): seq<Action> { [TakeGateWhenIdle, Give(GateLock)] }

  function BusyCheck(): seq<Action> { UnderGate([]) }

  /** Also finalising the last batch, whose refresh runs under both locks. */
  function Search(inner: seq<Lock>): seq<Action> { UnderGate(UnderVector(inner)) }

  /** Adding a document and the read-only listings. */
  function AddDocument(inner: seq<Lock>): seq<Action> { UnderVector(inner) }

  function DeleteOrClear(inner: seq<Lock>): seq<Action> {
    UnderGate([SetDestructive]) + (UnderVector(inner) + UnderGate([ClearDestructive]))
  }

  predicate Innermost(inner: seq<Lock>) { forall i :: 0 <= i < |inner| ==> Rank(inner[i]) == 2 }

  // ---- What makes a program safe to run beside others ----

  /** Locks are taken in rank order, nothing is held while waiting for the flag, the flag is
      changed under the gate alone, and the thread ends with nothing in its hands. */
  predicate Disciplined(held: set<Lock>, todo: seq<Action>, owner: bool)
    decreases |todo|
  {
    if todo == [] then held == {} && !owner
    else
      match todo[0]
      case Take(l) => (forall h :: h in held ==> Rank(h) < Rank(l)) && Disciplined(held + {l}, todo[1..], owner)
      case TakeGateWhenIdle => held == {} && !owner && Disciplined({GateLock}, todo[1..], owner)
      case Give(l) => l in held && Disciplined(held - {l}, todo[1..], owner)
      case SetDestructive => held == {GateLock} && !owner && Disciplined(held, todo[1..], true)
      case ClearDestructive => held == {GateLock} && owner && Disciplined(held, todo[1..], false)
  }

  lemma Before(held: set<Lock>, a: Action, rest: seq<Action>, owner: bool)
    requires a.Take? ==> (forall h :: h in held ==> Rank(h) < Rank(a.lock)) && Disciplined(held + {a.lock}, rest, owner)
    requires a.Give? ==> a.lock in held && Disciplined(held - {a.lock}, rest, owner)
    requires a.TakeGateWhenIdle? ==> held == {} && !owner && Disciplined({GateLock}, rest, owner)
    requires a.SetDestructive? ==> held == {GateLock} && !owner && Disciplined(held, rest, true)
    requires a.ClearDestructive? ==> held == {GateLock} && owner && Disciplined(held, rest, false)
    ensures Disciplined(held, [a] + rest, owner)
  {
    assert ([a] + rest)[0] == a && ([a] + rest)[1..] == rest;
  }

  /** Taking an innermost lock and giving it back fits anywhere above the last rank. */
  lemma {:induction false} TouchFits(held: set<Lock>, inner: seq<Lock>, rest: seq<Action>, owner: bool)
    requires Innermost(inner) && held <= {GateLock, VectorLock} && Disciplined(held, rest, owner)
    ensures Disciplined(held, Touch(inner) + rest, owner)
  {
    if inner == [] {
      assert Touch(inner) + rest == rest;
    } else {
      var l, tail := inner[0], Touch(inner[1..]) + rest;
      TouchFits(held, inner[1..], rest, owner);
      assert held + {l} - {l} == held;
      Before(held + {l}, Give(l), tail, owner);
      Before(held, Take(l), [Give(l)] + tail, owner);
      assert Touch(inner) + rest == [Take(l)] + ([Give(l)] + tail);
    }
  }

  lemma VectorSectionFits(held: set<Lock>, inner: seq<Lock>, rest: seq<Action>, owner: bool)
    requires Innermost(inner) && held <= {GateLock} && Disciplined(held, rest, owner)
    ensures Disciplined(held, UnderVector(inner) + rest, owner)
  {
    var inside := held + {VectorLock};
    assert inside - {VectorLock} == held;
    Before(inside, Give(VectorLock), rest, owner);
    TouchFits(inside, inner, [Give(VectorLock)] + rest, owner);
    Before(held, Take(VectorLock), Touch(inner) + ([Give(VectorLock)] + rest), owner);
    assert UnderVector(inner) + rest == [Take(VectorLock)] + (Touch(inner) + ([Give(VectorLock)] + rest));
  }

  lemma ReleaseGateFits(rest: seq<Action>, owner: bool)
    requires Disciplined({}, rest, owner)
    ensures Disciplined({GateLock}, [Give(GateLock)] + rest, owner)
  {
    assert {GateLock} - {GateLock} == {};
    Before({GateLock}, Give(GateLock), rest, owner);
  }

  lemma GateSectionFits(body: seq<Action>, rest: seq<Action>, owner: bool)
    requires Disciplined({GateLock}, body + ([Give(GateLock)] + rest), owner)
    ensures Disciplined({}, UnderGate(body) + rest, owner)
  {
    assert {} + {GateLock} == {GateLock};
    Before({}, Take(GateLock), body + ([Give(GateLock)] + rest), owner);
    assert UnderGate(body) + rest == [Take(GateLock)] + (body + ([Give(GateLock)] + rest));
  }

  /** Every operation of the store keeps the discipline, whichever innermost locks it needs. */
  lemma ProgramsAreDisciplined(inner: seq<Lock>)
    requires Innermost(inner)
    ensures Disciplined({}, BeginBatch(), false) && Disciplined({}, BusyCheck(), false)
    ensures Disciplined({}, Search(inner), false) && Disciplined({}, AddDocument(inner), false)
    ensures Disciplined({}, DeleteOrClear(inner), false)
  {
    ReleaseGateFits([], false);
    assert BeginBatch() == [TakeGateWhenIdle] + ([Give(GateLock)] + []);
    Before({}, TakeGateWhenIdle, [Give(GateLock)] + [], false);
    assert [] + ([Give(GateLock)] + []) == [Give(GateLock)] + [];
    GateSectionFits([], [], false);
    assert BusyCheck() + [] == BusyCheck();
    VectorSectionFits({GateLock}, inner, [Give(GateLock)] + [], false);
    GateSectionFits(UnderVector(inner), [], false);
    assert Search(inner) + [] == Search(inner);
    VectorSectionFits({}, inner, [], false);
    assert AddDocument(inner) + [] == AddDocument(inner);
    DeleteOrClearIsDisciplined(inner);
  }

  lemma DeleteOrClearIsDisciplined(inner: seq<Lock>)
    requires Innermost(inner)
    ensures Disciplined({}, DeleteOrClear(inner), false)
  {
    ReleaseGateFits([], false);
    Before({GateLock}, ClearDestructive, [Give(GateLock)] + [], true);
    GateSectionFits([ClearDestructive], [], true);
    var closing := UnderGate([ClearDestructive]);
    assert closing + [] == closing;
    VectorSectionFits({}, inner, closing, true);
    var rest := UnderVector(inner) + closing;
    ReleaseGateFits(rest, true);
    Before({GateLock}, SetDestructive, [Give(GateLock)] + rest, false);
    GateSectionFits([SetDestructive], rest, false);
  }

  // ---- The interleaving ----

  predicate Free(s: System, l: Lock) { forall i :: 0 <= i < |s.threads| ==> l !in s.threads[i].held }

  predicate CanStep(s: System, i: nat) {
    && i < |s.threads| && s.threads[i].todo != []
    && match s.threads[i].todo[0]
       case Take(l) => Free(s, l)
       case TakeGateWhenIdle => Free(s, GateLock) && !s.destructive
       case _ => true
  }

  function Moved(t: Thread, destructive: bool): Thread
    requires t.todo != []
  {
    var rest := t.todo[1..];
    match t.todo[0]
    case Take(l) => Thread(t.held + {l}, rest, t.owner)
    case TakeGateWhenIdle => Thread(t.held + {GateLock}, rest, t.owner)
    case Give(l) => Thread(t.held - {l}, rest, t.owner)
    case SetDestructive => if destructive then Thread(t.held, [Give(GateLock)], t.owner) else Thread(t.held, rest, true)
    case ClearDestructive => Thread(t.held, rest, false)
  }

  function Step(s: System, i: nat): System
    requires CanStep(s, i)
  {
    var a := s.threads[i].todo[0];
    System(s.threads[i := Moved(s.threads[i], s.destructive)],
           if a.SetDestructive? then true else if a.ClearDestructive? then false else s.destructive)
  }

  ghost predicate Inv(s: System) {
    && (forall i :: 0 <= i < |s.threads| ==> Disciplined(s.threads[i].held, s.threads[i].todo, s.threads[i].owner))
    && (forall i, j :: 0 <= i < j < |s.threads| ==> s.threads[i].held !! s.threads[j].held)
    && (forall i, j :: 0 <= i < j < |s.threads| ==> !(s.threads[i].owner && s.threads[j].owner))
    && (s.destructive <==> exists i :: 0 <= i < |s.threads| && s.threads[i].owner)
  }

  lemma MoveIsDisciplined(t: Thread, destructive: bool)
    requires t.todo != [] && Disciplined(t.held, t.todo, t.owner)
    ensures var t' := Moved(t, destructive); Disciplined(t'.held, t'.todo, t'.owner)
  {
    if t.todo[0].SetDestructive? && destructive {
      ReleaseGateFits([], false);
      assert [Give(GateLock)] + [] == [Give(GateLock)];
    } else if t.todo[0].TakeGateWhenIdle? {
      assert t.held + {GateLock} == {GateLock};
    }
  }

  lemma StepKeepsInv(s: System, i: nat)
    requires Inv(s) && CanStep(s, i)
    ensures Inv(Step(s, i))
  {
    var s' := Step(s, i);
    MoveIsDisciplined(s.threads[i], s.destructive);
    assert s'.threads[i].owner ==> s'.destructive;
    if s'.destructive && !s'.threads[i].owner {
      var o :| 0 <= o < |s.threads| && s.threads[o].owner;
      assert s'.threads[o].owner;
    }
    if s.threads[i].todo[0].ClearDestructive? {
      assert s.threads[i].owner;
    }
  }

  /** While a thread is unfinished, some thread can go on. */
  lemma SomeoneCanStep(s: System, unfinished: nat)
    requires Inv(s) && unfinished < |s.threads| && s.threads[unfinished].todo != []
    ensures exists i :: CanStep(s, i)
  {
    if i, l :| 0 <= i < |s.threads| && l in s.threads[i].held && Rank(l) == 2 {
      HighestHolderCanStep(s, i, l);
    } else if i :| 0 <= i < |s.threads| && VectorLock in s.threads[i].held {
      HighestHolderCanStep(s, i, VectorLock);
    } else if i :| 0 <= i < |s.threads| && GateLock in s.threads[i].held {
      HighestHolderCanStep(s, i, GateLock);
    } else {
      assert forall i, l :: 0 <= i < |s.threads| && l in s.threads[i].held ==> Rank(l) == 2 || l == VectorLock || l == GateLock;
      if s.threads[unfinished].todo[0].TakeGateWhenIdle? && s.destructive {
        var o :| 0 <= o < |s.threads| && s.threads[o].owner;
        assert CanStep(s, o);
      } else {
        assert CanStep(s, unfinished);
      }
    }
  }

  lemma HighestHolderCanStep(s: System, i: nat, top: Lock)
    requires Inv(s) && i < |s.threads| && top in s.threads[i].held
    requires forall j, l :: 0 <= j < |s.threads| && l in s.threads[j].held ==> Rank(l) <= Rank(top)
    ensures CanStep(s, i)
  {
    assert Disciplined(s.threads[i].held, s.threads[i].todo, s.threads[i].owner);
  }

  // ---- Hence every system of such threads can always run to its end ----

  function Total(threads: seq<Thread>): nat {
    if threads == [] then 0 else |threads[0].todo| + Total(threads[1..])
  }

  lemma {:induction false} TotalOfUpdate(threads: seq<Thread>, i: nat, t: Thread)
    requires i < |threads|
    ensures Total(threads[i := t]) + |threads[i].todo| == Total(threads) + |t.todo|
  {
    if i == 0 {
      assert threads[i := t][1..] == threads[1..];
    } else {
      assert threads[i := t][1..] == threads[1..][i - 1 := t];
      TotalOfUpdate(threads[1..], i - 1, t);
    }
  }

  /** One step of any thread leaves strictly less to do. */
  lemma StepShortens(s: System, i: nat)
    requires Inv(s) && CanStep(s, i)
    ensures Total(Step(s, i).threads) < Total(s.threads)
  {
    var t := s.threads[i];
    assert Disciplined(t.held, t.todo, t.owner);
    TotalOfUpdate(s.threads, i, Moved(t, s.destructive));
  }

  ghost predicate Schedule(s: System, order: seq<nat>, end: System)
    decreases |order|
  {
    if order == [] then s == end
    else CanStep(s, order[0]) && Schedule(Step(s, order[0]), order[1..], end)
  }

  lemma {:induction false} CanFinish(s: System) returns (order: seq<nat>, end: System)
    requires Inv(s)
    ensures Schedule(s, order, end)
    ensures forall i :: 0 <= i < |end.threads| ==> end.threads[i].todo == [] && end.threads[i].held == {}
    ensures !end.destructive
    decreases Total(s.threads)
  {
    if unfinished: nat :| unfinished < |s.threads| && s.threads[unfinished].todo != [] {
      SomeoneCanStep(s, unfinished);
      var i :| CanStep(s, i);
      StepKeepsInv(s, i);
      StepShortens(s, i);
      var rest;
      rest, end := CanFinish(Step(s, i));
      order := [i] + rest;
      assert order[1..] == rest;
    } else {
      order, end := [], s;
      assert forall i :: 0 <= i < |s.threads| ==> Disciplined(s.threads[i].held, s.threads[i].todo, s.threads[i].owner);
    }
  }

  // ---- From the start ----

  /** One of the operations, with whatever innermost locks it happens to need. */
  ghost predicate IsProgram(todo: seq<Action>) {
    || todo == BeginBatch()
    || todo == BusyCheck()
    || exists inner :: Innermost(inner) && (todo == Search(inner) || todo == AddDocument(inner) || todo == DeleteOrClear(inner))
  }

  function Chain(programs: seq<seq<Action>>): seq<Action> {
    if programs == [] then [] else programs[0] + Chain(programs[1..])
  }

  /** Any operations one after the other, as an upload begins a batch, adds documents and finalises. */
  ghost predicate IsWork(todo: seq<Action>) {
    exists programs :: todo == Chain(programs) && forall i :: 0 <= i < |programs| ==> IsProgram(programs[i])
  }

  /** Any number of threads, each at the beginning of its work. */
  ghost predicate Start(s: System) {
    && !s.destructive
    && forall i :: 0 <= i < |s.threads| ==> s.threads[i].held == {} && !s.threads[i].owner && IsWork(s.threads[i].todo)
  }

  lemma ProgramIsDisciplined(todo: seq<Action>)
    requires IsProgram(todo)
    ensures Disciplined({}, todo, false)
  {
    if inner :| Innermost(inner) && (todo == Search(inner) || todo == AddDocument(inner) || todo == DeleteOrClear(inner)) {
      ProgramsAreDisciplined(inner);
    } else {
      ProgramsAreDisciplined([]);
    }
  }

  /** A program ends with empty hands, so another one can follow. */
  lemma {:induction false} OneAfterTheOther(held: set<Lock>, todo: seq<Action>, owner: bool, rest: seq<Action>)
    requires Disciplined(held, todo, owner) && Disciplined({}, rest, false)
    ensures Disciplined(held, todo + rest, owner)
    decreases |todo|
  {
    if todo == [] {
      assert todo + rest == rest;
    } else {
      var a, tail := todo[0], todo[1..];
      match a {
        case Take(l) => OneAfterTheOther(held + {l}, tail, owner, rest);
        case TakeGateWhenIdle => OneAfterTheOther({GateLock}, tail, owner, rest);
        case Give(l) => OneAfterTheOther(held - {l}, tail, owner, rest);
        case SetDestructive => OneAfterTheOther(held, tail, true, rest);
        case ClearDestructive => OneAfterTheOther(held, tail, false, rest);
      }
      Before(held, a, tail + rest, owner);
      assert todo + rest == [a] + (tail + rest);
    }
  }

  lemma {:induction false} ChainIsDisciplined(programs: seq<seq<Action>>)
    requires forall i :: 0 <= i < |programs| ==> IsProgram(programs[i])
    ensures Disciplined({}, Chain(programs), false)
  {
    if programs != [] {
      ProgramIsDisciplined(programs[0]);
      ChainIsDisciplined(programs[1..]);
      OneAfterTheOther({}, programs[0], false, Chain(programs[1..]));
    }
  }

  lemma StartHasInv(s: System)
    requires Start(s)
    ensures Inv(s)
  {
    forall i | 0 <= i < |s.threads| ensures Disciplined(s.threads[i].held, s.threads[i].todo, s.threads[i].owner) {
      var programs :| s.threads[i].todo == Chain(programs) && forall j :: 0 <= j < |programs| ==> IsProgram(programs[j]);
      ChainIsDisciplined(programs);
    }
  }

  lemma {:induction false} ScheduleKeepsInv(s: System, order: seq<nat>, end: System)
    requires Inv(s) && Schedule(s, order, end)
    ensures Inv(end)
    decreases |order|
  {
    if order != [] {
      StepKeepsInv(s, order[0]);
      ScheduleKeepsInv(Step(s, order[0]), order[1..], end);
    }
  }

  /** In whatever order the threads have run so far: at most one holds a lock, at most one has
      set the destructive flag, and unless all have finished some thread can go on. */
  lemma NoDeadlock(start: System, order: seq<nat>, s: System)
    requires Start(start) && Schedule(start, order, s)
    ensures forall i, j :: 0 <= i < j < |s.threads| ==> s.threads[i].held !! s.threads[j].held
    ensures forall i, j :: 0 <= i < j < |s.threads| ==> !(s.threads[i].owner && s.threads[j].owner)
    ensures (exists i :: CanStep(s, i)) <==> (exists i :: 0 <= i < |s.threads| && s.threads[i].todo != [])
  {
    StartHasInv(start);
    ScheduleKeepsInv(start, order, s);
    if unfinished: nat :| unfinished < |s.threads| && s.threads[unfinished].todo != [] {
      SomeoneCanStep(s, unfinished);
    }
    if i: nat :| CanStep(s, i) {
      assert s.threads[i].todo != [];
    }
  }

  /** And the threads can still all finish and give everything back. */
  lemma CanAlwaysFinish(start: System, order: seq<nat>, s: System) returns (more: seq<nat>, end: System)
    requires Start(start) && Schedule(start, order, s)
    ensures Schedule(s, more, end)
    ensures forall i :: 0 <= i < |end.threads| ==> end.threads[i].todo == [] && end.threads[i].held == {}
    ensures !end.destructive
  {
    StartHasInv(start);
    ScheduleKeepsInv(start, order, s);
    more, end := CanFinish(s);
  }
}
