/** The mutation gate and the bounded upload queue, under every interleaving of request
    threads, workers, destructive operations and queries. */
module UploadGate {
  import opened Prelude

  type TaskId = nat

  /** Where an accepted upload stands. */
  datatype Phase =
    | Admitted    // holds a slot, may be waiting for a destructive operation to end
    | Reserved    // batch begun, files being staged
    | Queued      // handed to the executor; the worker runs or will run
    | Settled     // batch finalised, slot still held
    | Released    // slot given back
    | Leaked      // the failure path's finalise raised: the slot is never given back

  datatype System = System(
    capacity: nat,
    slots: nat,
    depth: nat,
    batchMutated: bool,
    destructive: bool,
    tasks: map<TaskId, Phase>)

  datatype Event =
    | Accept(t: TaskId)
    | RejectFull
    | Begin(t: TaskId)
    | Abort(t: TaskId, raised: bool)                  // staging or submission failed: finalise without mutation
    | Submit(t: TaskId)
    | Finish(t: TaskId, mutated: bool, raised: bool)  // the worker's final block; an exception there is caught
    | Release(t: TaskId)
    | TryDestructive(granted: bool)
    | EndDestructive
    | Query(answered: bool)

  /** The refresh that may raise happens only when the last open batch ends and one has mutated. */
  predicate Refreshes(s: System, mutated: bool) { s.depth <= 1 && (s.batchMutated || mutated) }

  function Finalised(s: System, mutated: bool): System {
    s.(depth := if s.depth > 0 then s.depth - 1 else 0,
       batchMutated := if Refreshes(s, mutated) then false else s.batchMutated || mutated)
  }

  predicate At(s: System, t: TaskId, p: Phase) { t in s.tasks && s.tasks[t] == p }

  function Move(s: System, t: TaskId, p: Phase): System { s.(tasks := s.tasks[t := p]) }

  predicate Enabled(s: System, e: Event) {
    match e
    case Accept(t) => t !in s.tasks && s.slots < s.capacity
    case RejectFull => s.slots >= s.capacity
    case Begin(t) => At(s, t, Admitted) && !s.destructive
    case Abort(t, raised) => At(s, t, Reserved) && (raised ==> Refreshes(s, false))
    case Submit(t) => At(s, t, Reserved)
    case Finish(t, mutated, raised) => At(s, t, Queued) && (raised ==> Refreshes(s, mutated))
    case Release(t) => At(s, t, Settled)
    case TryDestructive(granted) => granted <==> !s.destructive && s.depth == 0
    case EndDestructive => s.destructive
    case Query(answered) => answered <==> !s.destructive && s.depth == 0
  }

  function Next(s: System, e: Event): System
    requires Enabled(s, e)
  {
    match e
    case Accept(t) => Move(s, t, Admitted).(slots := s.slots + 1)
    case RejectFull => s
    case Begin(t) => Move(s, t, Reserved).(depth := s.depth + 1)
    case Abort(t, raised) => Move(Finalised(s, false), t, if raised then Leaked else Settled)
    case Submit(t) => Move(s, t, Queued)
    case Finish(t, mutated, raised) => Move(Finalised(s, mutated), t, Settled)
    case Release(t) => Move(s, t, Released).(slots := if s.slots > 0 then s.slots - 1 else 0)
    case TryDestructive(granted) => s.(destructive := s.destructive || granted)
    case EndDestructive => s.(destructive := false)
    case Query(answered) => s
  }

  function Initial(capacity: nat): System { System(capacity, 0, 0, false, false, map[]) }

  /** Where a sequence of events leads, if each of them could happen when it did. */
  function After(capacity: nat, events: seq<Event>): Option<System>
    decreases |events|
  {
    if events == [] then Some(Initial(capacity))
    else
      match After(capacity, events[..|events| - 1])
      case None => None
      case Some(s) =>
        var e := events[|events| - 1];
        if Enabled(s, e) then Some(Next(s, e)) else None
  }

  lemma OneMore(capacity: nat, events: seq<Event>, e: Event)
    requires After(capacity, events).Some?
    requires Enabled(After(capacity, events).value, e)
    ensures After(capacity, events + [e]) == Some(Next(After(capacity, events).value, e))
  {
    assert (events + [e])[..|events|] == events;
  }

  predicate IsOpen(p: Phase) { p == Reserved || p == Queued }

  predicate HoldsSlot(p: Phase) { p != Released }

  /** Batches begun and not yet finalised. */
  function OpenBatches(tasks: map<TaskId, Phase>): set<TaskId> { set t | t in tasks && IsOpen(tasks[t]) }

  /** Accepted uploads that have not given their slot back. */
  function SlotHolders(tasks: map<TaskId, Phase>): set<TaskId> { set t | t in tasks && HoldsSlot(tasks[t]) }

  ghost predicate Inv(s: System) {
    && s.depth == |OpenBatches(s.tasks)|
    && s.slots == |SlotHolders(s.tasks)| <= s.capacity
    && (s.destructive ==> OpenBatches(s.tasks) == {})
    && (s.batchMutated ==> OpenBatches(s.tasks) != {})
  }

  /** Sets that differ at most in `t` have sizes that differ accordingly. */
  lemma Resize(a: set<TaskId>, b: set<TaskId>, t: TaskId)
    requires a - {t} == b - {t}
    ensures |a| + (if t in b then 1 else 0) == |b| + (if t in a then 1 else 0)
  {
    var rest := a - {t};
    assert |a| == |rest| + if t in a then 1 else 0 by { if t !in a { assert rest == a; } }
    assert |b| == |rest| + if t in b then 1 else 0 by { if t !in b { assert rest == b; } }
  }

  lemma StepKeepsInv(s: System, e: Event)
    requires Inv(s) && Enabled(s, e)
    ensures Inv(Next(s, e))
  {
    if IsTaskStep(e) || e.Accept? {
      var p := Next(s, e).tasks[e.t];
      assert Next(s, e).tasks == s.tasks[e.t := p];
      var tasks' := Next(s, e).tasks;
      Resize(OpenBatches(tasks'), OpenBatches(s.tasks), e.t);
      Resize(SlotHolders(tasks'), SlotHolders(s.tasks), e.t);
    }
  }

  /** A refresh is due while batches are open exactly if one that ended has mutated; none is left
      when the last one ends. */
  lemma RefreshIsDueWhileOpen(s: System, e: Event)
    requires Inv(s) && Enabled(s, e)
    ensures Next(s, e).batchMutated <==> OpenBatches(Next(s, e).tasks) != {} && (s.batchMutated || (e.Finish? && e.mutated))
  {
    StepKeepsInv(s, e);
  }

  /** In every reachable state the counters count what they should, the queue is bounded, no batch
      is open while a destructive operation runs, and no refresh is due without an open batch. */
  lemma {:induction false} RunKeepsInv(capacity: nat, events: seq<Event>)
    requires After(capacity, events).Some?
    ensures Inv(After(capacity, events).value)
    decreases |events|
  {
    if events == [] {
      var s := Initial(capacity);
      assert OpenBatches(s.tasks) == {} && SlotHolders(s.tasks) == {};
    } else {
      RunKeepsInv(capacity, events[..|events| - 1]);
      StepKeepsInv(After(capacity, events[..|events| - 1]).value, events[|events| - 1]);
    }
  }

  /** A query is answered only while no batch is open and nothing destructive runs; what it
      reads under the locks is therefore not in the middle of a change. */
  lemma AnsweredQueriesSeeQuiet(capacity: nat, events: seq<Event>)
    requires After(capacity, events).Some? && After(capacity, events + [Query(true)]).Some?
    ensures var s := After(capacity, events).value; OpenBatches(s.tasks) == {} && !s.destructive
  {
    assert (events + [Query(true)])[..|events|] == events;
    RunKeepsInv(capacity, events);
  }

  // ---- Each accepted upload gives back its batch and its slot exactly once ----

  predicate FinalisesTask(e: Event, t: TaskId) { (e.Abort? || e.Finish?) && e.t == t }

  predicate ReleasesTask(e: Event, t: TaskId) { e.Release? && e.t == t }

  function Finalisations(events: seq<Event>, t: TaskId): nat
    decreases |events|
  {
    if events == [] then 0
    else Finalisations(events[..|events| - 1], t) + if FinalisesTask(events[|events| - 1], t) then 1 else 0
  }

  function Releases(events: seq<Event>, t: TaskId): nat
    decreases |events|
  {
    if events == [] then 0
    else Releases(events[..|events| - 1], t) + if ReleasesTask(events[|events| - 1], t) then 1 else 0
  }

  /** How often a task must have done so, from its phase alone. */
  function FinalisedTimes(s: System, t: TaskId): nat {
    if At(s, t, Settled) || At(s, t, Released) || At(s, t, Leaked) then 1 else 0
  }

  function ReleasedTimes(s: System, t: TaskId): nat {
    if At(s, t, Released) then 1 else 0
  }

  lemma StepCountsOnce(s: System, e: Event, t: TaskId)
    requires Enabled(s, e)
    ensures FinalisedTimes(Next(s, e), t) == FinalisedTimes(s, t) + if FinalisesTask(e, t) then 1 else 0
    ensures ReleasedTimes(Next(s, e), t) == ReleasedTimes(s, t) + if ReleasesTask(e, t) then 1 else 0
    ensures At(Next(s, e), t, Leaked) <==> At(s, t, Leaked) || e == Abort(t, true)
  {
  }

  lemma {:induction false} GivenBackOnce(capacity: nat, events: seq<Event>, t: TaskId)
    requires After(capacity, events).Some?
    ensures Finalisations(events, t) == FinalisedTimes(After(capacity, events).value, t)
    ensures Releases(events, t) == ReleasedTimes(After(capacity, events).value, t)
    decreases |events|
  {
    if events != [] {
      GivenBackOnce(capacity, events[..|events| - 1], t);
      StepCountsOnce(After(capacity, events[..|events| - 1]).value, events[|events| - 1], t);
    }
  }

  // ---- Draining ----

  /** Steps a task still has to take. */
  function Remaining(p: Phase): nat {
    match p
    case Admitted => 4
    case Reserved => 3
    case Queued => 2
    case Settled => 1
    case Released => 0
    case Leaked => 0
  }

  predicate IsTaskStep(e: Event) { e.Begin? || e.Abort? || e.Submit? || e.Finish? || e.Release? }

  /** A new upload is admitted or turned away for lack of a slot, never both. */
  lemma ArrivalsAreAnswered(s: System, t: TaskId)
    requires Inv(s) && t !in s.tasks
    ensures Enabled(s, Accept(t)) <==> |SlotHolders(s.tasks)| < s.capacity
    ensures Enabled(s, RejectFull) <==> |SlotHolders(s.tasks)| == s.capacity
  {
  }

  /** No upload is ever stuck: it can take a step now, or it waits for a destructive operation
      that can end now. */
  lemma NothingIsStuck(s: System, t: TaskId)
    requires t in s.tasks && Remaining(s.tasks[t]) > 0
    ensures
      || (s.tasks[t] == Admitted && s.destructive && Enabled(s, EndDestructive) && Enabled(Next(s, EndDestructive), Begin(t)))
      || (exists e :: IsTaskStep(e) && e.t == t && Enabled(s, e))
  {
    match s.tasks[t]
    case Admitted => if !s.destructive { assert Enabled(s, Begin(t)); }
    case Reserved => assert Enabled(s, Submit(t));
    case Queued => assert Enabled(s, Finish(t, false, false));
    case Settled => assert Enabled(s, Release(t));
  }

  /** Every step of a task brings that task closer to its end and leaves the others where they are. */
  lemma TaskStepsAdvance(s: System, e: Event)
    requires Enabled(s, e) && IsTaskStep(e)
    ensures e.t in s.tasks && Remaining(Next(s, e).tasks[e.t]) < Remaining(s.tasks[e.t])
    ensures forall u :: u in s.tasks && u != e.t ==> u in Next(s, e).tasks && Next(s, e).tasks[u] == s.tasks[u]
  {
  }

  // ---- The one way to lose a slot ----

  /** A task ends without its slot exactly when its failure path raised inside finalise. */
  lemma {:induction false} LostSlots(capacity: nat, events: seq<Event>, t: TaskId)
    requires After(capacity, events).Some?
    ensures At(After(capacity, events).value, t, Leaked) <==> Abort(t, true) in events
    decreases |events|
  {
    if events != [] {
      LostSlots(capacity, events[..|events| - 1], t);
      StepCountsOnce(After(capacity, events[..|events| - 1]).value, events[|events| - 1], t);
      assert events == events[..|events| - 1] + [events[|events| - 1]];
    }
  }

  /** That can happen exactly to the last open batch, and only when an earlier overlapping one
      left a refresh for it to do. */
  lemma WhenASlotCanBeLost(s: System, t: TaskId)
    requires Inv(s)
    ensures Enabled(s, Abort(t, true)) <==> At(s, t, Reserved) && OpenBatches(s.tasks) == {t} && s.batchMutated
  {
    if At(s, t, Reserved) {
      assert t in OpenBatches(s.tasks);
      if s.depth <= 1 {
        assert |OpenBatches(s.tasks) - {t}| == 0;
        assert OpenBatches(s.tasks) == {t};
      }
    }
  }

  /** It does happen: one batch mutates and ends while another is still staging and then fails. */
  const TWO_STAGING := [Accept(0), Begin(0), Accept(1), Begin(1)]
  const FIRST_ENDS := TWO_STAGING + [Submit(0)] + [Finish(0, true, false)] + [Release(0)]

  lemma SlotCanBeLost()
    ensures var s := After(2, FIRST_ENDS + [Abort(1, true)]);
      s.Some? && At(s.value, 1, Leaked) && s.value.slots == 1
  {
    TwoCanStage();
    var s := System(2, 2, 2, false, false, map[0 := Reserved, 1 := Reserved]);
    OneMore(2, TWO_STAGING, Submit(0));
    OneMore(2, TWO_STAGING + [Submit(0)], Finish(0, true, false));
    OneMore(2, TWO_STAGING + [Submit(0)] + [Finish(0, true, false)], Release(0));
    OneMore(2, FIRST_ENDS, Abort(1, true));
  }

  lemma TwoCanStage()
    ensures After(2, TWO_STAGING) == Some(System(2, 2, 2, false, false, map[0 := Reserved, 1 := Reserved]))
  {
    OneMore(2, [], Accept(0));
    OneMore(2, [] + [Accept(0)], Begin(0));
    OneMore(2, [] + [Accept(0)] + [Begin(0)], Accept(1));
    OneMore(2, [] + [Accept(0)] + [Begin(0)] + [Accept(1)], Begin(1));
    assert After(2, [] + [Accept(0)] + [Begin(0)] + [Accept(1)] + [Begin(1)]).value.tasks == map[0 := Reserved, 1 := Reserved];
    assert TWO_STAGING == [] + [Accept(0)] + [Begin(0)] + [Accept(1)] + [Begin(1)];
  }
}
