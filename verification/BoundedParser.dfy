/** Parallel parsing of an upload with bounded prefetch, delivered in upload order. */
module BoundedParser {
  import opened Prelude

  datatype File = File(name: string, path: string)

  datatype Parsed = Text(name: string, content: string) | Failure(name: string, error: string)

  /** What is delivered for file `i`: its parse result, or an error entry when the worker died. */
  function ResultOf(files: seq<File>, parse: File -> Parsed, crashed: set<nat>, i: nat): Parsed
    requires i < |files|
  {
    if i in crashed then Failure(files[i].name, "worker error") else parse(files[i])
  }

  /** The plain sequential map that the parallel iterator refines. */
  function Sequential(files: seq<File>, parse: File -> Parsed, crashed: set<nat>): seq<Parsed> {
    seq(|files|, i requires 0 <= i < |files| => ResultOf(files, parse, crashed, i))
  }

  function Min(a: nat, b: nat): nat { if a < b then a else b }

  function Max(a: nat, b: nat): nat { if a < b then b else a }

  /** Submitted and not yet delivered files are either running or ready, never both, and a
      ready file holds its own result. */
  ghost predicate Buffered(all: seq<Parsed>, pending: set<int>, ready: map<int, Parsed>, nextYield: nat, nextSubmit: nat) {
    && nextYield <= nextSubmit <= |all|
    && (forall i :: i in pending ==> i !in ready && nextYield <= i < nextSubmit)
    && (forall i :: i in ready ==> nextYield <= i < nextSubmit && ready[i] == all[i])
    && (forall i :: nextYield <= i < nextSubmit && i !in pending ==> i in ready)
  }

  lemma SubmitKeepsBuffer(all: seq<Parsed>, pending: set<int>, ready: map<int, Parsed>, nextYield: nat, nextSubmit: nat)
    requires Buffered(all, pending, ready, nextYield, nextSubmit) && nextSubmit < |all|
    ensures Buffered(all, pending + {nextSubmit}, ready, nextYield, nextSubmit + 1)
    ensures |pending + {nextSubmit}| == |pending| + 1
  {
    assert nextSubmit !in pending;
  }

  lemma ArrivalKeepsBuffer(all: seq<Parsed>, pending: set<int>, ready: map<int, Parsed>, nextYield: nat, nextSubmit: nat, index: int)
    requires Buffered(all, pending, ready, nextYield, nextSubmit) && index in pending
    ensures Buffered(all, pending - {index}, ready[index := all[index]], nextYield, nextSubmit)
  {
  }

  lemma DeliveryKeepsBuffer(all: seq<Parsed>, pending: set<int>, ready: map<int, Parsed>, nextYield: nat, nextSubmit: nat)
    requires Buffered(all, pending, ready, nextYield, nextSubmit) && nextYield in ready
    ensures Buffered(all, pending, ready - {nextYield}, nextYield + 1, nextSubmit)
    ensures all[..nextYield + 1] == all[..nextYield] + [ready[nextYield]]
  {
  }

  /** The set of futures that happen to be done, and the order in which they are looked at, is
      the schedule. `peak` is the largest number of files submitted and not yet delivered. */
  method IterParsedFilesBounded(files: seq<File>, parse: File -> Parsed, crashed: set<nat>, workers: nat)
    returns (yielded: seq<Parsed>, completed: nat, peak: nat)
    ensures yielded == Sequential(files, parse, if Min(workers, |files|) <= 1 then {} else crashed)
    ensures completed == |files|
    ensures peak == Min(Max(1, workers), |files|)
  {
    var workerCount := Min(workers, |files|);
    if workerCount <= 1 {
      yielded, completed, peak := ParseInTurn(files, parse);
    } else {
      yielded, completed, peak := ParseAhead(files, parse, crashed, workerCount);
    }
  }

  method ParseInTurn(files: seq<File>, parse: File -> Parsed)
    returns (yielded: seq<Parsed>, completed: nat, peak: nat)
    ensures yielded == Sequential(files, parse, {})
    ensures completed == |files| && peak == Min(1, |files|)
  {
    yielded, completed, peak := [], 0, 0;
    for i := 0 to |files|
      invariant yielded == Sequential(files, parse, {})[..i] && completed == i && peak == Min(1, i)
    {
      yielded, completed, peak := yielded + [parse(files[i])], completed + 1, 1;
    }
  }

  method ParseAhead(files: seq<File>, parse: File -> Parsed, crashed: set<nat>, workerCount: nat)
    returns (yielded: seq<Parsed>, completed: nat, peak: nat)
    requires 1 < workerCount <= |files|
    ensures yielded == Sequential(files, parse, crashed)
    ensures completed == |files| && peak == workerCount
  {
    ghost var all := Sequential(files, parse, crashed);
    var nextSubmit, nextYield := 0, 0;
    var pending: set<int>, ready: map<int, Parsed> := {}, map[];
    for k := 0 to workerCount
      invariant nextSubmit == k == |pending| && Buffered(all, pending, ready, 0, k) && ready == map[]
    {
      SubmitKeepsBuffer(all, pending, ready, 0, nextSubmit);
      pending, nextSubmit := pending + {nextSubmit}, nextSubmit + 1;
    }
    yielded, completed, peak := [], 0, workerCount;
    while pending != {}
      invariant nextSubmit == Min(|files|, nextYield + workerCount)
      invariant Buffered(all, pending, ready, nextYield, nextSubmit)
      invariant nextYield !in ready
      invariant yielded == all[..nextYield]
      invariant completed + |pending| == nextSubmit
      invariant peak == workerCount
      decreases |files| - nextYield, |pending|
    {
      var done: set<int> :| done != {} && done <= pending;
      pending, ready, completed := TakeDone(files, parse, crashed, done, pending, ready, completed, nextYield, nextSubmit);
      yielded, pending, ready, nextYield, nextSubmit :=
        DeliverReady(all, |files|, workerCount, yielded, pending, ready, completed, nextYield, nextSubmit);
      peak := Max(peak, nextSubmit - nextYield);
    }
    assert nextYield == |files|;
  }

  /** Every finished future is removed from the pending table and its result kept by position. */
  method TakeDone(files: seq<File>, parse: File -> Parsed, crashed: set<nat>, finished: set<int>,
                  pendingBefore: set<int>, readyBefore: map<int, Parsed>, completedBefore: nat,
                  nextYield: nat, nextSubmit: nat)
    returns (pending: set<int>, ready: map<int, Parsed>, completed: nat)
    requires finished != {} && finished <= pendingBefore
    requires Buffered(Sequential(files, parse, crashed), pendingBefore, readyBefore, nextYield, nextSubmit)
    ensures pending == pendingBefore - finished
    ensures Buffered(Sequential(files, parse, crashed), pending, ready, nextYield, nextSubmit)
    ensures completed + |pending| == completedBefore + |pendingBefore| && |pending| < |pendingBefore|
  {
    ghost var all := Sequential(files, parse, crashed);
    var done := finished;
    pending, ready, completed := pendingBefore, readyBefore, completedBefore;
    while done != {}
      invariant done <= finished && done <= pending && pending - done == pendingBefore - finished
      invariant Buffered(all, pending, ready, nextYield, nextSubmit)
      invariant completed + |pending| == completedBefore + |pendingBefore|
      invariant |done| + |pendingBefore| == |finished| + |pending|
      decreases done
    {
      var index := AnyOf(done);
      ArrivalKeepsBuffer(all, pending, ready, nextYield, nextSubmit, index);
      done, pending := done - {index}, pending - {index};
      ready := ready[index := ResultOf(files, parse, crashed, index)];
      completed := completed + 1;
    }
  }

  /** Results that are next in upload order are delivered, each making room for one more file. */
  method DeliverReady(ghost all: seq<Parsed>, total: nat, workerCount: nat, yieldedBefore: seq<Parsed>,
                      pendingBefore: set<int>, readyBefore: map<int, Parsed>, ghost completed: nat,
                      nextYieldBefore: nat, nextSubmitBefore: nat)
    returns (yielded: seq<Parsed>, pending: set<int>, ready: map<int, Parsed>, nextYield: nat, nextSubmit: nat)
    requires total == |all| && nextSubmitBefore == Min(total, nextYieldBefore + workerCount)
    requires Buffered(all, pendingBefore, readyBefore, nextYieldBefore, nextSubmitBefore)
    requires yieldedBefore == all[..nextYieldBefore]
    requires completed + |pendingBefore| == nextSubmitBefore
    ensures Buffered(all, pending, ready, nextYield, nextSubmit) && nextYield !in ready
    ensures nextSubmit == Min(total, nextYield + workerCount)
    ensures yielded == all[..nextYield]
    ensures completed + |pending| == nextSubmit
    ensures nextYieldBefore <= nextYield
  {
    yielded, pending, ready, nextYield, nextSubmit := yieldedBefore, pendingBefore, readyBefore, nextYieldBefore, nextSubmitBefore;
    while nextYield in ready
      invariant nextYieldBefore <= nextYield && nextSubmit == Min(total, nextYield + workerCount)
      invariant Buffered(all, pending, ready, nextYield, nextSubmit)
      invariant yielded == all[..nextYield]
      invariant completed + |pending| == nextSubmit
      decreases total - nextYield
    {
      DeliveryKeepsBuffer(all, pending, ready, nextYield, nextSubmit);
      yielded, ready, nextYield := yielded + [ready[nextYield]], ready - {nextYield}, nextYield + 1;
      if nextSubmit < total {
        SubmitKeepsBuffer(all, pending, ready, nextYield, nextSubmit);
        pending, nextSubmit := pending + {nextSubmit}, nextSubmit + 1;
      }
    }
  }
}
