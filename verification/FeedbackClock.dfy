/** How far a clock may run behind the purges before the hourly limit of feedback can be exceeded. */
module FeedbackClock {
  import opened Prelude
  import opened Feedback

  /** A run of the store: its calls, their replies and the histories between them. */
  datatype Trace = Trace(hs: seq<History>, calls: seq<Call>, replies: seq<Reply>)

  ghost predicate Is(settings: Settings, t: Trace) { IsRun(settings, t.hs, t.calls, t.replies) }

  /** The limit holds in every hour of every run whose submissions are at most `lag` behind the
      purges that got the lock before them. */
  ghost predicate LimitHolds(settings: Settings, lag: int) {
    forall t: Trace, n: nat, principal, from ::
      Is(settings, t) && n <= |t.calls| && Behind(t.calls, t.replies, lag) ==>
      |Window(t.hs[n].accepted, principal, from)| <= Limit(settings)
  }

  // ---- Building a run call by call ----

  function Last(t: Trace): History
    requires t.hs != []
  {
    t.hs[|t.hs| - 1]
  }

  function Then(t: Trace, c: Call, h: History, reply: Reply): Trace {
    Trace(t.hs + [h], t.calls + [c], t.replies + [reply])
  }

  lemma OneCall(settings: Settings, t: Trace, c: Call, h: History, reply: Reply) returns (more: Trace)
    requires Is(settings, t) && HistoryStep(settings, Last(t), c, h, reply)
    ensures Is(settings, more) && Last(more) == h && more.calls == t.calls + [c]
  {
    more := Then(t, c, h, reply);
    forall i | 0 <= i < |more.calls|
      ensures HistoryStep(settings, more.hs[i], more.calls[i], more.hs[i + 1], more.replies[i])
    {
      if i < |t.calls| {
        assert HistoryStep(settings, t.hs[i], t.calls[i], t.hs[i + 1], t.replies[i]);
      }
    }
  }

  // ---- One feedback on a run of its own ----

  const SOMEONE := "p"

  /** Names of different lengths are different names. */
  function Name(k: nat): string { seq(k, i => 'x') }

  /** Only the first `k` names have been used, each for one feedback of `SOMEONE`. */
  ghost predicate Used(h: History, k: nat) {
    && h.state.nextId == |h.accepted| == k
    && (forall r :: r in h.state.runs ==> |r| < k && |h.state.runs[r].message| < k)
    && (forall id :: id in h.state.feedback ==> id < k && |h.state.feedback[id].run| < k)
    && (forall i :: 0 <= i < k ==> h.accepted[i].principal == SOMEONE)
  }

  /** The row of a finished run, and the feedback on it. */
  function RunOf(k: nat, now: int): RunRow { RunRow(Name(k), SOMEONE, "", "", Normalized("done"), true, now, Some(now)) }

  function RowOf(k: nat, now: int): FeedbackRow { FeedbackRow(Name(k), SOMEONE, Up, None, now, Pending) }

  function Round(k: nat, now: int): seq<Call> {
    [Reserve(Name(k), Name(k), SOMEONE, "", now), Finalize(Name(k), "done", "", true, now), Submit(Name(k), SOMEONE, "up", None, now)]
  }

  function AfterRound(h: History, k: nat, now: int): History {
    History(State(h.state.runs[Name(k) := RunOf(k, now)], h.state.feedback[k := RowOf(k, now)], k + 1),
            h.accepted + [RowOf(k, now)], h.purgedBelow)
  }

  lemma UpIsUp()
    ensures ParseVerdict("up") == Some(Up)
  {
    TrimIsIdempotent("up");
    assert Lower("up") == "up";
  }

  lemma ReserveStep(settings: Settings, h: History, k: nat, now: int) returns (next: History)
    requires Used(h, k)
    ensures HistoryStep(settings, h, Round(k, now)[0], next, Done)
    ensures next == h.(state := h.state.(runs := h.state.runs[Name(k) := RunRow(Name(k), SOMEONE, "", "", "running", false, now, None)]))
  {
    next := h.(state := h.state.(runs := h.state.runs[Name(k) := RunRow(Name(k), SOMEONE, "", "", "running", false, now, None)]));
    assert Free(h.state, Name(k), Name(k));
  }

  lemma FinalizeStep(settings: Settings, h: History, k: nat, now: int) returns (next: History)
    requires Name(k) in h.state.runs
    requires h.state.runs[Name(k)] == RunRow(Name(k), SOMEONE, "", "", "running", false, now, None)
    ensures HistoryStep(settings, h, Round(k, now)[1], next, Done)
    ensures next == h.(state := h.state.(runs := h.state.runs[Name(k) := RunOf(k, now)]))
  {
    next := h.(state := h.state.(runs := h.state.runs[Name(k) := RunOf(k, now)]));
  }

  lemma SubmitStep(settings: Settings, h: History, k: nat, now: int) returns (next: History)
    requires h.state.nextId == k && Name(k) in h.state.runs && h.state.runs[Name(k)] == RunOf(k, now)
    requires forall id :: id in h.state.feedback ==> |h.state.feedback[id].run| < k
    requires |Recent(h.state, SOMEONE, now - HOUR_MS)| < Limit(settings)
    ensures HistoryStep(settings, h, Round(k, now)[2], next, Created(k))
    ensures next.state == h.state.(feedback := h.state.feedback[k := RowOf(k, now)], nextId := k + 1)
    ensures next.accepted == h.accepted + [RowOf(k, now)] && next.purgedBelow == h.purgedBelow
  {
    UpIsUp();
    var c, s := Round(k, now)[2], h.state.(feedback := h.state.feedback[k := RowOf(k, now)], nextId := k + 1);
    next := History(s, h.accepted + [RowOf(k, now)], h.purgedBelow);
    assert RunFor(h.state, Name(k), Name(k));
    assert forall id :: !FeedbackOn(h.state, Name(k), id);
    assert SubmittedOn(settings, h.state, c, Name(k), s, Created(k));
  }

  lemma UsedMore(h: History, k: nat, now: int)
    requires Used(h, k)
    ensures Used(AfterRound(h, k, now), k + 1)
  {
  }

  lemma RoundIsThree(calls: seq<Call>, k: nat, now: int)
    ensures calls + [Round(k, now)[0]] + [Round(k, now)[1]] + [Round(k, now)[2]] == calls + Round(k, now)
  {
  }

  lemma TwoSteps(h0: History, h1: History, h2: History, k: nat, now: int)
    requires h1 == h0.(state := h0.state.(runs := h0.state.runs[Name(k) := RunRow(Name(k), SOMEONE, "", "", "running", false, now, None)]))
    requires h2 == h1.(state := h1.state.(runs := h1.state.runs[Name(k) := RunOf(k, now)]))
    ensures h2 == h0.(state := h0.state.(runs := h0.state.runs[Name(k) := RunOf(k, now)]))
    ensures forall cutoff :: Recent(h2.state, SOMEONE, cutoff) == Recent(h0.state, SOMEONE, cutoff)
  {
  }

  /** Reserve, finish and rate one more run. */
  lemma OneRound(settings: Settings, t: Trace, h: History, k: nat, now: int) returns (more: Trace)
    requires Is(settings, t) && Last(t) == h && Used(h, k)
    requires |Recent(h.state, SOMEONE, now - HOUR_MS)| < Limit(settings)
    ensures Is(settings, more) && more.calls == t.calls + Round(k, now)
    ensures Last(more) == AfterRound(h, k, now)
  {
    var h1 := ReserveStep(settings, h, k, now);
    var t1 := OneCall(settings, t, Round(k, now)[0], h1, Done);
    var h2 := FinalizeStep(settings, h1, k, now);
    var t2 := OneCall(settings, t1, Round(k, now)[1], h2, Done);
    TwoSteps(h, h1, h2, k, now);
    var h3 := SubmitStep(settings, h2, k, now);
    more := OneCall(settings, t2, Round(k, now)[2], h3, Created(k));
    RoundIsThree(t.calls, k, now);
  }

  // ---- As much feedback as the limit allows, all at one time ----

  ghost predicate AllAt(h: History, now: int) {
    && (forall r :: r in h.state.runs ==> h.state.runs[r].created == now)
    && (forall id :: id in h.state.feedback ==> h.state.feedback[id].created == now)
    && (forall i :: 0 <= i < |h.accepted| ==> h.accepted[i].created == now)
  }

  predicate NoPurge(calls: seq<Call>) { forall i :: 0 <= i < |calls| ==> !calls[i].Purge? }

  function Below(n: nat): set<nat> {
    if n == 0 then {} else Below(n - 1) + {n - 1}
  }

  lemma {:induction false} BelowHas(n: nat)
    ensures |Below(n)| == n
    ensures forall i: nat :: i in Below(n) <==> i < n
  {
    if n > 0 { BelowHas(n - 1); }
  }

  lemma FewRecent(h: History, k: nat, cutoff: int)
    requires Used(h, k)
    ensures |Recent(h.state, SOMEONE, cutoff)| <= k
  {
    BelowHas(k);
    SubsetSize(Recent(h.state, SOMEONE, cutoff), Below(k));
  }

  lemma OneMoreAt(h: History, k: nat, now: int, calls: seq<Call>)
    requires AllAt(h, now) && NoPurge(calls)
    ensures AllAt(AfterRound(h, k, now), now) && NoPurge(calls + Round(k, now))
  {
  }

  lemma {:induction false} Fill(settings: Settings, k: nat, now: int) returns (t: Trace, h: History)
    requires k <= Limit(settings)
    ensures Is(settings, t) && Last(t) == h && Used(h, k) && AllAt(h, now) && NoPurge(t.calls)
  {
    if k == 0 {
      t, h := Trace([START], [], []), START;
    } else {
      var before, front := Fill(settings, k - 1, now);
      FewRecent(front, k - 1, now - HOUR_MS);
      t := OneRound(settings, before, front, k - 1, now);
      h := AfterRound(front, k - 1, now);
      UsedMore(front, k - 1, now);
      OneMoreAt(front, k - 1, now, before.calls);
    }
  }

  lemma PurgeAll(settings: Settings, h: History, k: nat, made: int, now: int) returns (next: History)
    requires Used(h, k) && AllAt(h, made) && made < Cutoff(settings, now)
    ensures HistoryStep(settings, h, Purge(now), next, Done) && Used(next, k)
    ensures next.state == State(map[], map[], k) && next.accepted == h.accepted
  {
    var cutoff := Cutoff(settings, now);
    next := History(State(map[], map[], k), h.accepted, Later(h.purgedBelow, cutoff));
    assert YoungRuns(h.state, cutoff) == map[] && YoungFeedback(h.state, cutoff) == map[];
  }

  lemma WindowOfAll(accepted: seq<FeedbackRow>, from: int)
    requires forall i :: 0 <= i < |accepted| ==> accepted[i].principal == SOMEONE && from <= accepted[i].created <= from + HOUR_MS
    ensures |Window(accepted, SOMEONE, from)| == |accepted|
  {
    BelowHas(|accepted|);
    assert Window(accepted, SOMEONE, from) == Below(|accepted|);
  }

  lemma OnePurge(calls: seq<Call>, replies: seq<Reply>, front: seq<Call>, k: nat, end: int)
    requires NoPurge(front) && calls == front + [Purge(0)] + Round(k, end)
    ensures Behind(calls, replies, -end)
  {
    forall i | 0 <= i < |front| ensures !calls[i].Purge? {
      assert calls[i] == front[i];
    }
    forall i, j | 0 <= i < j < |calls| && calls[i].Purge? && calls[j].Submit? ensures calls[i].now + end <= calls[j].now {
      assert i == |front| && j == |front| + 3;
    }
  }

  /** Fill the beginning of the hour, and purge it. */
  lemma FilledAndPurged(settings: Settings, begin: int) returns (t: Trace, h: History, front: seq<Call>)
    requires begin < Cutoff(settings, 0)
    ensures Is(settings, t) && Last(t) == h && Used(h, Limit(settings)) && h.state == State(map[], map[], Limit(settings))
    ensures forall i :: 0 <= i < |h.accepted| ==> h.accepted[i].created == begin
    ensures NoPurge(front) && t.calls == front + [Purge(0)]
  {
    var full, before := Fill(settings, Limit(settings), begin);
    h := PurgeAll(settings, before, Limit(settings), begin, 0);
    t := OneCall(settings, full, Purge(0), h, Done);
    front := full.calls;
  }

  lemma NothingRecent(s: State, cutoff: int)
    requires s.feedback == map[]
    ensures |Recent(s, SOMEONE, cutoff)| == 0
  {
    assert Recent(s, SOMEONE, cutoff) == {};
  }

  lemma OneTooMany(accepted: seq<FeedbackRow>, k: nat, begin: int, end: int, more: seq<FeedbackRow>)
    requires |accepted| == k && end == begin + HOUR_MS && more == accepted + [RowOf(k, end)]
    requires forall i :: 0 <= i < k ==> accepted[i].principal == SOMEONE && accepted[i].created == begin
    ensures |Window(more, SOMEONE, begin)| == k + 1
  {
    WindowOfAll(more, begin);
  }

  lemma OneMoreAtTheEnd(settings: Settings, purged: Trace, empty: History, front: seq<Call>, begin: int, end: int)
    returns (t: Trace, accepted: seq<FeedbackRow>)
    requires Is(settings, purged) && Last(purged) == empty && end == begin + HOUR_MS
    requires Used(empty, Limit(settings)) && empty.state == State(map[], map[], Limit(settings))
    requires forall i :: 0 <= i < |empty.accepted| ==> empty.accepted[i].created == begin
    requires NoPurge(front) && purged.calls == front + [Purge(0)]
    ensures Is(settings, t) && Last(t).accepted == accepted && Behind(t.calls, t.replies, -end)
    ensures |Window(accepted, SOMEONE, begin)| == Limit(settings) + 1
  {
    var limit := Limit(settings);
    NothingRecent(empty.state, end - HOUR_MS);
    t := OneRound(settings, purged, empty, limit, end);
    accepted := empty.accepted + [RowOf(limit, end)];
    OneTooMany(empty.accepted, limit, begin, end, accepted);
    OnePurge(t.calls, t.replies, front, limit, end);
  }

  /** Beyond the slack the limit can be exceeded: what was accepted at the beginning of the hour is
      purged, and then one more is accepted at its end. */
  lemma LimitCanBeExceeded(settings: Settings, lag: int) returns (t: Trace, accepted: seq<FeedbackRow>)
    requires lag > Slack(settings)
    ensures Is(settings, t) && Last(t).accepted == accepted && Behind(t.calls, t.replies, lag)
    ensures |Window(accepted, SOMEONE, -lag - HOUR_MS)| == Limit(settings) + 1
  {
    var begin := -lag - HOUR_MS;
    var purged, empty, front := FilledAndPurged(settings, begin);
    t, accepted := OneMoreAtTheEnd(settings, purged, empty, front, begin, -lag);
  }

  /** The limit holds for such clocks if and only if the lag is within the slack that the
      retention leaves, which is never less than 23 hours. */
  lemma LimitHoldsIff(settings: Settings, lag: int)
    ensures LimitHolds(settings, lag) <==> lag <= Slack(settings)
    ensures Slack(settings) >= 23 * HOUR_MS
  {
    if lag <= Slack(settings) {
      forall t: Trace, n: nat, principal, from | Is(settings, t) && n <= |t.calls| && Behind(t.calls, t.replies, lag)
        ensures |Window(t.hs[n].accepted, principal, from)| <= Limit(settings)
      {
        FeedbackIsFair(settings, t.hs, t.calls, t.replies, n, principal, from);
      }
    } else {
      var t, accepted := LimitCanBeExceeded(settings, lag);
      var n: nat := |t.calls|;
      assert t.hs[n].accepted == accepted;
    }
  }
}
