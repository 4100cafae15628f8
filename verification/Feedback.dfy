/** The quality store: reserved runs, feedback on them, and what stays true over all its calls. */
module Feedback {
  import opened Prelude

  const HOUR_MS: int := 3600000
  const DAY_MS: int := 86400000

  /** A run of the assistant; `finalized` is set once, when it ends. */
  datatype RunRow = RunRow(
    message: string,
    principal: string,
    query: string,
    answer: string,
    terminal: string,
    eligible: bool,
    created: int,
    finalized: Option<int>)

  datatype Verdict = Up | Down

  datatype Review = Pending | Accepted | Rejected

  datatype FeedbackRow = FeedbackRow(run: string, principal: string, verdict: Verdict, reason: Option<string>, created: int, review: Review)

  /** The two tables; ids are never used twice. */
  datatype State = State(runs: map<string, RunRow>, feedback: map<nat, FeedbackRow>, nextId: nat)

  datatype Settings = Settings(retentionDays: int, limitPerHour: int)

  function RetentionMs(c: Settings): int { (if c.retentionDays < 1 then 1 else c.retentionDays) * DAY_MS }

  function Limit(c: Settings): nat { if c.limitPerHour < 1 then 1 else c.limitPerHour }

  const REASONS := {"not_accurate", "missing_source", "wrong_source", "refusal_unexpected", "latency", "irrelevant", "unsafe", "other"}
  const TERMINALS := {"done", "error", "interrupted", "unknown"}

  datatype Call =
    | Reserve(run: string, message: string, principal: string, query: string, now: int)
    | Finalize(run: string, terminal: string, answer: string, eligible: bool, now: int)
    | Submit(message: string, principal: string, verdict: string, reason: Option<string>, now: int)
    | ReviewOne(id: nat, accept: bool)
    | Purge(now: int)

  datatype Reply = Done | Refused | Created(id: nat) | Idempotent(id: nat) | NotFound | Ineligible | Forbidden | Conflict | RateLimited

  // ---- One call ----

  predicate Free(s: State, run: string, message: string) {
    run !in s.runs && forall r :: r in s.runs ==> s.runs[r].message != message
  }

  function Normalized(terminal: string): string {
    var t := Lower(Trim(OrUnknown(terminal)));
    if t in TERMINALS then t else "unknown"
  }

  function OrUnknown(terminal: string): string { if terminal == "" then "unknown" else terminal }

  function ParseVerdict(verdict: string): Option<Verdict> {
    var v := Lower(Trim(verdict));
    if v == "up" then Some(Up) else if v == "down" then Some(Down) else None
  }

  predicate Running(s: State, run: string) { run in s.runs && s.runs[run].terminal == "running" }

  /** The run a message belongs to. */
  ghost predicate RunFor(s: State, message: string, run: string) { run in s.runs && s.runs[run].message == message }

  /** The feedback given on a run. */
  ghost predicate FeedbackOn(s: State, run: string, id: nat) { id in s.feedback && s.feedback[id].run == run }

  /** Feedback rows of a principal from `cutoff` on. */
  function Recent(s: State, principal: string, cutoff: int): set<nat> {
    set id | id in s.feedback && s.feedback[id].principal == principal && s.feedback[id].created >= cutoff
  }

  ghost predicate Reserved(s: State, c: Call, s': State, reply: Reply)
    requires c.Reserve?
  {
    if Free(s, c.run, c.message) then
      reply == Done && s' == s.(runs := s.runs[c.run := RunRow(c.message, c.principal, c.query, "", "running", false, c.now, None)])
    else reply == Refused && s' == s
  }

  ghost predicate Finalized(s: State, c: Call, s': State, reply: Reply)
    requires c.Finalize?
  {
    if Running(s, c.run) then
      var row := s.runs[c.run].(answer := c.answer, terminal := Normalized(c.terminal), eligible := c.eligible, finalized := Some(c.now));
      reply == Done && s' == s.(runs := s.runs[c.run := row])
    else reply == Refused && s' == s
  }

  /** What a well-formed submission says. */
  function VerdictOf(c: Call): Verdict
    requires c.Submit? && WellFormed(c)
  {
    if Lower(Trim(c.verdict)) == "up" then Up else Down
  }

  function NewRow(run: string, c: Call, verdict: Verdict): FeedbackRow
    requires c.Submit?
  {
    FeedbackRow(run, c.principal, verdict, if verdict == Up then None else c.reason, c.now, Pending)
  }

  predicate WellFormed(c: Call)
    requires c.Submit?
  {
    var v := Lower(Trim(c.verdict));
    v == "up" || (v == "down" && c.reason.Some? && c.reason.value in REASONS)
  }

  ghost predicate Submitted(settings: Settings, s: State, c: Call, s': State, reply: Reply)
    requires c.Submit?
  {
    if !WellFormed(c) then reply == Refused && s' == s
    else if forall run :: !RunFor(s, c.message, run) then reply == NotFound && s' == s
    else exists run :: RunFor(s, c.message, run) && SubmittedOn(settings, s, c, run, s', reply)
  }

  /** The checks in their order: eligible, own, not yet given, not too many within the hour. */
  ghost predicate SubmittedOn(settings: Settings, s: State, c: Call, run: string, s': State, reply: Reply)
    requires c.Submit? && run in s.runs && WellFormed(c)
  {
    var verdict := VerdictOf(c);
    if !s.runs[run].eligible then reply == Ineligible && s' == s
    else if s.runs[run].principal != c.principal then reply == Forbidden && s' == s
    else if exists id :: FeedbackOn(s, run, id) then s' == s && Repeats(s, run, verdict, reply)
    else if |Recent(s, c.principal, c.now - HOUR_MS)| >= Limit(settings) then reply == RateLimited && s' == s
    else
      && reply == Created(s.nextId)
      && s' == s.(feedback := s.feedback[s.nextId := NewRow(run, c, verdict)], nextId := s.nextId + 1)
  }

  /** A second feedback on a run: the same verdict again, or the opposite one. */
  ghost predicate Repeats(s: State, run: string, verdict: Verdict, reply: Reply) {
    exists id :: FeedbackOn(s, run, id) && reply == if s.feedback[id].verdict == verdict then Idempotent(id) else Conflict
  }

  ghost predicate Reviewed(s: State, c: Call, s': State, reply: Reply)
    requires c.ReviewOne?
  {
    if c.id in s.feedback && s.feedback[c.id].review == Pending then
      reply == Done && s' == s.(feedback := s.feedback[c.id := s.feedback[c.id].(review := if c.accept then Accepted else Rejected)])
    else reply == Refused && s' == s
  }

  function Cutoff(settings: Settings, now: int): int { now - RetentionMs(settings) }

  function YoungFeedback(s: State, cutoff: int): map<nat, FeedbackRow> {
    map id | id in s.feedback && s.feedback[id].created >= cutoff :: s.feedback[id]
  }

  function YoungRuns(s: State, cutoff: int): map<string, RunRow> {
    map r | r in s.runs && s.runs[r].created >= cutoff :: s.runs[r]
  }

  /** Some feedback that stays refers to a run that would go: the foreign key forbids it. */
  ghost predicate Blocked(s: State, cutoff: int) {
    exists id :: id in YoungFeedback(s, cutoff) && s.feedback[id].run !in YoungRuns(s, cutoff)
  }

  ghost predicate Purged(settings: Settings, s: State, c: Call, s': State, reply: Reply)
    requires c.Purge?
  {
    var cutoff := Cutoff(settings, c.now);
    if Blocked(s, cutoff) then reply == Refused && s' == s
    else reply == Done && s' == State(YoungRuns(s, cutoff), YoungFeedback(s, cutoff), s.nextId)
  }

  ghost predicate Step(settings: Settings, s: State, c: Call, s': State, reply: Reply) {
    match c
    case Reserve(_, _, _, _, _) => Reserved(s, c, s', reply)
    case Finalize(_, _, _, _, _) => Finalized(s, c, s', reply)
    case Submit(_, _, _, _, _) => Submitted(settings, s, c, s', reply)
    case ReviewOne(_, _) => Reviewed(s, c, s', reply)
    case Purge(_) => Purged(settings, s, c, s', reply)
  }

  // ---- What every call keeps ----

  predicate BelongsTo(runs: map<string, RunRow>, f: FeedbackRow) {
    f.run in runs && runs[f.run].eligible && runs[f.run].principal == f.principal
  }

  ghost predicate AllBelong(s: State) {
    forall id :: id in s.feedback ==> id < s.nextId && BelongsTo(s.runs, s.feedback[id])
  }

  ghost predicate OnePerRun(feedback: map<nat, FeedbackRow>) {
    forall i, j :: i in feedback && j in feedback && i != j ==> feedback[i].run != feedback[j].run
  }

  ghost predicate MessagesUnique(runs: map<string, RunRow>) {
    forall r, q :: r in runs && q in runs && r != q ==> runs[r].message != runs[q].message
  }

  ghost predicate EligibleAreFinished(runs: map<string, RunRow>) {
    forall r :: r in runs && runs[r].terminal == "running" ==> !runs[r].eligible
  }

  /** Feedback belongs to an eligible, finished run of the same principal; one per run, and
      messages name runs uniquely. */
  ghost predicate Sound(s: State) {
    AllBelong(s) && OnePerRun(s.feedback) && MessagesUnique(s.runs) && EligibleAreFinished(s.runs)
  }

  lemma NormalizedIsFinal(terminal: string)
    ensures Normalized(terminal) in TERMINALS && Normalized(terminal) != "running"
  {
  }

  /** The known endings are kept as they are, however they are spelled; anything else is "unknown". */
  lemma KnownEndingsAreKept(terminal: string, known: string)
    requires known in TERMINALS && Lower(Trim(terminal)) == known
    ensures Normalized(terminal) == known
  {
    assert Trim("") == "" && Lower("") == "";
  }

  lemma FinalizeKeepsSound(s: State, c: Call, s': State, reply: Reply)
    requires Sound(s) && c.Finalize? && Finalized(s, c, s', reply)
    ensures Sound(s')
  {
    NormalizedIsFinal(c.terminal);
  }

  lemma SubmitKeepsSound(settings: Settings, s: State, c: Call, s': State, reply: Reply)
    requires Sound(s) && c.Submit? && Submitted(settings, s, c, s', reply)
    ensures Sound(s')
  {
    if s' != s {
      var run :| RunFor(s, c.message, run) && SubmittedOn(settings, s, c, run, s', reply);
      forall id | id in s.feedback ensures s.feedback[id].run != run {
        assert !FeedbackOn(s, run, id);
      }
      FirstOnItsRun(s, NewRow(run, c, VerdictOf(c)), s');
    }
  }

  lemma FirstOnItsRun(s: State, f: FeedbackRow, s': State)
    requires Sound(s) && BelongsTo(s.runs, f) && forall id :: id in s.feedback ==> s.feedback[id].run != f.run
    requires s' == s.(feedback := s.feedback[s.nextId := f], nextId := s.nextId + 1)
    ensures Sound(s')
  {
  }

  lemma PurgeKeepsSound(settings: Settings, s: State, c: Call, s': State, reply: Reply)
    requires Sound(s) && c.Purge? && Purged(settings, s, c, s', reply)
    ensures Sound(s')
  {
    var cutoff := Cutoff(settings, c.now);
    if s' != s {
      forall id | id in s'.feedback ensures id < s'.nextId && BelongsTo(s'.runs, s'.feedback[id]) {
        assert id in YoungFeedback(s, cutoff) && BelongsTo(s.runs, s.feedback[id]);
      }
    }
  }

  /** The retention is the configured number of days, one at least; what is younger is kept, and
      what is not goes with the first purge that is not refused. */
  lemma PurgeKeepsTheRetention(settings: Settings, s: State, c: Call, s': State, days: int)
    requires c.Purge? && Purged(settings, s, c, s', Done)
    requires days == 1 || days == settings.retentionDays
    requires days >= 1 && days >= settings.retentionDays
    ensures forall run :: run in s'.runs <==> run in s.runs && c.now - s.runs[run].created <= days * 24 * 3600000
    ensures forall id :: id in s'.feedback <==> id in s.feedback && c.now - s.feedback[id].created <= days * 24 * 3600000
    ensures forall run :: run in s'.runs ==> s'.runs[run] == s.runs[run]
    ensures forall id :: id in s'.feedback ==> s'.feedback[id] == s.feedback[id]
  {
    assert Cutoff(settings, c.now) == c.now - days * 24 * 3600000;
  }

  lemma StepKeepsSound(settings: Settings, s: State, c: Call, s': State, reply: Reply)
    requires Sound(s) && Step(settings, s, c, s', reply)
    ensures Sound(s')
  {
    match c
    case Finalize(_, _, _, _, _) => FinalizeKeepsSound(s, c, s', reply);
    case Submit(_, _, _, _, _) => SubmitKeepsSound(settings, s, c, s', reply);
    case Purge(_) => PurgeKeepsSound(settings, s, c, s', reply);
    case _ =>
  }

  /** A finished run stays exactly as it is, unless it is purged for its age. */
  lemma FinishedRunsStay(settings: Settings, s: State, c: Call, s': State, reply: Reply, run: string)
    requires Step(settings, s, c, s', reply) && run in s.runs && s.runs[run].terminal != "running"
    ensures run in s'.runs ==> s'.runs[run] == s.runs[run]
    ensures run !in s'.runs ==> c.Purge? && s.runs[run].created < Cutoff(settings, c.now)
  {
  }

  // ---- Runs of the store, with everything that was ever accepted ----

  /** `accepted` keeps every feedback ever created, by id; `purgedBelow` the latest cutoff of a purge. */
  datatype History = History(state: State, accepted: seq<FeedbackRow>, purgedBelow: Option<int>)

  const START := History(State(map[], map[], 0), [], None)

  function Later(a: Option<int>, b: int): Option<int> {
    match a
    case None => Some(b)
    case Some(x) => Some(if x > b then x else b)
  }

  ghost predicate HistoryStep(settings: Settings, h: History, c: Call, h': History, reply: Reply) {
    && Step(settings, h.state, c, h'.state, reply)
    && h'.accepted == (if h'.state.nextId == h.state.nextId + 1 && h.state.nextId in h'.state.feedback
                       then h.accepted + [h'.state.feedback[h.state.nextId]] else h.accepted)
    && h'.purgedBelow == (if c.Purge? && reply == Done then Later(h.purgedBelow, Cutoff(settings, c.now)) else h.purgedBelow)
  }

  /** The hour before a submission has not been purged. */
  predicate InTime(h: History, c: Call) {
    c.Submit? && h.purgedBelow.Some? ==> c.now - HOUR_MS >= h.purgedBelow.value
  }

  predicate SameFeedback(a: FeedbackRow, b: FeedbackRow) { a.run == b.run && a.principal == b.principal && a.created == b.created }

  ghost predicate TableIsRecent(h: History) {
    && |h.accepted| == h.state.nextId
    && (forall id :: id in h.state.feedback ==> id < |h.accepted| && SameFeedback(h.state.feedback[id], h.accepted[id]))
    && (forall id :: 0 <= id < |h.accepted| && (h.purgedBelow.Some? ==> h.accepted[id].created >= h.purgedBelow.value) ==> id in h.state.feedback)
  }

  /** The accepted feedback of a principal in the hour that begins at `from`, ends included. */
  function Window(accepted: seq<FeedbackRow>, principal: string, from: int): set<nat> {
    set i: nat | i < |accepted| && accepted[i].principal == principal && from <= accepted[i].created <= from + HOUR_MS
  }

  ghost predicate WithinLimit(settings: Settings, accepted: seq<FeedbackRow>) {
    forall p, t :: |Window(accepted, p, t)| <= Limit(settings)
  }

  lemma {:induction false} SubsetSize(a: set<nat>, b: set<nat>)
    requires a <= b
    ensures |a| <= |b|
  {
    if a != {} {
      var x := Pick(a);
      SubsetSize(a - {x}, b - {x});
    }
  }

  ghost function Pick<T>(s: set<T>): (x: T)
    requires s != {}
    ensures x in s
  {
    var x :| x in s; x
  }

  /** What falls into an hour together with a new feedback was counted when that was accepted. */
  lemma WindowWasCounted(h: History, principal: string, from: int, now: int)
    requires TableIsRecent(h) && (h.purgedBelow.Some? ==> now - HOUR_MS >= h.purgedBelow.value)
    requires from <= now <= from + HOUR_MS
    ensures |Window(h.accepted, principal, from)| <= |Recent(h.state, principal, now - HOUR_MS)|
  {
    SubsetSize(Window(h.accepted, principal, from), Recent(h.state, principal, now - HOUR_MS));
  }

  lemma WindowOfMore(accepted: seq<FeedbackRow>, f: FeedbackRow, principal: string, from: int)
    ensures Window(accepted + [f], principal, from) ==
      Window(accepted, principal, from) + if f.principal == principal && from <= f.created <= from + HOUR_MS then {|accepted|} else {}
  {
  }

  lemma AcceptKeepsLimit(settings: Settings, h: History, f: FeedbackRow)
    requires TableIsRecent(h) && WithinLimit(settings, h.accepted)
    requires h.purgedBelow.Some? ==> f.created - HOUR_MS >= h.purgedBelow.value
    requires |Recent(h.state, f.principal, f.created - HOUR_MS)| < Limit(settings)
    ensures WithinLimit(settings, h.accepted + [f])
  {
    forall p, t ensures |Window(h.accepted + [f], p, t)| <= Limit(settings) {
      WindowOfMore(h.accepted, f, p, t);
      if f.principal == p && t <= f.created <= t + HOUR_MS { WindowWasCounted(h, p, t, f.created); }
    }
  }

  ghost predicate Inv(settings: Settings, h: History) {
    Sound(h.state) && TableIsRecent(h) && WithinLimit(settings, h.accepted)
  }

  /** A submission that changed something added one row, within the caller's hour. */
  lemma SubmitAdds(settings: Settings, s: State, c: Call, s': State, reply: Reply) returns (f: FeedbackRow)
    requires c.Submit? && Submitted(settings, s, c, s', reply) && s' != s
    ensures s' == s.(feedback := s.feedback[s.nextId := f], nextId := s.nextId + 1)
    ensures f.principal == c.principal && f.created == c.now
    ensures |Recent(s, f.principal, f.created - HOUR_MS)| < Limit(settings)
  {
    var run :| RunFor(s, c.message, run) && SubmittedOn(settings, s, c, run, s', reply);
    f := NewRow(run, c, VerdictOf(c));
  }

  lemma AddedIsRecent(h: History, f: FeedbackRow, h': History)
    requires TableIsRecent(h) && h'.accepted == h.accepted + [f] && h'.purgedBelow == h.purgedBelow
    requires h'.state == h.state.(feedback := h.state.feedback[h.state.nextId := f], nextId := h.state.nextId + 1)
    ensures TableIsRecent(h')
  {
  }

  lemma SubmitKeepsInv(settings: Settings, h: History, c: Call, h': History, reply: Reply)
    requires Inv(settings, h) && c.Submit? && HistoryStep(settings, h, c, h', reply) && InTime(h, c)
    ensures TableIsRecent(h') && WithinLimit(settings, h'.accepted)
  {
    if h'.state != h.state {
      var f := SubmitAdds(settings, h.state, c, h'.state, reply);
      AcceptKeepsLimit(settings, h, f);
      AddedIsRecent(h, f, h');
    } else {
      assert h' == h;
    }
  }

  lemma HistoryStepKeepsInv(settings: Settings, h: History, c: Call, h': History, reply: Reply)
    requires Inv(settings, h) && HistoryStep(settings, h, c, h', reply) && InTime(h, c)
    ensures Inv(settings, h')
  {
    StepKeepsSound(settings, h.state, c, h'.state, reply);
    if c.Submit? {
      SubmitKeepsInv(settings, h, c, h', reply);
    } else {
      assert h'.accepted == h.accepted;
    }
  }

  ghost predicate IsRun(settings: Settings, hs: seq<History>, calls: seq<Call>, replies: seq<Reply>) {
    && |hs| == |calls| + 1 == |replies| + 1 && hs[0] == START
    && forall i :: 0 <= i < |calls| ==> HistoryStep(settings, hs[i], calls[i], hs[i + 1], replies[i])
  }

  /** Whatever the clock does. */
  lemma {:induction false} RunKeepsSound(settings: Settings, hs: seq<History>, calls: seq<Call>, replies: seq<Reply>, n: nat)
    requires IsRun(settings, hs, calls, replies) && n <= |calls|
    ensures Sound(hs[n].state)
  {
    if n > 0 {
      RunKeepsSound(settings, hs, calls, replies, n - 1);
      StepKeepsSound(settings, hs[n - 1].state, calls[n - 1], hs[n].state, replies[n - 1]);
    }
  }

  /** No submission carries a time more than `lag` before that of a purge carried out before it. */
  ghost predicate Behind(calls: seq<Call>, replies: seq<Reply>, lag: int) {
    forall i, j :: 0 <= i < j < |calls| && i < |replies| && calls[i].Purge? && replies[i] == Done && calls[j].Submit? ==>
      calls[i].now - lag <= calls[j].now
  }

  /** What the retention leaves of it: 23 hours for the least retention. */
  function Slack(settings: Settings): int { RetentionMs(settings) - HOUR_MS }

  /** Everything purged so far was purged by some call. */
  lemma {:induction false} SomePurge(settings: Settings, hs: seq<History>, calls: seq<Call>, replies: seq<Reply>, n: nat)
    requires IsRun(settings, hs, calls, replies) && n <= |calls|
    ensures hs[n].purgedBelow.Some? ==>
      exists i :: 0 <= i < n && calls[i].Purge? && replies[i] == Done && hs[n].purgedBelow.value == Cutoff(settings, calls[i].now)
  {
    if n > 0 { SomePurge(settings, hs, calls, replies, n - 1); }
  }

  /** With such a clock the hour before a submission is still in the table. */
  lemma ClockIsInTime(settings: Settings, hs: seq<History>, calls: seq<Call>, replies: seq<Reply>, n: nat)
    requires IsRun(settings, hs, calls, replies) && n < |calls| && Behind(calls, replies, Slack(settings))
    ensures InTime(hs[n], calls[n])
  {
    SomePurge(settings, hs, calls, replies, n);
  }

  lemma {:induction false} RunKeepsInv(settings: Settings, hs: seq<History>, calls: seq<Call>, replies: seq<Reply>, n: nat)
    requires IsRun(settings, hs, calls, replies) && n <= |calls|
    requires forall i :: 0 <= i < n ==> InTime(hs[i], calls[i])
    ensures Inv(settings, hs[n])
  {
    if n == 0 {
      assert forall p, t :: Window([], p, t) == {};
    } else {
      RunKeepsInv(settings, hs, calls, replies, n - 1);
      HistoryStepKeepsInv(settings, hs[n - 1], calls[n - 1], hs[n], replies[n - 1]);
    }
  }

  /** Over every run of the store, purges included: feedback in the table is on an eligible run of
      its principal, one per run.  If the hour before each submission had not been purged then, no
      principal has had more accepted in any hour than the limit. */
  lemma LimitHoldsInTime(settings: Settings, hs: seq<History>, calls: seq<Call>, replies: seq<Reply>, n: nat, principal: string, from: int)
    requires IsRun(settings, hs, calls, replies) && n <= |calls|
    ensures forall id :: id in hs[n].state.feedback ==> BelongsTo(hs[n].state.runs, hs[n].state.feedback[id])
    ensures OnePerRun(hs[n].state.feedback)
    ensures (forall i :: 0 <= i < n ==> InTime(hs[i], calls[i])) ==> |Window(hs[n].accepted, principal, from)| <= Limit(settings)
  {
    RunKeepsSound(settings, hs, calls, replies, n);
    if forall i :: 0 <= i < n ==> InTime(hs[i], calls[i]) { RunKeepsInv(settings, hs, calls, replies, n); }
  }

  /** The same of the calls alone: submissions may carry times up to the slack behind purges that
      got the lock before them. */
  lemma FeedbackIsFair(settings: Settings, hs: seq<History>, calls: seq<Call>, replies: seq<Reply>, n: nat, principal: string, from: int)
    requires IsRun(settings, hs, calls, replies) && n <= |calls| && Behind(calls, replies, Slack(settings))
    ensures forall id :: id in hs[n].state.feedback ==> BelongsTo(hs[n].state.runs, hs[n].state.feedback[id])
    ensures OnePerRun(hs[n].state.feedback)
    ensures |Window(hs[n].accepted, principal, from)| <= Limit(settings)
  {
    forall i | 0 <= i < n { ClockIsInTime(settings, hs, calls, replies, i); }
    LimitHoldsInTime(settings, hs, calls, replies, n, principal, from);
  }

  /** Over every run, what a finished run says never changes; it can only be purged. */
  lemma {:induction false} FinishedForGood(settings: Settings, hs: seq<History>, calls: seq<Call>, replies: seq<Reply>, i: nat, j: nat, run: string)
    requires IsRun(settings, hs, calls, replies) && i <= j <= |calls|
    requires run in hs[i].state.runs && hs[i].state.runs[run].terminal != "running"
    requires forall k :: i <= k <= j ==> run in hs[k].state.runs
    ensures hs[j].state.runs[run] == hs[i].state.runs[run]
    decreases j - i
  {
    if i < j {
      FinishedForGood(settings, hs, calls, replies, i, j - 1, run);
      FinishedRunsStay(settings, hs[j - 1].state, calls[j - 1], hs[j].state, replies[j - 1], run);
    }
  }

  // ---- The code ----

  class QualityService {
    const settings: Settings
    var runs: map<string, RunRow>
    var feedback: map<nat, FeedbackRow>
    var nextId: nat

    function Value(): State
      reads this
    {
      State(runs, feedback, nextId)
    }

    constructor (settings: Settings)
      ensures Value() == START.state && this.settings == settings
    {
      this.settings, runs, feedback, nextId := settings, map[], map[], 0;
    }

    method ReserveRun(run: string, message: string, principal: string, query: string, now: int) returns (reply: Reply)
      modifies `runs
      ensures Step(settings, old(Value()), Reserve(run, message, principal, query, now), Value(), reply)
    {
      if run in runs || exists r :: r in runs && runs[r].message == message { return Refused; }
      runs := runs[run := RunRow(message, principal, query, "", "running", false, now, None)];
      reply := Done;
    }

    method FinalizeRun(run: string, terminal: string, answer: string, eligible: bool, now: int) returns (reply: Reply)
      modifies `runs
      ensures Step(settings, old(Value()), Finalize(run, terminal, answer, eligible, now), Value(), reply)
    {
      var t := Normalized(terminal);
      if run !in runs || runs[run].terminal != "running" { return Refused; }
      runs := runs[run := runs[run].(answer := answer, terminal := t, eligible := eligible, finalized := Some(now))];
      reply := Done;
    }

    method SubmitFeedback(message: string, principal: string, verdict: string, reason: Option<string>, now: int) returns (reply: Reply)
      modifies `feedback, `nextId
      ensures Step(settings, old(Value()), Submit(message, principal, verdict, reason, now), Value(), reply)
    {
      ghost var s, c := Value(), Submit(message, principal, verdict, reason, now);
      var v := ParseVerdict(verdict);
      if v.None? { return Refused; }
      if v == Some(Down) && (reason.None? || reason.value !in REASONS) { return Refused; }
      if run :| run in runs && runs[run].message == message {
        reply := SubmitOn(run, principal, v.value, reason, now, c);
        assert RunFor(s, message, run) && SubmittedOn(settings, s, c, run, Value(), reply);
      } else {
        reply := NotFound;
      }
    }

    method SubmitOn(run: string, principal: string, v: Verdict, reason: Option<string>, now: int, ghost c: Call) returns (reply: Reply)
      requires run in runs && c.Submit? && c.principal == principal && c.now == now && c.reason == reason
      requires WellFormed(c) && VerdictOf(c) == v
      modifies `feedback, `nextId
      ensures SubmittedOn(settings, old(Value()), c, run, Value(), reply)
    {
      ghost var s := Value();
      var row := runs[run];
      if !row.eligible { return Ineligible; }
      if row.principal != principal { return Forbidden; }
      if id :| id in feedback && feedback[id].run == run {
        assert FeedbackOn(s, run, id);
        return if feedback[id].verdict == v then Idempotent(id) else Conflict;
      }
      assert forall id :: !FeedbackOn(s, run, id);
      var recent := set id | id in feedback && feedback[id].principal == principal && feedback[id].created >= now - HOUR_MS;
      assert recent == Recent(s, principal, now - HOUR_MS);
      if |recent| >= Limit(settings) { return RateLimited; }
      reply := Created(nextId);
      feedback := feedback[nextId := FeedbackRow(run, principal, v, if v == Up then None else reason, now, Pending)];
      nextId := nextId + 1;
    }

    method ReviewFeedback(id: nat, accept: bool) returns (reply: Reply)
      modifies `feedback
      ensures Step(settings, old(Value()), ReviewOne(id, accept), Value(), reply)
    {
      if id !in feedback || feedback[id].review != Pending { return Refused; }
      feedback := feedback[id := feedback[id].(review := if accept then Accepted else Rejected)];
      reply := Done;
    }

    /** One transaction: the foreign key may refuse the second deletion and roll back the first. */
    method PurgeExpired(now: int) returns (reply: Reply)
      modifies `runs, `feedback
      ensures Step(settings, old(Value()), Purge(now), Value(), reply)
    {
      ghost var s := Value();
      var cutoff := Cutoff(settings, now);
      var before := feedback;
      feedback := map id | id in feedback && feedback[id].created >= cutoff :: feedback[id];
      assert feedback == YoungFeedback(s, cutoff);
      var keptRuns := map r | r in runs && runs[r].created >= cutoff :: runs[r];
      assert keptRuns == YoungRuns(s, cutoff);
      if exists id :: id in feedback && feedback[id].run !in keptRuns {
        feedback := before;
        return Refused;
      }
      runs := keptRuns;
      reply := Done;
    }
  }
}
