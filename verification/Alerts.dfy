/** Operational alerts: what a sequence of health-check runs writes to the alert log. */
module Alerts {
  import opened Prelude

  const COOLDOWN_SECONDS: int := 1800

  /** A hash of the check's name and the time its incident began, taken as injective. */
  datatype AlertId = AlertId(check: string, firstActive: int)

  datatype Entry = Alert(time: int, check: string, id: AlertId) | Recovery(time: int, check: string, id: AlertId)

  /** What is stored for a check that was critical in the last run. */
  datatype Prior = Prior(firstActive: int, lastNotified: int, id: AlertId)

  datatype Check = Check(name: string, critical: bool)

  /** One run of the checks: its time, and the names of the critical ones. */
  datatype Run = Run(time: int, active: set<string>)

  // ---- The specification: incidents ----

  datatype Incident = Incident(id: AlertId, alerts: seq<int>, recovered: Option<int>)

  predicate IsOpen(incidents: seq<Incident>) {
    incidents != [] && incidents[|incidents| - 1].recovered.None? && incidents[|incidents| - 1].alerts != []
  }

  function LastAlert(incidents: seq<Incident>): int
    requires IsOpen(incidents)
  {
    var i := incidents[|incidents| - 1];
    i.alerts[|i.alerts| - 1]
  }

  /** The incidents of one check: critical runs open or continue one, another run closes it. */
  function Incidents(name: string, runs: seq<Run>): seq<Incident>
    decreases |runs|
  {
    if runs == [] then []
    else OneRun(name, Incidents(name, runs[..|runs| - 1]), runs[|runs| - 1])
  }

  function OneRun(name: string, before: seq<Incident>, r: Run): seq<Incident> {
    if !IsOpen(before) then
      if name in r.active then before + [Incident(AlertId(name, r.time), [r.time], None)] else before
    else
      var front, last := before[..|before| - 1], before[|before| - 1];
      if name !in r.active then front + [last.(recovered := Some(r.time))]
      else if r.time - LastAlert(before) >= COOLDOWN_SECONDS then front + [last.(alerts := last.alerts + [r.time])]
      else before
  }

  predicate Increasing(runs: seq<Run>) { forall i, j :: 0 <= i < j < |runs| ==> runs[i].time < runs[j].time }

  /** Alerts of one incident keep their distance; the first is at its beginning, and its id says so. */
  predicate SoundIncident(name: string, i: Incident) {
    && i.alerts != [] && i.id == AlertId(name, i.alerts[0])
    && (forall k :: 0 < k < |i.alerts| ==> i.alerts[k] - i.alerts[k - 1] >= COOLDOWN_SECONDS)
    && (i.recovered.Some? ==> i.alerts[|i.alerts| - 1] < i.recovered.value)
  }

  /** Incidents follow one another: each but the last is over before the next begins. */
  ghost predicate SoundHistory(name: string, incidents: seq<Incident>) {
    && (forall k :: 0 <= k < |incidents| ==> SoundIncident(name, incidents[k]))
    && (forall k :: 0 <= k < |incidents| - 1 ==> Closed(incidents[k], incidents[k + 1]))
  }

  predicate Closed(i: Incident, next: Incident) {
    i.recovered.Some? && next.alerts != [] && i.recovered.value < next.alerts[0]
  }

  /** The latest moment a history speaks of. */
  predicate UpTo(incidents: seq<Incident>, now: int) {
    incidents != [] ==>
      var last := incidents[|incidents| - 1];
      (last.alerts != [] ==> last.alerts[|last.alerts| - 1] <= now) && (last.recovered.Some? ==> last.recovered.value <= now)
  }

  lemma NextIncident(name: string, before: seq<Incident>, i: Incident)
    requires SoundHistory(name, before) && SoundIncident(name, i)
    requires before != [] ==> Closed(before[|before| - 1], i)
    ensures SoundHistory(name, before + [i])
  {
    var after := before + [i];
    forall k | 0 <= k < |after| - 1 ensures Closed(after[k], after[k + 1]) {
      if k < |before| - 1 { assert Closed(before[k], before[k + 1]); }
    }
  }

  lemma LastIncident(name: string, before: seq<Incident>, i: Incident)
    requires SoundHistory(name, before) && before != [] && SoundIncident(name, i)
    requires i.alerts[0] == before[|before| - 1].alerts[0]
    ensures SoundHistory(name, before[..|before| - 1] + [i])
  {
    var front := before[..|before| - 1];
    forall k | 0 <= k < |front| - 1 ensures Closed(front[k], front[k + 1]) {
      assert Closed(before[k], before[k + 1]);
    }
    if front != [] { assert Closed(before[|front| - 1], before[|front|]); }
    NextIncident(name, front, i);
  }

  lemma OneRunKeepsSound(name: string, before: seq<Incident>, r: Run, earlier: int)
    requires SoundHistory(name, before) && UpTo(before, earlier) && earlier < r.time
    ensures SoundHistory(name, OneRun(name, before, r)) && UpTo(OneRun(name, before, r), r.time)
    ensures IsOpen(OneRun(name, before, r)) <==> name in r.active
  {
    if before != [] { assert SoundIncident(name, before[|before| - 1]); }
    if IsOpen(before) {
      var last := before[|before| - 1];
      if name !in r.active {
        LastIncident(name, before, last.(recovered := Some(r.time)));
      } else if r.time - LastAlert(before) >= COOLDOWN_SECONDS {
        LastIncident(name, before, last.(alerts := last.alerts + [r.time]));
      }
    } else if name in r.active {
      NextIncident(name, before, Incident(AlertId(name, r.time), [r.time], None));
    }
  }

  /** For every sequence of runs at increasing times: one id through an incident, alerts in it at
      least the cooldown apart, the first critical run alerting at once, and an incident open
      exactly while the check is critical. */
  lemma {:induction false} EveryHistoryIsSound(name: string, runs: seq<Run>)
    requires Increasing(runs)
    ensures SoundHistory(name, Incidents(name, runs))
    ensures runs != [] ==> UpTo(Incidents(name, runs), runs[|runs| - 1].time)
    ensures runs != [] ==> (IsOpen(Incidents(name, runs)) <==> name in runs[|runs| - 1].active)
    decreases |runs|
  {
    if runs != [] {
      var n := |runs| - 1;
      EveryHistoryIsSound(name, runs[..n]);
      OneRunKeepsSound(name, Incidents(name, runs[..n]), runs[n], if n == 0 then runs[0].time - 1 else runs[n - 1].time);
    }
  }

  /** A lasting incident is repeated: after every run in which the check is critical, the last alert
      of the open incident is less than the cooldown old. */
  lemma NeverSilent(name: string, runs: seq<Run>)
    requires Increasing(runs) && runs != [] && name in runs[|runs| - 1].active
    ensures IsOpen(Incidents(name, runs))
    ensures 0 <= runs[|runs| - 1].time - LastAlert(Incidents(name, runs)) < COOLDOWN_SECONDS
  {
    EveryHistoryIsSound(name, runs);
  }

  /** Different incidents of a check have different ids. */
  lemma {:induction false} IdsDiffer(name: string, incidents: seq<Incident>, i: nat, j: nat)
    requires SoundHistory(name, incidents) && i < j < |incidents|
    ensures incidents[i].alerts[0] < incidents[j].alerts[0] && incidents[i].id != incidents[j].id
    decreases j - i
  {
    assert SoundIncident(name, incidents[j - 1]) && Closed(incidents[j - 1], incidents[j]);
    AlertsAscend(incidents[j - 1].alerts, |incidents[j - 1].alerts| - 1);
    if i < j - 1 { IdsDiffer(name, incidents, i, j - 1); }
  }

  lemma {:induction false} AlertsAscend(alerts: seq<int>, k: nat)
    requires k < |alerts| && forall k :: 0 < k < |alerts| ==> alerts[k] - alerts[k - 1] >= COOLDOWN_SECONDS
    ensures alerts[0] <= alerts[k]
  {
    if k > 0 { AlertsAscend(alerts, k - 1); }
  }

  /** The first run in which a check is critical is alerted at once. */
  lemma FirstCriticalRunAlerts(name: string, runs: seq<Run>, r: Run)
    requires Increasing(runs + [r]) && name in r.active
    requires runs != [] ==> name !in runs[|runs| - 1].active
    ensures Incidents(name, runs + [r]) == Incidents(name, runs) + [Incident(AlertId(name, r.time), [r.time], None)]
  {
    assert (runs + [r])[..|runs|] == runs;
    assert Increasing(runs) by {
      forall i, j | 0 <= i < j < |runs| ensures runs[i].time < runs[j].time {
        assert (runs + [r])[i].time < (runs + [r])[j].time;
      }
    }
    EveryHistoryIsSound(name, runs);
  }

  // ---- The log ----

  function AlertEntries(name: string, i: Incident): seq<Entry> {
    seq(|i.alerts|, k requires 0 <= k < |i.alerts| => Alert(i.alerts[k], name, i.id))
  }

  function EntriesOf(name: string, i: Incident): seq<Entry> {
    AlertEntries(name, i) + if i.recovered.Some? then [Recovery(i.recovered.value, name, i.id)] else []
  }

  /** The log of a check, incident by incident. */
  function LogOf(name: string, incidents: seq<Incident>): seq<Entry>
    decreases |incidents|
  {
    if incidents == [] then [] else LogOf(name, incidents[..|incidents| - 1]) + EntriesOf(name, incidents[|incidents| - 1])
  }

  /** The entries of one check in a log. */
  function About(log: seq<Entry>, name: string): seq<Entry>
    decreases |log|
  {
    if log == [] then [] else About(log[..|log| - 1], name) + if log[|log| - 1].check == name then [log[|log| - 1]] else []
  }

  lemma AboutMore(log: seq<Entry>, e: Entry, name: string)
    ensures About(log + [e], name) == About(log, name) + if e.check == name then [e] else []
  {
    assert (log + [e])[..|log|] == log;
  }

  lemma {:induction false} AboutHas(log: seq<Entry>, name: string, e: Entry)
    ensures e in About(log, name) <==> e in log && e.check == name
    decreases |log|
  {
    if log != [] {
      AboutHas(log[..|log| - 1], name, e);
      assert log == log[..|log| - 1] + [log[|log| - 1]];
    }
  }

  /** What may follow what in the log of one check: alerts of an incident under one id and the
      cooldown apart, then its recovery, then a new incident with an id of its own. */
  predicate Follows(name: string, a: Entry, b: Entry) {
    match (a, b)
    case (Alert(s, _, i), Alert(t, _, j)) => i == j && t - s >= COOLDOWN_SECONDS
    case (Alert(s, _, i), Recovery(t, _, j)) => i == j && s < t
    case (Recovery(s, _, i), Alert(t, _, j)) => s < t && j == AlertId(name, t) && i != j
    case (Recovery(_, _, _), Recovery(_, _, _)) => false
  }

  ghost predicate SoundLog(name: string, log: seq<Entry>) {
    && (log != [] ==> log[0].Alert? && log[0].id == AlertId(name, log[0].time))
    && (forall k :: 0 <= k < |log| ==> log[k].check == name)
    && (forall j, k :: 0 <= j && k == j + 1 && k < |log| ==> Follows(name, log[j], log[k]))
  }

  lemma LogsJoin(name: string, a: seq<Entry>, b: seq<Entry>)
    requires SoundLog(name, a) && SoundLog(name, b)
    requires a != [] && b != [] ==> Follows(name, a[|a| - 1], b[0])
    ensures SoundLog(name, a + b)
  {
    var log := a + b;
    forall j, k | 0 <= j && k == j + 1 && k < |log| ensures Follows(name, log[j], log[k]) {
      if k < |a| { assert Follows(name, a[j], a[k]); } else if j >= |a| { assert Follows(name, b[j - |a|], b[k - |a|]); }
    }
  }

  lemma IncidentLogIsSound(name: string, i: Incident)
    requires SoundIncident(name, i)
    ensures SoundLog(name, EntriesOf(name, i)) && EntriesOf(name, i) != []
    ensures EntriesOf(name, i)[0] == Alert(i.alerts[0], name, i.id)
    ensures var last := EntriesOf(name, i)[|EntriesOf(name, i)| - 1];
      last == if i.recovered.Some? then Recovery(i.recovered.value, name, i.id) else Alert(i.alerts[|i.alerts| - 1], name, i.id)
  {
    var log := EntriesOf(name, i);
    forall j, k | 0 <= j && k == j + 1 && k < |log| ensures Follows(name, log[j], log[k]) {
      if k < |i.alerts| { assert i.alerts[k] - i.alerts[k - 1] >= COOLDOWN_SECONDS; }
    }
  }

  /** The log of every sound history reads like that from its first line to its last. */
  lemma {:induction false} LogIsSound(name: string, incidents: seq<Incident>)
    requires SoundHistory(name, incidents)
    ensures SoundLog(name, LogOf(name, incidents))
    ensures incidents != [] ==> LogOf(name, incidents) != []
    ensures incidents != [] && incidents[|incidents| - 1].recovered.Some? ==>
      LogOf(name, incidents)[|LogOf(name, incidents)| - 1] ==
        Recovery(incidents[|incidents| - 1].recovered.value, name, incidents[|incidents| - 1].id)
    decreases |incidents|
  {
    if incidents != [] {
      var front, last := incidents[..|incidents| - 1], incidents[|incidents| - 1];
      FrontIsSound(name, incidents);
      LogIsSound(name, front);
      assert SoundIncident(name, last);
      IncidentLogIsSound(name, last);
      if front != [] {
        var before := front[|front| - 1];
        assert Closed(before, last) && before == incidents[|incidents| - 2];
        IdsDiffer(name, incidents, |incidents| - 2, |incidents| - 1);
      }
      LogsJoin(name, LogOf(name, front), EntriesOf(name, last));
    }
  }

  lemma FrontIsSound(name: string, incidents: seq<Incident>)
    requires SoundHistory(name, incidents) && incidents != []
    ensures SoundHistory(name, incidents[..|incidents| - 1])
  {
    var front := incidents[..|incidents| - 1];
    forall k | 0 <= k < |front| - 1 ensures Closed(front[k], front[k + 1]) {
      assert Closed(incidents[k], incidents[k + 1]);
    }
  }

  predicate RecentAlert(e: Entry, name: string, now: int) {
    e.Alert? && e.check == name && 0 <= now - e.time < COOLDOWN_SECONDS
  }

  /** What the log holds about a check after a run: if it is critical, an alert less than the
      cooldown old; if it was critical the run before and no longer is, its recovery. */
  ghost predicate ToldOf(log: seq<Entry>, runs: seq<Run>, name: string)
    requires runs != []
  {
    var now, n := runs[|runs| - 1], |runs| - 1;
    && SoundLog(name, About(log, name))
    && (name in now.active ==> exists e :: e in log && RecentAlert(e, name, now.time))
    && (n > 0 && name in runs[n - 1].active && name !in now.active ==>
          exists e :: e in log && e.Recovery? && e.check == name && e.time == now.time)
  }

  lemma LogTellsOfAlert(log: seq<Entry>, runs: seq<Run>, name: string, incidents: seq<Incident>)
    requires Increasing(runs) && runs != [] && name in runs[|runs| - 1].active && incidents == Incidents(name, runs)
    requires About(log, name) == LogOf(name, incidents)
    ensures exists e :: e in log && RecentAlert(e, name, runs[|runs| - 1].time)
  {
    EveryHistoryIsSound(name, runs);
    NeverSilent(name, runs);
    var last := incidents[|incidents| - 1];
    var e := Alert(LastAlert(incidents), name, last.id);
    assert e == EntriesOf(name, last)[|last.alerts| - 1];
    assert e in LogOf(name, incidents);
    AboutHas(log, name, e);
    assert RecentAlert(e, name, runs[|runs| - 1].time);
  }

  lemma LogTellsOfRecovery(log: seq<Entry>, runs: seq<Run>, name: string, incidents: seq<Incident>, n: nat)
    requires Increasing(runs) && n == |runs| - 1 && n > 0 && incidents == Incidents(name, runs)
    requires name in runs[n - 1].active && name !in runs[n].active
    requires About(log, name) == LogOf(name, incidents)
    ensures exists e :: e in log && e.Recovery? && e.check == name && e.time == runs[n].time
  {
    EveryHistoryIsSound(name, runs[..n]);
    EveryHistoryIsSound(name, runs);
    LogIsSound(name, incidents);
    RecoveredLast(name, Incidents(name, runs[..n]), runs[n], incidents);
    var entries := LogOf(name, incidents);
    var e := entries[|entries| - 1];
    assert e in entries && e == Recovery(runs[n].time, name, e.id);
    AboutHas(log, name, e);
  }

  lemma RecoveredLast(name: string, before: seq<Incident>, r: Run, after: seq<Incident>)
    requires IsOpen(before) && name !in r.active && after == OneRun(name, before, r)
    ensures after != [] && after[|after| - 1].recovered == Some(r.time)
  {
  }

  lemma LogTells(log: seq<Entry>, runs: seq<Run>, name: string)
    requires Increasing(runs) && runs != [] && About(log, name) == LogOf(name, Incidents(name, runs))
    ensures ToldOf(log, runs, name)
  {
    var incidents, n := Incidents(name, runs), |runs| - 1;
    EveryHistoryIsSound(name, runs);
    LogIsSound(name, incidents);
    if name in runs[n].active {
      LogTellsOfAlert(log, runs, name, incidents);
    } else if n > 0 && name in runs[n - 1].active {
      LogTellsOfRecovery(log, runs, name, incidents, n);
    }
  }

  // ---- What the code does for one check ----

  /** The stored state agrees with the open incident, if there is one. */
  predicate Agrees(stored: Option<Prior>, incidents: seq<Incident>) {
    if IsOpen(incidents) then
      var last := incidents[|incidents| - 1];
      stored == Some(Prior(last.id.firstActive, LastAlert(incidents), last.id))
    else stored == None
  }

  predicate ShouldNotify(stored: Option<Prior>, now: int) {
    stored.None? || now - stored.value.lastNotified >= COOLDOWN_SECONDS
  }

  function Updated(stored: Option<Prior>, name: string, now: int): Prior {
    match stored
    case None => Prior(now, now, AlertId(name, now))
    case Some(p) => if ShouldNotify(stored, now) then p.(lastNotified := now) else p
  }

  /** What one run writes about a check. */
  function Written(stored: Option<Prior>, name: string, critical: bool, now: int): seq<Entry> {
    if critical then (if ShouldNotify(stored, now) then [Alert(now, name, Updated(stored, name, now).id)] else [])
    else if stored.Some? then [Recovery(now, name, stored.value.id)]
    else []
  }

  /** One run of the code is one step of the incidents. */
  lemma RunWritesIncident(stored: Option<Prior>, name: string, before: seq<Incident>, r: Run)
    requires Agrees(stored, before)
    ensures var after := OneRun(name, before, r);
      && LogOf(name, after) == LogOf(name, before) + Written(stored, name, name in r.active, r.time)
      && Agrees(if name in r.active then Some(Updated(stored, name, r.time)) else None, after)
  {
    var after := OneRun(name, before, r);
    if IsOpen(before) {
      var front, last := before[..|before| - 1], before[|before| - 1];
      assert after[..|after| - 1] == front;
      var e := Written(stored, name, name in r.active, r.time);
      assert EntriesOf(name, after[|after| - 1]) == EntriesOf(name, last) + e;
      Regroup(LogOf(name, front), EntriesOf(name, last), e);
    } else if name in r.active {
      assert after[..|after| - 1] == before;
    }
  }

  function Lookup(checks: map<string, Prior>, name: string): Option<Prior> {
    if name in checks then Some(checks[name]) else None
  }

  // ---- The two loops of a run ----

  /** What has been logged about `name` since `before`, once the checks in `done` are dealt with. */
  predicate LoggedFor(before: seq<Entry>, log: seq<Entry>, checks: map<string, Prior>, active: seq<string>, done: bool, now: int, name: string) {
    About(log, name) == About(before, name) + if done then Written(Lookup(checks, name), name, name in active, now) else []
  }

  ghost predicate Alerted(before: seq<Entry>, log: seq<Entry>, checks: map<string, Prior>, active: seq<string>, n: nat, now: int)
    requires n <= |active|
  {
    forall name :: AlertedFor(before, log, checks, active, n, now, name)
  }

  predicate AlertedFor(before: seq<Entry>, log: seq<Entry>, checks: map<string, Prior>, active: seq<string>, n: nat, now: int, name: string)
    requires n <= |active|
  {
    LoggedFor(before, log, checks, active, name in active[..n], now, name)
  }

  ghost predicate Stored(next: map<string, Prior>, checks: map<string, Prior>, active: seq<string>, n: nat, now: int)
    requires n <= |active|
  {
    && (forall name :: name in next <==> name in active[..n])
    && (forall name :: name in next ==> next[name] == Updated(Lookup(checks, name), name, now))
  }

  function WithAlert(log: seq<Entry>, checks: map<string, Prior>, name: string, now: int): seq<Entry> {
    log + Written(Lookup(checks, name), name, true, now)
  }

  lemma AboutWritten(log: seq<Entry>, checks: map<string, Prior>, name: string, critical: bool, now: int, other: string)
    ensures var w := Written(Lookup(checks, name), name, critical, now);
      About(log + w, other) == About(log, other) + if other == name then w else []
  {
    var w := Written(Lookup(checks, name), name, critical, now);
    if w == [] {
      assert log + w == log;
    } else {
      assert w == [w[0]];
      AboutMore(log, w[0], other);
    }
  }

  lemma AlertNext(before: seq<Entry>, log: seq<Entry>, checks: map<string, Prior>, active: seq<string>, n: nat, now: int)
    requires NoDup(active) && n < |active| && Alerted(before, log, checks, active, n, now)
    ensures Alerted(before, WithAlert(log, checks, active[n], now), checks, active, n + 1, now)
  {
    var log', m := WithAlert(log, checks, active[n], now), n + 1;
    forall name ensures AlertedFor(before, log', checks, active, m, now, name) {
      AlertNextFor(before, log, checks, active, n, now, name);
    }
  }

  lemma AlertNextFor(before: seq<Entry>, log: seq<Entry>, checks: map<string, Prior>, active: seq<string>, n: nat, now: int, name: string)
    requires NoDup(active) && n < |active| && AlertedFor(before, log, checks, active, n, now, name)
    ensures AlertedFor(before, WithAlert(log, checks, active[n], now), checks, active, n + 1, now, name)
  {
    assert active[..n + 1] == active[..n] + [active[n]];
    AboutWritten(log, checks, active[n], true, now, name);
    assert active[n] in active && active[n] !in active[..n];
  }

  /** Active checks are dealt with, and of the others those no longer in `rest`. */
  ghost predicate Recovered(before: seq<Entry>, log: seq<Entry>, checks: map<string, Prior>, active: seq<string>, rest: set<string>, now: int) {
    forall name :: LoggedFor(before, log, checks, active, name in active || name !in rest, now, name)
  }

  lemma RecoverNext(before: seq<Entry>, log: seq<Entry>, checks: map<string, Prior>, active: seq<string>, rest: set<string>, now: int, name: string)
    requires Recovered(before, log, checks, active, rest, now) && name in rest && name in checks
    ensures name in active ==> Recovered(before, log, checks, active, rest - {name}, now)
    ensures name !in active ==> Recovered(before, log + [Recovery(now, name, checks[name].id)], checks, active, rest - {name}, now)
  {
    forall other
      ensures name in active ==> LoggedFor(before, log, checks, active, other in active || other !in rest - {name}, now, other)
      ensures name !in active ==>
        LoggedFor(before, log + [Recovery(now, name, checks[name].id)], checks, active, other in active || other !in rest - {name}, now, other)
    {
      assert LoggedFor(before, log, checks, active, other in active || other !in rest, now, other);
      AboutMore(log, Recovery(now, name, checks[name].id), other);
    }
  }

  class Notifier {
    var checks: map<string, Prior>      // the state file
    var log: seq<Entry>                 // the alert log
    ghost var runs: seq<Run>

    /** State and log are those of the incidents, check by check, whatever the other checks do. */
    ghost predicate Valid()
      reads this
    {
      Increasing(runs) && forall name :: Tracks(log, checks, runs, name)
    }

    constructor ()
      ensures Valid() && runs == [] && log == []
    {
      checks, log, runs := map[], [], [];
      new;
      forall name ensures Tracks(log, checks, runs, name) {
        assert Incidents(name, []) == [];
      }
    }

    method Notify(results: seq<Check>, now: int)
      requires Valid() && (runs != [] ==> runs[|runs| - 1].time < now)
      modifies this
      ensures Valid()
      ensures runs == old(runs) + [Run(now, CriticalNames(results))]
      ensures forall name :: ToldOf(log, runs, name)
      // and nothing is written without occasion
      ensures old(log) <= log && forall k :: |old(log)| <= k < |log| ==> Occasioned(log[k], old(runs), CriticalNames(results), now)
    {
      var active := ActiveNames(results);
      ghost var r, stored, before, earlier := Run(now, CriticalNames(results)), checks, log, runs;
      var next := AlertActive(active, now);
      RecoverInactive(active, now, before);
      checks := next;
      runs := runs + [r];
      AllTracked(before, log, stored, checks, earlier, r, active, runs);
      AllTold(log, checks, runs);
      forall k | |before| <= k < |log| {
        OccasionOf(log[k], before, stored, earlier, active, CriticalNames(results), now);
      }
    }

    /** The names of the critical checks, each once, in order. */
    method ActiveNames(results: seq<Check>) returns (active: seq<string>)
      ensures NoDup(active) && forall name :: name in active <==> name in CriticalNames(results)
    {
      active := [];
      for i := 0 to |results|
        invariant NoDup(active) && forall name :: name in active <==> name in CriticalNames(results[..i])
      {
        assert results[..i + 1] == results[..i] + [results[i]];
        if results[i].critical && results[i].name !in active { active := active + [results[i].name]; }
      }
      assert results[..|results|] == results;
    }

    method AlertActive(active: seq<string>, now: int) returns (next: map<string, Prior>)
      requires NoDup(active)
      modifies `log
      ensures Alerted(old(log), log, checks, active, |active|, now)
      ensures Stored(next, checks, active, |active|, now)
      ensures old(log) <= log && forall k :: |old(log)| <= k < |log| ==> NewEntry(log[k], checks, active, now)
    {
      next := map[];
      assert forall name :: About(log, name) + [] == About(log, name);
      for i := 0 to |active|
        invariant Alerted(old(log), log, checks, active, i, now)
        invariant Stored(next, checks, active, i, now)
        invariant old(log) <= log && forall k :: |old(log)| <= k < |log| ==> NewEntry(log[k], checks, active, now)
      {
        AlertNext(old(log), log, checks, active, i, now);
        var name := active[i];
        var stored := Lookup(checks, name);
        assert active[..i + 1] == active[..i] + [name];
        if ShouldNotify(stored, now) {
          log := log + [Alert(now, name, Updated(stored, name, now).id)];
        } else {
          assert log + [] == log;
        }
        next := next[name := Updated(stored, name, now)];
      }
    }

    method RecoverInactive(active: seq<string>, now: int, ghost before: seq<Entry>)
      requires Alerted(before, log, checks, active, |active|, now)
      modifies `log
      ensures Recovered(before, log, checks, active, {}, now)
      ensures old(log) <= log && forall k :: |old(log)| <= k < |log| ==> NewEntry(log[k], checks, active, now)
    {
      assert active[..|active|] == active;
      var rest := checks.Keys;
      StartRecovery(before, log, checks, active, now);
      while rest != {}
        invariant rest <= checks.Keys && Recovered(before, log, checks, active, rest, now)
        invariant old(log) <= log && forall k :: |old(log)| <= k < |log| ==> NewEntry(log[k], checks, active, now)
        decreases |rest|
      {
        var name := AnyOf(rest);
        RecoverNext(before, log, checks, active, rest, now, name);
        if name !in active {
          log := log + [Recovery(now, name, checks[name].id)];
        }
        rest := rest - {name};
      }
    }
  }

  lemma AllTracked(before: seq<Entry>, log: seq<Entry>, stored: map<string, Prior>, next: map<string, Prior>, earlier: seq<Run>,
                   r: Run, active: seq<string>, runs: seq<Run>)
    requires forall name :: Tracks(before, stored, earlier, name)
    requires Recovered(before, log, stored, active, {}, r.time) && Stored(next, stored, active, |active|, r.time)
    requires (forall name :: name in active <==> name in r.active) && runs == earlier + [r]
    ensures forall name :: Tracks(log, next, runs, name)
  {
    forall name ensures Tracks(log, next, runs, name) {
      assert Tracks(before, stored, earlier, name);
      assert LoggedFor(before, log, stored, active, name in active || name !in {}, r.time, name);
      TracksNext(before, log, stored, next, earlier, r, active, name);
    }
  }

  lemma AllTold(log: seq<Entry>, checks: map<string, Prior>, runs: seq<Run>)
    requires Increasing(runs) && runs != [] && forall name :: Tracks(log, checks, runs, name)
    ensures forall name :: ToldOf(log, runs, name)
  {
    forall name ensures ToldOf(log, runs, name) {
      assert Tracks(log, checks, runs, name);
      LogTells(log, runs, name);
    }
  }

  /** An entry that this run may write. */
  predicate NewEntry(e: Entry, checks: map<string, Prior>, active: seq<string>, now: int) {
    e.time == now && (e.Alert? ==> e.check in active) && (e.Recovery? ==> e.check in checks && e.check !in active)
  }

  /** Alerts are written about critical checks, recoveries about those that were critical the run before. */
  predicate Occasioned(e: Entry, before: seq<Run>, critical: set<string>, now: int) {
    && e.time == now
    && (e.Alert? ==> e.check in critical)
    && (e.Recovery? ==> e.check !in critical && before != [] && e.check in before[|before| - 1].active)
  }

  lemma OccasionOf(e: Entry, before: seq<Entry>, stored: map<string, Prior>, earlier: seq<Run>, active: seq<string>, critical: set<string>, now: int)
    requires NewEntry(e, stored, active, now) && Increasing(earlier)
    requires forall name :: name in active <==> name in critical
    requires forall name :: Tracks(before, stored, earlier, name)
    ensures Occasioned(e, earlier, critical, now)
  {
    assert Tracks(before, stored, earlier, e.check);
    EveryHistoryIsSound(e.check, earlier);
    assert Incidents(e.check, []) == [];
  }

  /** A check that was not stored and is not active has nothing written about it. */
  lemma StartRecovery(before: seq<Entry>, log: seq<Entry>, checks: map<string, Prior>, active: seq<string>, now: int)
    requires Alerted(before, log, checks, active, |active|, now)
    ensures Recovered(before, log, checks, active, checks.Keys, now)
  {
    assert active[..|active|] == active;
    forall name ensures LoggedFor(before, log, checks, active, name in active || name !in checks.Keys, now, name) {
      assert AlertedFor(before, log, checks, active, |active|, now, name);
    }
  }

  function CriticalNames(results: seq<Check>): set<string> { set c | c in results && c.critical :: c.name }

  /** Log and state of one check are those of its incidents. */
  predicate Tracks(log: seq<Entry>, checks: map<string, Prior>, runs: seq<Run>, name: string) {
    && About(log, name) == LogOf(name, Incidents(name, runs))
    && Agrees(Lookup(checks, name), Incidents(name, runs))
  }

  lemma TracksNext(before: seq<Entry>, log: seq<Entry>, stored: map<string, Prior>, next: map<string, Prior>, earlier: seq<Run>,
                   r: Run, active: seq<string>, name: string)
    requires Tracks(before, stored, earlier, name)
    requires LoggedFor(before, log, stored, active, true, r.time, name)
    requires Stored(next, stored, active, |active|, r.time)
    requires name in active <==> name in r.active
    ensures Tracks(log, next, earlier + [r], name)
  {
    assert active[..|active|] == active;
    assert (earlier + [r])[..|earlier|] == earlier;
    RunWritesIncident(Lookup(stored, name), name, Incidents(name, earlier), r);
  }
}
