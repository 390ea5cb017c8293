/** internal/scheduler/scheduler.go and the schedule tables of internal/store/sqlite_store.go.
    Cron evaluation is a parameter: `next` answers None for an invalid expression or time zone. */
module Scheduler {
  import opened Domain
  import opened Sums
  import Delivery

  const HOUR := 3_600_000_000_000

  datatype Cron = Cron(next: (string, string, int) -> Option<int>)

  /** The library's Next answers a strictly later time. */
  ghost predicate Advances(cron: Cron) {
    forall e, z, t :: cron.next(e, z, t).Some? ==> cron.next(e, z, t).value > t
  }

  datatype ScheduleRow = ScheduleRow(
    action: string, cronExpr: string, timezone: string, nextRunAt: int, lastRunAt: Option<int>,
    enabled: bool, delivery: Option<Delivery.DeliveryContext>)

  /** An occurrence row's primary key. */
  datatype Key = Key(schedule: string, scheduledFor: int)

  datatype Tables = Tables(
    schedules: map<string, ScheduleRow>, occurrences: map<Key, string>, runs: map<string, RunRow>)

  /** A schedule as the due query returned it. */
  datatype Due = Due(id: string, row: ScheduleRow)

  /** What PrepareRun and the database answer for one due schedule. */
  datatype Answer = Answer(prepared: Option<RunRow>, runId: string, failAt: nat)

  // ---- Queries --------------------------------------------------------------------------------

  predicate IsDue(row: ScheduleRow, now: int) { row.enabled && row.nextRunAt <= now }

  function DueSet(t: Tables, now: int): set<string> {
    set s | s in t.schedules && IsDue(t.schedules[s], now)
  }

  function Min(a: nat, b: nat): nat { if a < b then a else b }

  function Ids(due: seq<Due>): set<string> { set d | d in due :: d.id }

  lemma IdsAppend(due: seq<Due>, d: Due)
    ensures Ids(due + [d]) == Ids(due) + {d.id}
  {
    assert (due + [d])[|due|] == d;
    forall i | 0 <= i < |due| ensures due[i] in due + [d] { assert (due + [d])[i] == due[i]; }
  }

  /** Rows of due schedules as they are stored. */
  predicate Snapshots(t: Tables, now: int, due: seq<Due>) {
    forall i | 0 <= i < |due| ::
      due[i].id in t.schedules && t.schedules[due[i].id] == due[i].row && IsDue(due[i].row, now)
  }

  /** Distinct, earliest first. */
  predicate Ordered(due: seq<Due>) {
    forall i, j | 0 <= i < j < |due| :: due[i].id != due[j].id && due[i].row.nextRunAt <= due[j].row.nextRunAt
  }

  /** Nothing in rest is earlier than anything listed. */
  predicate NoneEarlier(t: Tables, due: seq<Due>, rest: set<string>) {
    forall s | s in rest ::
      s in t.schedules && forall i | 0 <= i < |due| :: due[i].row.nextRunAt <= t.schedules[s].nextRunAt
  }

  /** An answer to the due query: distinct due schedules with their rows, earliest first, as many as
      the limit allows. */
  predicate IsDueList(t: Tables, now: int, limit: nat, due: seq<Due>) {
    && Snapshots(t, now, due) && Ordered(due)
    && NoneEarlier(t, due, DueSet(t, now) - Ids(due))
    && |due| == Min(limit, |DueSet(t, now)|)
  }

  lemma ListAppend(t: Tables, now: int, due: seq<Due>, rest: set<string>, s: string)
    requires Snapshots(t, now, due) && Ordered(due) && NoneEarlier(t, due, rest) && Ids(due) !! rest
    requires s in rest && s in t.schedules && IsDue(t.schedules[s], now)
    requires forall r | r in rest :: r in t.schedules && t.schedules[s].nextRunAt <= t.schedules[r].nextRunAt
    ensures var due' := due + [Due(s, t.schedules[s])];
            && Snapshots(t, now, due') && Ordered(due') && NoneEarlier(t, due', rest - {s})
            && Ids(due') == Ids(due) + {s}
  {
    IdsAppend(due, Due(s, t.schedules[s]));
    forall i | 0 <= i < |due| ensures due[i].id != s { assert due[i].id in Ids(due); }
  }

  // ---- Statements --------------------------------------------------------------------------------

  function SetNext(t: Tables, id: string, next: int): Tables {
    if id in t.schedules
    then t.(schedules := t.schedules[id := t.schedules[id].(nextRunAt := next)]) else t
  }

  /** Foreign key to the schedule, primary key of the occurrence, primary key of the run. */
  predicate CanRecord(t: Tables, id: string, scheduledFor: int, runId: string) {
    id in t.schedules && Key(id, scheduledFor) !in t.occurrences && runId !in t.runs
  }

  /** All three statements of RecordScheduleOccurrence. */
  function Record(t: Tables, id: string, scheduledFor: int, next: int, runId: string, run: RunRow): Tables
    requires id in t.schedules
  {
    t.(occurrences := t.occurrences[Key(id, scheduledFor) := runId],
       runs := t.runs[runId := run],
       schedules := t.schedules[id := t.schedules[id].(nextRunAt := next, lastRunAt := Some(scheduledFor))])
  }

  function ProcessSpec(t: Tables, cron: Cron, d: Due, now: int, a: Answer): Tables {
    match cron.next(d.row.cronExpr, d.row.timezone, now)
    case None => if a.failAt > 0 then SetNext(t, d.id, now + HOUR) else t
    case Some(next) =>
      if !Delivery.Validate(d.row.delivery) || a.prepared.None? then
        if a.failAt > 0 then SetNext(t, d.id, next) else t
      else if a.failAt > 4 && CanRecord(t, d.id, d.row.nextRunAt, a.runId) then
        Record(t, d.id, d.row.nextRunAt, next, a.runId, a.prepared.value)
      else t
  }

  function TickSpec(t: Tables, cron: Cron, due: seq<Due>, now: int, answers: string -> Answer): Tables {
    if due == [] then t
    else
      var d := due[|due| - 1];
      ProcessSpec(TickSpec(t, cron, due[..|due| - 1], now, answers), cron, d, now, answers(d.id))
  }

  lemma TickOneMore(t: Tables, cron: Cron, due: seq<Due>, n: nat, now: int, answers: string -> Answer)
    requires n < |due|
    ensures TickSpec(t, cron, due[..n + 1], now, answers)
         == ProcessSpec(TickSpec(t, cron, due[..n], now, answers), cron, due[n], now, answers(due[n].id))
  {
    assert due[..n + 1][..n] == due[..n];
  }

  // ---- The scheduler ----------------------------------------------------------------------------------

  class Scheduler {
    const cron: Cron
    const batchSize: nat
    var schedules: map<string, ScheduleRow>
    var occurrences: map<Key, string>
    var runs: map<string, RunRow>

    function View(): Tables
      reads this
    {
      Tables(schedules, occurrences, runs)
    }

    constructor (cron: Cron, batch: int, t: Tables)
      ensures this.cron == cron && View() == t && batchSize == if batch <= 0 then 50 else batch
    {
      this.cron := cron;
      batchSize := if batch <= 0 then 50 else batch;
      schedules, occurrences, runs := t.schedules, t.occurrences, t.runs;
    }

    /** The earliest of the due schedules that are still to be listed. */
    method Earliest(rest: set<string>) returns (best: string)
      requires rest != {} && rest <= schedules.Keys
      ensures best in rest && forall s | s in rest :: schedules[best].nextRunAt <= schedules[s].nextRunAt
    {
      best :| best in rest;
      var todo := rest - {best};
      while todo != {}
        invariant todo <= rest && best in rest
        invariant forall s | s in rest - todo :: schedules[best].nextRunAt <= schedules[s].nextRunAt
        decreases todo
      {
        var s :| s in todo;
        todo := todo - {s};
        if schedules[s].nextRunAt < schedules[best].nextRunAt { best := s; }
      }
    }

    method ListDueSchedules(now: int, limit: nat) returns (due: seq<Due>)
      ensures IsDueList(View(), now, limit, due)
      ensures forall d | d in due :: && d.id in schedules && d.row == schedules[d.id]
                                     && d.row.enabled && d.row.nextRunAt <= now
      ensures |due| < limit ==> forall s | s in schedules && schedules[s].enabled && schedules[s].nextRunAt <= now ::
                s in Ids(due)
    {
      ghost var all := DueSet(View(), now);
      var rest := set s | s in schedules && IsDue(schedules[s], now);
      due := [];
      while rest != {} && |due| < limit
        invariant rest <= all && Ids(due) == all - rest && |due| + |rest| == |all| && |due| <= limit
        invariant Snapshots(View(), now, due) && Ordered(due) && NoneEarlier(View(), due, rest)
        decreases rest
      {
        var s := Earliest(rest);
        ListAppend(View(), now, due, rest, s);
        due := due + [Due(s, schedules[s])];
        rest := rest - {s};
      }
    }

    method AdvanceScheduleNextRun(id: string, next: int, failAt: nat) returns (ok: bool)
      modifies this`schedules
      ensures ok <==> failAt > 0 && id in old(schedules)
      ensures View() == if failAt > 0 then SetNext(old(View()), id, next) else old(View())
    {
      if failAt == 0 || id !in schedules { return false; }
      schedules := schedules[id := schedules[id].(nextRunAt := next)];
      return true;
    }

    /** begin, occurrence, run, schedule, commit: all of it or nothing. */
    method RecordScheduleOccurrence(id: string, scheduledFor: int, next: int, runId: string, run: RunRow, failAt: nat)
      returns (ok: bool)
      modifies this
      ensures ok <==> failAt > 4 && CanRecord(old(View()), id, scheduledFor, runId)
      ensures View() == if ok then Record(old(View()), id, scheduledFor, next, runId, run) else old(View())
    {
      if failAt == 0 { return false; }
      var occs, rows, scheds := occurrences, runs, schedules;
      if failAt == 1 || id !in scheds || Key(id, scheduledFor) in occs { return false; }
      occs := occs[Key(id, scheduledFor) := runId];
      if failAt == 2 || runId in rows { return false; }
      rows := rows[runId := run];
      if failAt == 3 { return false; }
      scheds := scheds[id := scheds[id].(nextRunAt := next, lastRunAt := Some(scheduledFor))];
      if failAt == 4 { return false; }
      occurrences, runs, schedules := occs, rows, scheds;
      return true;
    }

    method ProcessDueSchedule(d: Due, now: int, a: Answer)
      modifies this
      ensures View() == ProcessSpec(old(View()), cron, d, now, a)
    {
      var next := cron.next(d.row.cronExpr, d.row.timezone, now);
      if next.None? {
        var _ := AdvanceScheduleNextRun(d.id, now + HOUR, a.failAt);
        return;
      }
      var scheduledFor := d.row.nextRunAt;
      if !Delivery.Validate(d.row.delivery) {
        var _ := AdvanceScheduleNextRun(d.id, next.value, a.failAt);
        return;
      }
      if a.prepared.None? {
        var _ := AdvanceScheduleNextRun(d.id, next.value, a.failAt);
        return;
      }
      var _ := RecordScheduleOccurrence(d.id, scheduledFor, next.value, a.runId, a.prepared.value, a.failAt);
    }

    /** The loop of a tick over its due list. `cancelled(i)` says whether the context is cancelled when
        the i-th due schedule is reached. */
    method ProcessInOrder(due: seq<Due>, now: int, answers: string -> Answer, cancelled: nat -> bool)
      returns (reached: nat)
      modifies this
      ensures reached <= |due| && (forall i: nat | i < reached :: !cancelled(i))
      ensures reached < |due| ==> cancelled(reached)
      ensures View() == TickSpec(old(View()), cron, due[..reached], now, answers)
    {
      reached := 0;
      while reached < |due|
        invariant reached <= |due| && (forall i: nat | i < reached :: !cancelled(i))
        invariant View() == TickSpec(old(View()), cron, due[..reached], now, answers)
      {
        if cancelled(reached) { return; }
        ProcessDueSchedule(due[reached], now, answers(due[reached].id));
        TickOneMore(old(View()), cron, due, reached, now, answers);
        reached := reached + 1;
      }
    }

    /** A tick processes its due list in order, all of it or up to a cancellation; a failed query ends
        it at once. */
    method Tick(now: int, answers: string -> Answer, listFails: bool, cancelled: nat -> bool)
      returns (due: seq<Due>, reached: nat)
      modifies this
      ensures listFails ==> due == []
      ensures !listFails ==> IsDueList(old(View()), now, batchSize, due)
      ensures reached <= |due| && (forall i: nat | i < reached :: !cancelled(i))
      ensures reached < |due| ==> cancelled(reached)
      ensures View() == TickSpec(old(View()), cron, due[..reached], now, answers)
    {
      if listFails { return [], 0; }
      due := ListDueSchedules(now, batchSize);
      reached := ProcessInOrder(due, now, answers, cancelled);
    }
  }

  // ---- Draining the due set at a fixed time --------------------------------------------------------------

  /** Every write succeeds, and the ids of new runs are fresh and distinct. */
  predicate Smooth(t: Tables, due: seq<Due>, answers: string -> Answer) {
    && (forall i | 0 <= i < |due| :: answers(due[i].id).failAt > 4 && answers(due[i].id).runId !in t.runs)
    && (forall i, j | 0 <= i < j < |due| :: answers(due[i].id).runId != answers(due[j].id).runId)
  }

  /** Every occurrence lies before its schedule's next run. */
  predicate OccurrencesPast(t: Tables) {
    forall k | k in t.occurrences :: k.schedule in t.schedules && k.scheduledFor < t.schedules[k.schedule].nextRunAt
  }

  function OccurrencesOf(t: Tables, s: string): set<Key> { set k | k in t.occurrences && k.schedule == s }

  /** A run should come of this due schedule: it has a next time, a valid context and a prepared run. */
  predicate Runnable(cron: Cron, d: Due, now: int, a: Answer) {
    cron.next(d.row.cronExpr, d.row.timezone, now).Some? && Delivery.Validate(d.row.delivery) && a.prepared.Some?
  }

  /** The occurrence a schedule should get when it is due. */
  function Slot(d: Due): Key { Key(d.id, d.row.nextRunAt) }

  /** The occurrence and the run it names are stored. */
  predicate HasRun(t: Tables, d: Due, a: Answer) {
    && Slot(d) in t.occurrences && t.occurrences[Slot(d)] == a.runId
    && a.prepared.Some? && a.runId in t.runs && t.runs[a.runId] == a.prepared.value
  }

  /** What a smooth step does: the schedule leaves the due set, with exactly one new occurrence and its run
      if it is runnable and none otherwise. */
  predicate Processed(t: Tables, t': Tables, cron: Cron, d: Due, now: int, a: Answer) {
    && OccurrencesPast(t')
    && t'.schedules.Keys == t.schedules.Keys
    && d.id in t.schedules && t'.schedules[d.id].nextRunAt > now
    && (forall s | s in t.schedules && s != d.id ::
          t'.schedules[s] == t.schedules[s] && OccurrencesOf(t', s) == OccurrencesOf(t, s))
    && OccurrencesOf(t', d.id) == OccurrencesOf(t, d.id) + (if Runnable(cron, d, now, a) then {Slot(d)} else {})
    && (Runnable(cron, d, now, a) ==> Slot(d) !in t.occurrences && HasRun(t', d, a))
    && t'.runs.Keys <= t.runs.Keys + {a.runId} && t.occurrences.Keys <= t'.occurrences.Keys
    && (forall r | r in t.runs :: r in t'.runs && t'.runs[r] == t.runs[r])
    && (forall k | k in t.occurrences :: t'.occurrences[k] == t.occurrences[k])
  }

  lemma ProcessOne(t: Tables, cron: Cron, d: Due, now: int, a: Answer)
    requires Advances(cron) && OccurrencesPast(t)
    requires d.id in t.schedules && t.schedules[d.id] == d.row && IsDue(d.row, now)
    requires a.failAt > 4 && a.runId !in t.runs
    ensures Processed(t, ProcessSpec(t, cron, d, now, a), cron, d, now, a)
  {
    if Runnable(cron, d, now, a) { RunnableRuns(t, cron, d, now, a); }
  }

  lemma RunnableRuns(t: Tables, cron: Cron, d: Due, now: int, a: Answer)
    requires Advances(cron) && OccurrencesPast(t) && Runnable(cron, d, now, a)
    requires d.id in t.schedules && t.schedules[d.id] == d.row && IsDue(d.row, now)
    requires a.failAt > 4 && a.runId !in t.runs
    ensures Processed(t, ProcessSpec(t, cron, d, now, a), cron, d, now, a)
  {
    assert Slot(d) !in t.occurrences;
  }

  /** What a smooth tick over a prefix of the due list has done. */
  predicate Ticked(t: Tables, t': Tables, cron: Cron, due: seq<Due>, now: int, answers: string -> Answer) {
    && OccurrencesPast(t')
    && t'.schedules.Keys == t.schedules.Keys
    && (forall i | 0 <= i < |due| :: due[i].id in t'.schedules && t'.schedules[due[i].id].nextRunAt > now)
    && (forall s | s in t.schedules && s !in Ids(due) ::
          t'.schedules[s] == t.schedules[s] && OccurrencesOf(t', s) == OccurrencesOf(t, s))
    && (forall i | 0 <= i < |due| :: Served(t, t', cron, due[i], now, answers(due[i].id)))
    && (forall r | r in t'.runs && r !in t.runs :: exists i | 0 <= i < |due| :: answers(due[i].id).runId == r)
  }

  /** A due schedule has got exactly one occurrence, with its run, if it is runnable, and none otherwise. */
  predicate Served(t: Tables, t': Tables, cron: Cron, d: Due, now: int, a: Answer) {
    if Runnable(cron, d, now, a) then
      && OccurrencesOf(t', d.id) == OccurrencesOf(t, d.id) + {Slot(d)} && Slot(d) !in t.occurrences
      && HasRun(t', d, a)
    else OccurrencesOf(t', d.id) == OccurrencesOf(t, d.id)
  }

  /** What a schedule has got stays when another one is processed. */
  lemma StaysServed(t: Tables, mid: Tables, t': Tables, cron: Cron, e: Due, b: Answer, d: Due, now: int, a: Answer)
    requires Served(t, mid, cron, e, now, b) && Processed(mid, t', cron, d, now, a)
    requires e.id != d.id && e.id in mid.schedules
    ensures Served(t, t', cron, e, now, b)
  {
  }

  lemma NewlyServed(t: Tables, mid: Tables, t': Tables, cron: Cron, d: Due, now: int, a: Answer)
    requires Processed(mid, t', cron, d, now, a) && OccurrencesOf(mid, d.id) == OccurrencesOf(t, d.id)
    ensures Served(t, t', cron, d, now, a)
  {
    assert Slot(d) in OccurrencesOf(mid, d.id) <==> Slot(d) in mid.occurrences;
    assert Slot(d) in OccurrencesOf(t, d.id) <==> Slot(d) in t.occurrences;
  }

  lemma TickedAppend(
      t: Tables, mid: Tables, t': Tables, cron: Cron, before: seq<Due>, d: Due, now: int, answers: string -> Answer)
    requires Ticked(t, mid, cron, before, now, answers) && Processed(mid, t', cron, d, now, answers(d.id))
    requires d.id in t.schedules && d.id !in Ids(before)
    ensures Ticked(t, t', cron, before + [d], now, answers)
  {
    IdsAppend(before, d);
    var due := before + [d];
    NewlyServed(t, mid, t', cron, d, now, answers(d.id));
    forall i | 0 <= i < |due|
      ensures due[i].id in t'.schedules && t'.schedules[due[i].id].nextRunAt > now
      ensures Served(t, t', cron, due[i], now, answers(due[i].id))
    {
      if i < |before| {
        assert due[i] == before[i] && before[i].id in Ids(before);
        StaysServed(t, mid, t', cron, due[i], answers(due[i].id), d, now, answers(d.id));
      }
    }
    forall r | r in t'.runs && r !in t.runs ensures exists i | 0 <= i < |due| :: answers(due[i].id).runId == r {
      if r in mid.runs {
        var i :| 0 <= i < |before| && answers(before[i].id).runId == r;
        assert due[i] == before[i];
      } else {
        assert due[|before|] == d;
      }
    }
  }

  lemma PrefixOfDue(t: Tables, due: seq<Due>, now: int, answers: string -> Answer)
    requires due != [] && Smooth(t, due, answers) && Snapshots(t, now, due) && Ordered(due)
    ensures var n := |due| - 1;
            && Smooth(t, due[..n], answers) && Snapshots(t, now, due[..n]) && Ordered(due[..n])
            && due[n].id !in Ids(due[..n]) && due[..n] + [due[n]] == due
  {
  }

  /** After the tick over a prefix, the next due schedule is as listed and its run id is still new. */
  lemma ReadyForNext(t: Tables, mid: Tables, cron: Cron, due: seq<Due>, now: int, answers: string -> Answer)
    requires due != [] && Smooth(t, due, answers) && Snapshots(t, now, due) && Ordered(due)
    requires Ticked(t, mid, cron, due[..|due| - 1], now, answers)
    ensures var d := due[|due| - 1];
            && d.id in mid.schedules && mid.schedules[d.id] == d.row && IsDue(d.row, now)
            && answers(d.id).runId !in mid.runs && answers(d.id).failAt > 4
  {
    PrefixOfDue(t, due, now, answers);
  }

  lemma {:induction false} TickPrefix(t: Tables, cron: Cron, due: seq<Due>, now: int, answers: string -> Answer)
    requires Advances(cron) && OccurrencesPast(t) && Smooth(t, due, answers)
    requires Snapshots(t, now, due) && Ordered(due)
    ensures Ticked(t, TickSpec(t, cron, due, now, answers), cron, due, now, answers)
    decreases |due|
  {
    if due != [] {
      var n := |due| - 1;
      var before, d := due[..n], due[n];
      PrefixOfDue(t, due, now, answers);
      TickPrefix(t, cron, before, now, answers);
      var mid := TickSpec(t, cron, before, now, answers);
      ReadyForNext(t, mid, cron, due, now, answers);
      ProcessOne(mid, cron, d, now, answers(d.id));
      TickedAppend(t, mid, ProcessSpec(mid, cron, d, now, answers(d.id)), cron, before, d, now, answers);
    }
  }

  lemma {:induction false} IdsCardinality(due: seq<Due>)
    requires Ordered(due)
    ensures |Ids(due)| == |due|
    decreases |due|
  {
    if due != [] {
      var n := |due| - 1;
      IdsCardinality(due[..n]);
      IdsAppend(due[..n], due[n]);
      assert due[..n] + [due[n]] == due;
      assert due[n].id !in Ids(due[..n]);
    }
  }

  function One(b: bool): nat { if b then 1 else 0 }

  /** The occurrences of a schedule, and one more while it is due. */
  function Potential(t: Tables, now: int, s: string): nat { |OccurrencesOf(t, s)| + One(s in DueSet(t, now)) }

  lemma ServedCount(t: Tables, t': Tables, cron: Cron, d: Due, now: int, a: Answer)
    requires Served(t, t', cron, d, now, a)
    ensures |OccurrencesOf(t', d.id)| == |OccurrencesOf(t, d.id)| + One(Runnable(cron, d, now, a))
  {
    assert Slot(d) in OccurrencesOf(t, d.id) <==> Slot(d) in t.occurrences;
  }

  lemma TickedPotential(
      t: Tables, t': Tables, cron: Cron, due: seq<Due>, now: int, answers: string -> Answer, s: string)
    requires Ticked(t, t', cron, due, now, answers) && OccurrencesPast(t) && Ids(due) <= DueSet(t, now)
    ensures Potential(t', now, s) <= Potential(t, now, s)
  {
    if s in Ids(due) {
      var i :| 0 <= i < |due| && due[i].id == s;
      ServedCount(t, t', cron, due[i], now, answers(s));
    } else if s !in t.schedules {
      assert OccurrencesOf(t', s) == {};
    }
  }

  /** A smooth tick takes exactly min(batch, due) schedules out of the due set. It gives each of them that
      is runnable exactly one new occurrence, which names its prepared run, stored with it; it gives the
      others none, and touches no other schedule. */
  lemma TickDrains(t: Tables, cron: Cron, due: seq<Due>, now: int, batch: nat, answers: string -> Answer)
    requires Advances(cron) && OccurrencesPast(t) && IsDueList(t, now, batch, due) && Smooth(t, due, answers)
    ensures var t' := TickSpec(t, cron, due, now, answers);
            && OccurrencesPast(t')
            && DueSet(t', now) == DueSet(t, now) - Ids(due)
            && |DueSet(t', now)| == |DueSet(t, now)| - Min(batch, |DueSet(t, now)|)
            && (forall s :: Potential(t', now, s) <= Potential(t, now, s))
            && (forall i | 0 <= i < |due| ::
                  |OccurrencesOf(t', due[i].id)|
                  == |OccurrencesOf(t, due[i].id)| + One(Runnable(cron, due[i], now, answers(due[i].id))))
            && (forall i | 0 <= i < |due| && Runnable(cron, due[i], now, answers(due[i].id)) ::
                  Slot(due[i]) !in t.occurrences && HasRun(t', due[i], answers(due[i].id)))
  {
    var t' := TickSpec(t, cron, due, now, answers);
    TickPrefix(t, cron, due, now, answers);
    TickedDueSet(t, t', cron, due, now, answers);
    IdsCardinality(due);
    forall s ensures Potential(t', now, s) <= Potential(t, now, s) {
      TickedPotential(t, t', cron, due, now, answers, s);
    }
    forall i | 0 <= i < |due|
      ensures |OccurrencesOf(t', due[i].id)|
              == |OccurrencesOf(t, due[i].id)| + One(Runnable(cron, due[i], now, answers(due[i].id)))
      ensures Runnable(cron, due[i], now, answers(due[i].id)) ==>
                Slot(due[i]) !in t.occurrences && HasRun(t', due[i], answers(due[i].id))
    {
      ServedCount(t, t', cron, due[i], now, answers(due[i].id));
    }
  }

  lemma TickedDueSet(t: Tables, t': Tables, cron: Cron, due: seq<Due>, now: int, answers: string -> Answer)
    requires Ticked(t, t', cron, due, now, answers)
    requires forall i | 0 <= i < |due| :: due[i].id in t.schedules && IsDue(t.schedules[due[i].id], now)
    ensures Ids(due) <= DueSet(t, now) && DueSet(t', now) == DueSet(t, now) - Ids(due)
  {
    forall s | s in Ids(due) ensures s in DueSet(t, now) && s !in DueSet(t', now) {
      var i :| 0 <= i < |due| && due[i].id == s;
    }
  }

  /** One smooth tick at time now. */
  ghost predicate SmoothTick(t: Tables, cron: Cron, now: int, batch: nat, t': Tables) {
    exists due: seq<Due>, answers: string -> Answer ::
      IsDueList(t, now, batch, due) && Smooth(t, due, answers) && t' == TickSpec(t, cron, due, now, answers)
  }

  lemma SmoothTickDrains(t: Tables, cron: Cron, now: int, batch: nat, t': Tables)
    requires Advances(cron) && OccurrencesPast(t) && SmoothTick(t, cron, now, batch, t')
    ensures OccurrencesPast(t') && |DueSet(t', now)| == |DueSet(t, now)| - Min(batch, |DueSet(t, now)|)
    ensures forall s :: Potential(t', now, s) <= Potential(t, now, s)
  {
    var due: seq<Due>, answers: string -> Answer :|
      IsDueList(t, now, batch, due) && Smooth(t, due, answers) && t' == TickSpec(t, cron, due, now, answers);
    TickDrains(t, cron, due, now, batch, answers);
  }

  /** Repeating the tick at a fixed time leaves max(0, due - k * batch) due after k ticks, so
      ceil(due / batch) ticks leave nothing due, and no schedule gets more than one run on the way. */
  lemma {:induction false} TicksDrain(ts: seq<Tables>, cron: Cron, now: int, batch: nat, k: nat)
    requires Advances(cron) && k < |ts| && OccurrencesPast(ts[0])
    requires forall i :: 0 <= i < k ==> SmoothTick(ts[i], cron, now, batch, ts[i + 1])
    ensures OccurrencesPast(ts[k])
    ensures |DueSet(ts[k], now)| == if k * batch <= |DueSet(ts[0], now)| then |DueSet(ts[0], now)| - k * batch else 0
    ensures forall s :: Potential(ts[k], now, s) <= Potential(ts[0], now, s)
  {
    if k > 0 {
      TicksDrain(ts, cron, now, batch, k - 1);
      assert SmoothTick(ts[k - 1], cron, now, batch, ts[k - 1 + 1]);
      SmoothTickDrains(ts[k - 1], cron, now, batch, ts[k]);
      assert k * batch == (k - 1) * batch + batch;
    }
  }
}
