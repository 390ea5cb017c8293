/** Histories of the schedule tables: administrators add and drop schedules while any number of
    schedulers tick, each step of a tick being one transaction of processDueSchedule. */
module ScheduleHistory {
  import opened Domain
  import opened Scheduler
  import Delivery

  /** A tick under way: its clock reading and the due rows still to be processed. */
  datatype Round = Round(now: int, todo: seq<Due>)

  /** `used` is history: the schedule ids handed out so far. */
  datatype World = World(t: Tables, rounds: map<nat, Round>, used: set<string>)

  const Fresh := World(Tables(map[], map[], map[]), map[], {})

  datatype Event =
    | AddSchedule(id: string, row: ScheduleRow)
    | DropSchedule(id: string)
    | AddRun(run: string, runRow: RunRow)
    | MoveRun(run: string, status: RunStatus)
    | Begin(i: nat, now: int, limit: nat, due: seq<Due>)
    | Process(i: nat, a: Answer)
    | Stop(i: nat)

  predicate Enabled(w: World, e: Event) {
    match e
    case AddSchedule(id, row) => id !in w.used && Delivery.Validate(row.delivery)
    case DropSchedule(id) => id in w.t.schedules
    case AddRun(r, row) => r !in w.t.runs
    case MoveRun(r, _) => r in w.t.runs
    case Begin(i, now, limit, due) => i !in w.rounds && IsDueList(w.t, now, limit, due)
    case Process(i, a) =>
      i in w.rounds && w.rounds[i].todo != [] && (a.prepared.Some? ==> a.prepared.value.trigger == TriggerType.Schedule)
    case Stop(i) => i in w.rounds
  }

  function Apply(cron: Cron, w: World, e: Event): World
    requires Enabled(w, e)
  {
    match e
    case AddSchedule(id, row) =>
      w.(t := w.t.(schedules := w.t.schedules[id := row]), used := w.used + {id})
    case DropSchedule(id) =>
      w.(t := w.t.(schedules := w.t.schedules - {id},
                   occurrences := map k | k in w.t.occurrences && k.schedule != id :: w.t.occurrences[k]))
    case AddRun(r, row) => w.(t := w.t.(runs := w.t.runs[r := row]))
    case MoveRun(r, status) => w.(t := w.t.(runs := w.t.runs[r := w.t.runs[r].(status := status)]))
    case Begin(i, now, limit, due) => w.(rounds := w.rounds[i := Round(now, due)])
    case Process(i, a) =>
      var round := w.rounds[i];
      w.(t := ProcessSpec(w.t, cron, round.todo[0], round.now, a),
         rounds := w.rounds[i := round.(todo := round.todo[1..])])
    case Stop(i) => w.(rounds := w.rounds - {i})
  }

  predicate StepAt(cron: Cron, ws: seq<World>, es: seq<Event>, k: int) {
    0 <= k < |es| && k + 1 < |ws| && Enabled(ws[k], es[k]) && ws[k + 1] == Apply(cron, ws[k], es[k])
  }

  predicate Behaviour(cron: Cron, ws: seq<World>, es: seq<Event>) {
    && |ws| == |es| + 1 && ws[0] == Fresh
    && forall k | 0 <= k < |es| :: StepAt(cron, ws, es, k)
  }

  /** Only scheduler 0 ever ticks. */
  predicate Solo(es: seq<Event>) { forall k | 0 <= k < |es| :: es[k].Begin? ==> es[k].i == 0 }

  // ---- Any number of schedulers ------------------------------------------------------------------

  predicate OccurrenceOk(t: Tables, k: Key) {
    k in t.occurrences ==>
      && k.schedule in t.schedules
      && t.occurrences[k] in t.runs && t.runs[t.occurrences[k]].trigger == TriggerType.Schedule
  }

  predicate SameRunSameKey(t: Tables, k: Key, l: Key) {
    k in t.occurrences && l in t.occurrences && t.occurrences[k] == t.occurrences[l] ==> k == l
  }

  /** Occurrences map one-to-one into existing schedule-triggered runs. */
  predicate OccurrencesOk(t: Tables) {
    && (forall k | k in t.occurrences :: OccurrenceOk(t, k))
    && (forall k, l | k in t.occurrences && l in t.occurrences :: SameRunSameKey(t, k, l))
  }

  predicate ContextsOk(w: World) {
    && (forall s | s in w.t.schedules :: s in w.used && Delivery.Validate(w.t.schedules[s].delivery))
    && (forall i | i in w.rounds :: forall n | 0 <= n < |w.rounds[i].todo| ::
          w.rounds[i].todo[n].id in w.used && Delivery.Validate(w.rounds[i].todo[n].row.delivery))
  }

  lemma StepKeepsOccurrences(cron: Cron, w: World, e: Event)
    requires OccurrencesOk(w.t) && Enabled(w, e)
    ensures OccurrencesOk(Apply(cron, w, e).t)
  {
    var t' := Apply(cron, w, e).t;
    forall k | k in t'.occurrences ensures OccurrenceOk(t', k) {
      assert OccurrenceOk(w.t, k);
    }
    forall k, l | k in t'.occurrences && l in t'.occurrences ensures SameRunSameKey(t', k, l) {
      assert SameRunSameKey(w.t, k, l) && OccurrenceOk(w.t, k) && OccurrenceOk(w.t, l);
    }
  }

  lemma StepKeepsContexts(cron: Cron, w: World, e: Event)
    requires ContextsOk(w) && Enabled(w, e)
    ensures ContextsOk(Apply(cron, w, e))
  {
    if e.Begin? {
      forall n | 0 <= n < |e.due| ensures e.due[n].id in w.used && Delivery.Validate(e.due[n].row.delivery) {
        assert e.due[n].id in w.t.schedules;
      }
    }
  }

  lemma {:induction false} SharedInvariant(cron: Cron, ws: seq<World>, es: seq<Event>, j: nat)
    requires Behaviour(cron, ws, es) && j <= |es|
    ensures OccurrencesOk(ws[j].t) && ContextsOk(ws[j])
  {
    if j > 0 {
      SharedInvariant(cron, ws, es, j - 1);
      assert StepAt(cron, ws, es, j - 1);
      StepKeepsOccurrences(cron, ws[j - 1], es[j - 1]);
      StepKeepsContexts(cron, ws[j - 1], es[j - 1]);
    }
  }

  /** The step that inserts an occurrence. */
  predicate Records(ws: seq<World>, n: nat, k: Key)
    requires n + 1 < |ws|
  {
    k !in ws[n].t.occurrences && k in ws[n + 1].t.occurrences
  }

  lemma {:induction false} OccurrencePersists(cron: Cron, ws: seq<World>, es: seq<Event>, i: nat, j: nat, k: Key)
    requires Behaviour(cron, ws, es) && i <= j <= |es| && k in ws[i].t.occurrences
    requires forall n | i <= n < j :: es[n] != DropSchedule(k.schedule)
    ensures k in ws[j].t.occurrences && ws[j].t.occurrences[k] == ws[i].t.occurrences[k]
    decreases j - i
  {
    if i < j {
      OccurrencePersists(cron, ws, es, i, j - 1, k);
      assert StepAt(cron, ws, es, j - 1);
    }
  }

  /** However many schedulers share the database, a schedule gets at most one run for each time it is
      scheduled for, as long as it exists. */
  lemma OneRunPerScheduledTime(cron: Cron, ws: seq<World>, es: seq<Event>, i: nat, j: nat, k: Key)
    requires Behaviour(cron, ws, es) && i < j < |es| && Records(ws, i, k) && Records(ws, j, k)
    ensures exists n | i < n < j :: es[n] == DropSchedule(k.schedule)
  {
    if forall n | i < n < j :: es[n] != DropSchedule(k.schedule) {
      OccurrencePersists(cron, ws, es, i + 1, j, k);
    }
  }

  /** An occurrence, its run and the schedule's advance appear in one step, or none of them does. */
  lemma OccurrenceRunAndAdvanceTogether(cron: Cron, ws: seq<World>, es: seq<Event>, n: nat, k: Key)
    requires Behaviour(cron, ws, es) && n < |es| && Records(ws, n, k)
    ensures es[n].Process? && es[n].a.prepared.Some? && es[n].i in ws[n].rounds && ws[n].rounds[es[n].i].todo != []
    ensures var a := es[n].a; var t, t' := ws[n].t, ws[n + 1].t;
            && t'.occurrences == t.occurrences[k := a.runId]
            && a.runId !in t.runs && t'.runs == t.runs[a.runId := a.prepared.value]
            && k.schedule in t.schedules && k.schedule in t'.schedules
            && t'.schedules[k.schedule].lastRunAt == Some(k.scheduledFor)
            && var d, now := ws[n].rounds[es[n].i].todo[0], ws[n].rounds[es[n].i].now;
            && d.id == k.schedule && d.row.nextRunAt == k.scheduledFor
            && cron.next(d.row.cronExpr, d.row.timezone, now) == Some(t'.schedules[k.schedule].nextRunAt)
  {
    assert StepAt(cron, ws, es, n);
  }

  /** Conversely, a due schedule gets its run: however often it has run before, a processing step records
      the time its row is listed for if and only if the schedule still exists, cron has a next time, a run
      was prepared, no operation fails and both keys are free. */
  lemma DueScheduleGetsItsRun(cron: Cron, ws: seq<World>, es: seq<Event>, n: nat)
    requires Behaviour(cron, ws, es) && n < |es| && es[n].Process?
    ensures es[n].i in ws[n].rounds && ws[n].rounds[es[n].i].todo != []
    ensures var t, t', a := ws[n].t, ws[n + 1].t, es[n].a;
            var d, now := ws[n].rounds[es[n].i].todo[0], ws[n].rounds[es[n].i].now;
            var key, next := Key(d.id, d.row.nextRunAt), cron.next(d.row.cronExpr, d.row.timezone, now);
            && (Records(ws, n, key) <==>
                  && d.id in t.schedules && next.Some? && a.prepared.Some? && a.failAt > 4
                  && key !in t.occurrences && a.runId !in t.runs)
            && (Records(ws, n, key) ==>
                  && next.Some? && a.prepared.Some? && d.id in t.schedules
                  && t'.occurrences == t.occurrences[key := a.runId]
                  && t'.runs == t.runs[a.runId := a.prepared.value]
                  && t'.schedules == t.schedules[d.id := t.schedules[d.id].(nextRunAt := next.value,
                                                                            lastRunAt := Some(d.row.nextRunAt))])
  {
    DeliveryCheckNeverFails(cron, ws, es, n);
    assert StepAt(cron, ws, es, n);
  }

  /** A step that records nothing stores at most the advance: to the next time when the run could not be
      prepared, by an hour when cron has none, and nothing at all when a run was to be recorded. */
  lemma UnrecordedStepOnlyAdvances(cron: Cron, ws: seq<World>, es: seq<Event>, n: nat)
    requires Behaviour(cron, ws, es) && n < |es| && es[n].Process?
    requires es[n].i in ws[n].rounds && ws[n].rounds[es[n].i].todo != []
    requires !Records(ws, n, Key(ws[n].rounds[es[n].i].todo[0].id, ws[n].rounds[es[n].i].todo[0].row.nextRunAt))
    ensures var t, t', a := ws[n].t, ws[n + 1].t, es[n].a;
            var d, now := ws[n].rounds[es[n].i].todo[0], ws[n].rounds[es[n].i].now;
            var next := cron.next(d.row.cronExpr, d.row.timezone, now);
            && t'.occurrences == t.occurrences && t'.runs == t.runs
            && t'.schedules
               == if d.id !in t.schedules || a.failAt == 0 then t.schedules
                  else if next.None? then t.schedules[d.id := t.schedules[d.id].(nextRunAt := now + 3_600_000_000_000)]
                  else if a.prepared.None? then t.schedules[d.id := t.schedules[d.id].(nextRunAt := next.value)]
                  else t.schedules
  {
    DeliveryCheckNeverFails(cron, ws, es, n);
    assert StepAt(cron, ws, es, n);
  }

  /** The delivery check in processDueSchedule never fails: only valid contexts are stored. */
  lemma DeliveryCheckNeverFails(cron: Cron, ws: seq<World>, es: seq<Event>, n: nat)
    requires Behaviour(cron, ws, es) && n < |es| && es[n].Process?
    ensures es[n].i in ws[n].rounds && ws[n].rounds[es[n].i].todo != []
    ensures Delivery.Validate(ws[n].rounds[es[n].i].todo[0].row.delivery)
  {
    SharedInvariant(cron, ws, es, n);
    assert StepAt(cron, ws, es, n);
  }

  // ---- When next_run_at moves ------------------------------------------------------------------------

  /** Every row a round holds was due at that round's clock reading. */
  predicate RoundDue(r: Round) { forall n | 0 <= n < |r.todo| :: IsDue(r.todo[n].row, r.now) }

  lemma {:induction false} RoundsAreDue(cron: Cron, ws: seq<World>, es: seq<Event>, j: nat)
    requires Behaviour(cron, ws, es) && j <= |es|
    ensures forall i | i in ws[j].rounds :: RoundDue(ws[j].rounds[i])
  {
    if j > 0 {
      RoundsAreDue(cron, ws, es, j - 1);
      assert StepAt(cron, ws, es, j - 1);
    }
  }

  /** The time a processing step writes: cron's next time, or an hour from now on a bad expression. */
  function NewNextRun(cron: Cron, d: Due, now: int): int {
    match cron.next(d.row.cronExpr, d.row.timezone, now)
    case None => now + HOUR
    case Some(next) => next
  }

  /** The step's database write goes through: the advance, or the whole transaction with free keys. */
  predicate Writes(t: Tables, cron: Cron, d: Due, now: int, a: Answer) {
    && d.id in t.schedules
    && if cron.next(d.row.cronExpr, d.row.timezone, now).None? || !Delivery.Validate(d.row.delivery) || a.prepared.None?
       then a.failAt > 0
       else a.failAt > 4 && Key(d.id, d.row.nextRunAt) !in t.occurrences && a.runId !in t.runs
  }

  /** Step n processes schedule s of a round and its write goes through. */
  predicate WritesSchedule(cron: Cron, w: World, e: Event, s: string) {
    && e.Process? && e.i in w.rounds && w.rounds[e.i].todo != [] && w.rounds[e.i].todo[0].id == s
    && Writes(w.t, cron, w.rounds[e.i].todo[0], w.rounds[e.i].now, e.a)
  }

  lemma ProcessWrites(t: Tables, cron: Cron, d: Due, now: int, a: Answer, s: string)
    requires s in t.schedules
    ensures var t' := ProcessSpec(t, cron, d, now, a);
            && s in t'.schedules
            && (d.id == s && Writes(t, cron, d, now, a) ==> t'.schedules[s].nextRunAt == NewNextRun(cron, d, now))
            && (!(d.id == s && Writes(t, cron, d, now, a)) ==> t'.schedules[s] == t.schedules[s])
  {
  }

  /** For any number of schedulers with any clocks: only a processing step whose write goes through
      changes a schedule's row. It stores NewNextRun, a time after the round's clock; it moves next_run_at
      back if and only if that time is before the stored one, forward if and only if it is after it, and
      in any case forward when what is stored is due at the round's clock, as it is when the stored row is
      still the one the round listed. */
  lemma NextRunMovesBackIff(cron: Cron, ws: seq<World>, es: seq<Event>, n: nat, s: string)
    requires Advances(cron) && Behaviour(cron, ws, es) && n < |es|
    requires s in ws[n].t.schedules && s in ws[n + 1].t.schedules
    ensures !WritesSchedule(cron, ws[n], es[n], s) ==> ws[n + 1].t.schedules[s] == ws[n].t.schedules[s]
    ensures WritesSchedule(cron, ws[n], es[n], s) ==>
              var r := ws[n].rounds[es[n].i];
              var before, after := ws[n].t.schedules[s], ws[n + 1].t.schedules[s];
              var next := NewNextRun(cron, r.todo[0], r.now);
              && after.nextRunAt == next > r.now
              && (after.nextRunAt < before.nextRunAt <==> next < before.nextRunAt)
              && (before.nextRunAt < after.nextRunAt <==> before.nextRunAt < next)
              && (before.nextRunAt <= r.now ==> before.nextRunAt < after.nextRunAt)
              && (before == r.todo[0].row ==> before.nextRunAt <= r.now)
  {
    assert StepAt(cron, ws, es, n);
    SharedInvariant(cron, ws, es, n);
    RoundsAreDue(cron, ws, es, n);
    if es[n].Process? {
      var r := ws[n].rounds[es[n].i];
      assert RoundDue(r);
      ProcessWrites(ws[n].t, cron, r.todo[0], r.now, es[n].a, s);
    }
  }

  // ---- One scheduler ------------------------------------------------------------------------------

  /** The rows a tick still holds are the stored ones, unless the schedule has been dropped. */
  predicate RoundOk(w: World, r: Round) {
    && (forall n | 0 <= n < |r.todo| ::
          && r.todo[n].id in w.used && IsDue(r.todo[n].row, r.now)
          && (r.todo[n].id in w.t.schedules ==> w.t.schedules[r.todo[n].id] == r.todo[n].row))
    && Ordered(r.todo)
  }

  predicate SoloOk(w: World) {
    && OccurrencesPast(w.t)
    && w.t.schedules.Keys <= w.used
    && w.rounds.Keys <= {0}
    && (0 in w.rounds ==> RoundOk(w, w.rounds[0]))
  }

  lemma ProcessKeepsSolo(cron: Cron, w: World, e: Event)
    requires Advances(cron) && SoloOk(w) && Enabled(w, e) && e.Process?
    ensures SoloOk(Apply(cron, w, e))
  {
    var w' := Apply(cron, w, e);
    var r := w.rounds[0];
    assert e.i == 0 && w'.rounds[0] == r.(todo := r.todo[1..]);
    assert w'.t.schedules.Keys == w.t.schedules.Keys;
    forall n | 0 <= n < |r.todo| - 1
      ensures r.todo[1..][n].id in w'.t.schedules ==> w'.t.schedules[r.todo[1..][n].id] == r.todo[1..][n].row
    {
      assert r.todo[0].id != r.todo[n + 1].id;
    }
  }

  lemma StepKeepsSolo(cron: Cron, w: World, e: Event)
    requires Advances(cron) && SoloOk(w) && Enabled(w, e) && (e.Begin? ==> e.i == 0)
    ensures SoloOk(Apply(cron, w, e))
  {
    if e.Process? { ProcessKeepsSolo(cron, w, e); }
  }

  /** With a single scheduler every recorded occurrence lies before its schedule's next run,
      whatever its clock does. */
  lemma {:induction false} OccurrencesBeforeNextRun(cron: Cron, ws: seq<World>, es: seq<Event>, j: nat)
    requires Advances(cron) && Behaviour(cron, ws, es) && Solo(es) && j <= |es|
    ensures SoloOk(ws[j])
  {
    if j > 0 {
      OccurrencesBeforeNextRun(cron, ws, es, j - 1);
      assert StepAt(cron, ws, es, j - 1);
      StepKeepsSolo(cron, ws[j - 1], es[j - 1]);
    }
  }

  /** With a single scheduler the row being processed is the stored one, unless the schedule is gone. */
  lemma StoredRowIsListed(cron: Cron, ws: seq<World>, es: seq<Event>, n: nat)
    requires Advances(cron) && Behaviour(cron, ws, es) && Solo(es) && n < |es| && es[n].Process?
    ensures es[n].i in ws[n].rounds && ws[n].rounds[es[n].i].todo != []
    ensures var d := ws[n].rounds[es[n].i].todo[0]; d.id in ws[n].t.schedules ==> ws[n].t.schedules[d.id] == d.row
  {
    assert StepAt(cron, ws, es, n);
    OccurrencesBeforeNextRun(cron, ws, es, n);
  }

  /** With a single scheduler next_run_at never moves back, and every processing step that stores
      anything moves it strictly forward. */
  lemma NextRunOnlyAdvances(cron: Cron, ws: seq<World>, es: seq<Event>, n: nat, s: string)
    requires Advances(cron) && Behaviour(cron, ws, es) && Solo(es) && n < |es|
    requires s in ws[n].t.schedules && s in ws[n + 1].t.schedules
    ensures var before, after := ws[n].t.schedules[s], ws[n + 1].t.schedules[s];
            && before.nextRunAt <= after.nextRunAt
            && (before != after ==> es[n].Process? && before.nextRunAt < after.nextRunAt)
  {
    NextRunMovesBackIff(cron, ws, es, n, s);
    OccurrencesBeforeNextRun(cron, ws, es, n);
    if WritesSchedule(cron, ws[n], es[n], s) {
      StoredRowIsListed(cron, ws, es, n);
    }
  }

  /** With a single scheduler the duplicate-occurrence branch is unreachable. */
  lemma NoDuplicateOccurrence(cron: Cron, ws: seq<World>, es: seq<Event>, n: nat)
    requires Advances(cron) && Behaviour(cron, ws, es) && Solo(es) && n < |es| && es[n].Process?
    ensures es[n].i in ws[n].rounds && ws[n].rounds[es[n].i].todo != []
    ensures var d := ws[n].rounds[es[n].i].todo[0]; Key(d.id, d.row.nextRunAt) !in ws[n].t.occurrences
  {
    assert StepAt(cron, ws, es, n);
    OccurrencesBeforeNextRun(cron, ws, es, n);
  }

  lemma OnlyScheduleIsDue(t: Tables, id: string, row: ScheduleRow, now: int)
    requires t.schedules == map[id := row] && IsDue(row, now)
    ensures IsDueList(t, now, 1, [Due(id, row)])
  {
    assert DueSet(t, now) == {id};
  }

  /** The condition is met in real histories: when two schedulers start a round on the same due schedule,
      the one with the later clock skips it, and the one with the earlier clock finishes last, skipping or
      recording, next_run_at moves back. */
  lemma TwoSchedulersMoveBack(cron: Cron, id: string, row: ScheduleRow, early: int, late: int, a: Answer, b: Answer)
    returns (ws: seq<World>, es: seq<Event>)
    requires Advances(cron) && Delivery.Validate(row.delivery) && IsDue(row, early) && IsDue(row, late)
    requires a.prepared.None? && a.failAt > 0
    requires b.failAt > 4 && (b.prepared.Some? ==> b.prepared.value.trigger == TriggerType.Schedule)
    requires cron.next(row.cronExpr, row.timezone, early).Some? && cron.next(row.cronExpr, row.timezone, late).Some?
    requires cron.next(row.cronExpr, row.timezone, early).value < cron.next(row.cronExpr, row.timezone, late).value
    ensures Behaviour(cron, ws, es) && |es| == 5 && es[4] == Process(0, b)
    ensures id in ws[4].t.schedules && id in ws[5].t.schedules
    ensures ws[5].t.schedules[id].nextRunAt < ws[4].t.schedules[id].nextRunAt
  {
    var due := [Due(id, row)];
    var w3 := BothListed(cron, id, row, early, late);
    var w1, w2 := Apply(cron, Fresh, AddSchedule(id, row)), World(w3.t, map[0 := Round(early, due)], {id});
    var w4 := Apply(cron, w3, Process(1, a));
    assert w4.rounds[0] == Round(early, due);
    var w5 := Apply(cron, w4, Process(0, b));
    ws := [Fresh, w1, w2, w3, w4, w5];
    es := [AddSchedule(id, row), Begin(0, early, 1, due), Begin(1, late, 1, due), Process(1, a), Process(0, b)];
    assert StepAt(cron, ws, es, 0) && StepAt(cron, ws, es, 1) && StepAt(cron, ws, es, 2);
    assert StepAt(cron, ws, es, 3) && StepAt(cron, ws, es, 4);
  }

  /** Both schedulers have listed the one schedule. */
  lemma BothListed(cron: Cron, id: string, row: ScheduleRow, early: int, late: int) returns (w: World)
    requires Delivery.Validate(row.delivery) && IsDue(row, early) && IsDue(row, late)
    ensures var due := [Due(id, row)];
            var w1 := Apply(cron, Fresh, AddSchedule(id, row));
            var w2 := World(w.t, map[0 := Round(early, due)], {id});
            && w.t == Tables(map[id := row], map[], map[]) && w.used == {id}
            && w.rounds == map[0 := Round(early, due), 1 := Round(late, due)]
            && Enabled(w1, Begin(0, early, 1, due)) && Apply(cron, w1, Begin(0, early, 1, due)) == w2
            && Enabled(w2, Begin(1, late, 1, due)) && Apply(cron, w2, Begin(1, late, 1, due)) == w
  {
    var due := [Due(id, row)];
    var w1 := Apply(cron, Fresh, AddSchedule(id, row));
    assert w1.t.schedules == map[id := row];
    OnlyScheduleIsDue(w1.t, id, row, early);
    var w2 := Apply(cron, w1, Begin(0, early, 1, due));
    OnlyScheduleIsDue(w2.t, id, row, late);
    w := Apply(cron, w2, Begin(1, late, 1, due));
    assert w2.rounds == map[0 := Round(early, due)] && w1.used == {id};
  }
}
