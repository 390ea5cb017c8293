/** The run lifecycle as a state machine: administrators, the worker pool, crashes and restarts
    interleave at the granularity of one database statement or transaction.
    Each event is one atomic step of internal/runner, internal/action or internal/store. */
module Protocol {
  import opened Domain
  import opened Store

  /** Where a worker goroutine stands in executeRun and finishRun. */
  datatype Worker =
    | Idle
    | Loading(run: string)                                  // claimed, no token yet
    | Executing(run: string)                                // token stored, sandbox at work
    | Revoking(run: string, minted: bool, status: RunStatus) // finishRun entered
    | Writing(run: string, minted: bool, status: RunStatus)  // about to store the status
    | Closing(run: string)                                  // deferred revocation still to come
    | Unwinding(run: string)                                // panicking, deferred revocation still to come
    | Doomed(run: string)                                   // panicked: the process is going down
  {
    predicate Busy() { !Idle? }

    /** The worker has not yet tried to store a final status. */
    predicate Open() { Loading? || Executing? || Revoking? || Writing? }
  }

  /** Requests that read in one statement and write in a later one. */
  datatype Op =
    | Updating(action: string, row: ActionRow)                    // UpdateAction holds a row it read
    | Activating(action: string, version: string, build: string)  // ActivateBuild has checked the build
    | Preparing(action: string, version: string, build: string)   // PrepareRun holds the active pair
    | Inserting(prepared: RunRow)                                    // PrepareRun has returned

  datatype BuildKey = BuildKey(action: string, version: string)

  /** `buildLog` and `lost` are history: the key every build was created with, and the runs
      whose status write failed on every attempt. */
  datatype World = World(
    db: Db, up: bool, workers: map<nat, Worker>, ops: map<nat, Op>,
    buildLog: map<string, BuildKey>, lost: set<string>)

  const Fresh := World(Db(map[], map[], map[], map[], map[]), false, map[], map[], map[], {})

  datatype Event =
    | CreateAction(id: string, limit: int)
    | BeginUpdate(op: nat, id: string)
    | EndUpdate(op: nat, limit: int, enabled: bool, ok: bool)
    | DeleteAction(id: string)
    | CreateVersion(id: string, version: VersionRow)
    | CreateBuild(id: string, build: BuildRow)
    | UpdateBuild(id: string, result: BuildStatus)
    | CheckBuild(op: nat, id: string, versionId: string, buildId: string)
    | EndActivate(op: nat, ok: bool)
    | ReadActive(op: nat, id: string)
    | FetchBuild(op: nat, trigger: TriggerType, now: int)
    | StoreRun(op: nat, id: string, ok: bool)
    | Claim(worker: nat, id: string, now: int)
    | Abort(worker: nat)
    | Mint(worker: nat, hash: string, expiresAt: int, ok: bool)
    | Decide(worker: nat, status: RunStatus)
    | Panic(worker: nat)
    | RevokeFirst(worker: nat, now: int, ok: bool)
    | WriteStatus(worker: nat, now: int, ok: bool)
    | RevokeLast(worker: nat, now: int, ok: bool)
    | Crash
    | Start(pool: set<nat>, now: int)

  function At(w: World, i: nat): Worker { if i in w.workers then w.workers[i] else Idle }

  function SetWorker(w: World, i: nat, x: Worker): World { w.(workers := w.workers[i := x]) }

  function Token(db: Db, run: string, hash: string, expiresAt: int): RunToken
    requires run in db.runs
  {
    var row := db.runs[run];
    RunToken(hash, run, row.action,
             if row.version in db.versions then db.versions[row.version].capabilities else [], expiresAt, None)
  }

  /** The statuses executeRun passes to finishRun. */
  predicate IsVerdict(s: RunStatus) { s == Succeeded || s == Failed || s == TimedOut }

  predicate Enabled(w: World, e: Event) {
    match e
    case CreateAction(id, _) => w.up && id !in w.db.actions
    case BeginUpdate(op, id) => w.up && op !in w.ops && id in w.db.actions
    case EndUpdate(op, _, _, ok) =>
      op in w.ops && w.ops[op].Updating? && (ok ==> w.ops[op].action in w.db.actions)
    case DeleteAction(id) => w.up && Store.CanDeleteAction(w.db, id)
    case CreateVersion(id, v) => w.up && id !in w.db.versions && v.action in w.db.actions
    case CreateBuild(id, b) =>
      w.up && id !in w.buildLog && b.action in w.db.actions && b.version in w.db.versions
    case UpdateBuild(id, _) => w.up && id in w.db.builds
    case CheckBuild(op, id, v, b) =>
      && w.up && op !in w.ops && b in w.db.builds
      && w.db.builds[b].action == id && w.db.builds[b].version == v && w.db.builds[b].status == BuildSucceeded
    case EndActivate(op, ok) =>
      op in w.ops && w.ops[op].Activating? && (ok ==> w.ops[op].action in w.db.actions)
    case ReadActive(op, id) =>
      && w.up && op !in w.ops && id in w.db.actions && w.db.actions[id].enabled
      && w.db.actions[id].activeVersion != "" && w.db.actions[id].activeBuild != ""
    case FetchBuild(op, _, _) =>
      && op in w.ops && w.ops[op].Preparing?
      && w.ops[op].version in w.db.versions && w.ops[op].build in w.db.builds
      && w.db.builds[w.ops[op].build].status == BuildSucceeded
    case StoreRun(op, id, ok) =>
      op in w.ops && w.ops[op].Inserting? && (ok ==> CanInsertRun(w.db, id, w.ops[op].prepared))
    case Claim(i, id, _) => w.up && i in w.workers && w.workers[i].Idle? && IsNext(w.db, id)
    case Abort(i) => At(w, i).Loading?
    case Mint(i, hash, expiresAt, ok) =>
      && At(w, i).Loading? && At(w, i).run in w.db.runs
      && (ok ==> CanInsertToken(w.db, TokenId(At(w, i).run), Token(w.db, At(w, i).run, hash, expiresAt)))
    case Decide(i, status) => At(w, i).Executing? && IsVerdict(status)
    case Panic(i) => At(w, i).Executing?
    case RevokeFirst(i, _, _) => At(w, i).Revoking?
    case WriteStatus(i, _, _) => At(w, i).Writing?
    case RevokeLast(i, _, _) => At(w, i).Closing? || At(w, i).Unwinding?
    case Crash => w.up
    case Start(_, _) => !w.up
  }

  function Limit(requested: int): int { if requested <= 0 then 1 else requested }

  /** UpdateAction overwrites the whole row it read, changing only the requested columns. */
  function Edited(row: ActionRow, limit: int, enabled: bool): ActionRow {
    row.(maxConcurrency := if limit > 0 then limit else row.maxConcurrency, enabled := enabled)
  }

  function Apply(w: World, e: Event): World
    requires Enabled(w, e)
  {
    match e
    case CreateAction(id, limit) => w.(db := SetActionRow(w.db, id, ActionRow("", "", Limit(limit), true)))
    case BeginUpdate(op, id) => w.(ops := w.ops[op := Updating(id, w.db.actions[id])])
    case EndUpdate(op, limit, enabled, ok) =>
      var o := w.ops[op];
      w.(ops := w.ops - {op}, db := if ok then SetActionRow(w.db, o.action, Edited(o.row, limit, enabled)) else w.db)
    case DeleteAction(id) => w.(db := DeleteActionRows(w.db, id))
    case CreateVersion(id, v) => w.(db := w.db.(versions := w.db.versions[id := v]))
    case CreateBuild(id, b) =>
      w.(db := w.db.(builds := w.db.builds[id := b]), buildLog := w.buildLog[id := BuildKey(b.action, b.version)])
    case UpdateBuild(id, status) =>
      w.(db := w.db.(builds := w.db.builds[id := w.db.builds[id].(status := status)]))
    case CheckBuild(op, id, v, b) => w.(ops := w.ops[op := Activating(id, v, b)])
    case EndActivate(op, ok) =>
      var o := w.ops[op];
      w.(ops := w.ops - {op}, db := if ok then SetActive(w.db, o.action, o.version, o.build) else w.db)
    case ReadActive(op, id) =>
      w.(ops := w.ops[op := Preparing(id, w.db.actions[id].activeVersion, w.db.actions[id].activeBuild)])
    case FetchBuild(op, trigger, now) =>
      var o := w.ops[op];
      w.(ops := w.ops[op := Inserting(RunRow(o.action, o.version, o.build, trigger, Queued, now, None, None))])
    case StoreRun(op, id, ok) =>
      w.(ops := w.ops - {op}, db := if ok then InsertRun(w.db, id, w.ops[op].prepared) else w.db)
    case Claim(i, id, now) => SetWorker(w, i, Loading(id)).(db := ClaimRun(w.db, id, now))
    case Abort(i) => SetWorker(w, i, Revoking(At(w, i).run, false, Failed))
    case Mint(i, hash, expiresAt, ok) =>
      var r := At(w, i).run;
      if ok then SetWorker(w, i, Executing(r)).(db := InsertToken(w.db, TokenId(r), Token(w.db, r, hash, expiresAt)))
      else SetWorker(w, i, Revoking(r, false, Failed))
    case Decide(i, status) => SetWorker(w, i, Revoking(At(w, i).run, true, status))
    case Panic(i) => SetWorker(w, i, Unwinding(At(w, i).run))
    case RevokeFirst(i, now, ok) =>
      var x := At(w, i);
      SetWorker(w, i, Writing(x.run, x.minted, x.status)).(db := if ok then RevokeTokens(w.db, x.run, now) else w.db)
    case WriteStatus(i, now, ok) =>
      var x := At(w, i);
      SetWorker(w, i, if x.minted then Closing(x.run) else Idle).(
        db := if ok then SetRunStatus(w.db, x.run, x.status, now) else w.db,
        lost := if ok then w.lost else w.lost + {x.run})
    case RevokeLast(i, now, ok) =>
      var x := At(w, i);
      SetWorker(w, i, if x.Closing? then Idle else Doomed(x.run)).(
        db := if ok then RevokeTokens(w.db, x.run, now) else w.db)
    case Crash => w.(up := false, workers := map[], ops := map[])
    case Start(pool, now) =>
      w.(up := true, workers := map i | i in pool :: Idle, db := Recover(w.db, now))
  }

  predicate Step(w: World, e: Event, w': World) { Enabled(w, e) && w' == Apply(w, e) }

  // ---- The invariant ---------------------------------------------------------------

  /** The pair is unset, or names a build created for exactly this action and version. */
  predicate PairOk(log: map<string, BuildKey>, action: string, version: string, build: string) {
    version == "" || build == "" || (build in log && log[build] == BuildKey(action, version))
  }

  predicate ActionsOk(w: World) {
    forall a | a in w.db.actions ::
      && w.db.actions[a].maxConcurrency >= 1
      && PairOk(w.buildLog, a, w.db.actions[a].activeVersion, w.db.actions[a].activeBuild)
  }

  predicate BuildsOk(w: World) {
    forall b | b in w.db.builds ::
      b in w.buildLog && w.buildLog[b] == BuildKey(w.db.builds[b].action, w.db.builds[b].version)
  }

  predicate NamesBuild(log: map<string, BuildKey>, row: RunRow) {
    row.build in log && log[row.build] == BuildKey(row.action, row.version)
  }

  /** Every stored run names a build whose own action and version are the run's. */
  predicate RunsOk(w: World) {
    forall r | r in w.db.runs ::
      && NamesBuild(w.buildLog, w.db.runs[r])
      && w.db.runs[r].action in w.db.actions && w.db.runs[r].build in w.db.builds
  }

  predicate TokenOk(db: Db, k: string) {
    k in db.tokens ==>
      && db.tokens[k].run in db.runs
      && k == TokenId(db.tokens[k].run)
      && db.tokens[k].action == db.runs[db.tokens[k].run].action
      && db.runs[db.tokens[k].run].status != Queued
  }

  predicate TokensOk(w: World) { forall k | k in w.db.tokens :: TokenOk(w.db, k) }

  predicate SameHashSameToken(db: Db, k: string, l: string) {
    k in db.tokens && l in db.tokens && db.tokens[k].hash == db.tokens[l].hash ==> k == l
  }

  predicate HashesOk(w: World) {
    forall k, l | k in w.db.tokens && l in w.db.tokens :: SameHashSameToken(w.db, k, l)
  }

  predicate OpOk(w: World, o: Op) {
    match o
    case Updating(a, row) => row.maxConcurrency >= 1 && PairOk(w.buildLog, a, row.activeVersion, row.activeBuild)
    case Activating(a, v, b) => b in w.buildLog && w.buildLog[b] == BuildKey(a, v)
    case Preparing(a, v, b) => b in w.buildLog && w.buildLog[b] == BuildKey(a, v)
    case Inserting(row) => row.status == Queued && NamesBuild(w.buildLog, row)
  }

  predicate OpsOk(w: World) { forall o | o in w.ops :: OpOk(w, w.ops[o]) }

  /** One worker per owned run: the run is running until that worker stores a status. */
  predicate WorkerOk(w: World, i: nat) {
    i in w.workers && w.workers[i].Busy() ==>
      var x := w.workers[i];
      && x.run in w.db.runs
      && w.db.runs[x.run].status != Queued
      && (x.Open() ==> w.db.runs[x.run].status == Running)
      && (x.Loading? ==> TokenId(x.run) !in w.db.tokens)
      && (x.Revoking? || x.Writing? ==> IsVerdict(x.status))
      && (x.Closing? && w.db.runs[x.run].status == Running ==> x.run in w.lost)
  }

  predicate Distinct(w: World, i: nat, j: nat) {
    i in w.workers && j in w.workers && i != j && w.workers[i].Busy() && w.workers[j].Busy() ==>
      w.workers[i].run != w.workers[j].run
  }

  predicate WorkersOk(w: World) {
    && (forall i | i in w.workers :: WorkerOk(w, i))
    && (forall i, j | i in w.workers && j in w.workers :: Distinct(w, i, j))
    && (!w.up ==> w.workers == map[])
  }

  predicate Owned(w: World, run: string) {
    exists i :: i in w.workers && w.workers[i].Busy() && w.workers[i].run == run
  }

  /** While the process is up, a running run has a worker unless its status could not be stored. */
  predicate NoOrphans(w: World) {
    w.up ==> forall r | r in w.db.runs && w.db.runs[r].status == Running :: r in w.lost || Owned(w, r)
  }

  predicate Inv(w: World) {
    ActionsOk(w) && BuildsOk(w) && RunsOk(w) && TokensOk(w) && HashesOk(w) && OpsOk(w) && WorkersOk(w) && NoOrphans(w)
  }
}
