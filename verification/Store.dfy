/** The run tables of internal/store/sqlite_store.go.
    `Db` is a snapshot of the tables; each SQL statement is a function on it; the class
    SQLiteStore holds the tables and its methods are proved to act as those functions.
    Foreign keys and unique columns follow internal/store/db.go. */
module Store {
  import opened Domain

  datatype StoreError = NotFound | StatementFailed | ConstraintViolated

  datatype Db = Db(
    actions: map<string, ActionRow>,
    versions: map<string, VersionRow>,
    builds: map<string, BuildRow>,
    runs: map<string, RunRow>,
    tokens: map<string, RunToken>)

  function TokenId(run: string): string { "tok_" + run }

  // ---- Queries ---------------------------------------------------------------

  function RunningSet(runs: map<string, RunRow>, action: string): set<string> {
    set id | id in runs && runs[id].action == action && runs[id].status == Running
  }

  function RunningCount(db: Db, action: string): nat { |RunningSet(db.runs, action)| }

  predicate HasFreeSlot(db: Db, action: string) {
    action in db.actions && RunningCount(db, action) < db.actions[action].maxConcurrency
  }

  predicate IsQueued(db: Db, id: string) { id in db.runs && db.runs[id].status == Queued }

  /** The WHERE clause of the claim query: queued, and its action below its limit. */
  predicate Claimable(db: Db, id: string) {
    IsQueued(db, id) && HasFreeSlot(db, db.runs[id].action)
  }

  /** A row the claim query may return: ORDER BY created_at ASC LIMIT 1, ties broken either way. */
  predicate IsNext(db: Db, id: string) {
    && Claimable(db, id)
    && forall q | q in db.runs && Claimable(db, q) :: db.runs[id].createdAt <= db.runs[q].createdAt
  }

  // ---- Statements --------------------------------------------------------------

  /** INSERT INTO runs: the primary key and the three foreign keys. */
  predicate CanInsertRun(db: Db, id: string, row: RunRow) {
    id !in db.runs && row.action in db.actions && row.version in db.versions && row.build in db.builds
  }

  function InsertRun(db: Db, id: string, row: RunRow): Db { db.(runs := db.runs[id := row]) }

  function MarkClaimed(row: RunRow, now: int): RunRow { row.(status := Running, startedAt := Some(now)) }

  function ClaimRun(db: Db, id: string, now: int): Db
    requires id in db.runs
  {
    db.(runs := db.runs[id := MarkClaimed(db.runs[id], now)])
  }

  /** UPDATE runs SET status … WHERE id = ?: there is no guard on the old status. */
  function SetRunStatus(db: Db, id: string, status: RunStatus, completedAt: int): Db {
    if id in db.runs
    then db.(runs := db.runs[id := db.runs[id].(status := status, completedAt := Some(completedAt))])
    else db
  }

  predicate CanInsertToken(db: Db, id: string, t: RunToken) {
    && id !in db.tokens
    && (forall k | k in db.tokens :: db.tokens[k].hash != t.hash)
    && t.run in db.runs && t.action in db.actions
  }

  function InsertToken(db: Db, id: string, t: RunToken): Db { db.(tokens := db.tokens[id := t]) }

  function Revoked(t: RunToken, now: int): RunToken {
    if t.revokedAt.None? then t.(revokedAt := Some(now)) else t
  }

  function RevokeTokens(db: Db, run: string, now: int): Db {
    db.(tokens := map k | k in db.tokens ::
          if db.tokens[k].run == run then Revoked(db.tokens[k], now) else db.tokens[k])
  }

  predicate IsRunning(runs: map<string, RunRow>, id: string) { id in runs && runs[id].status == Running }

  /** Both statements of RecoverOrphanRuns; the token statement sees the runs before the second one. */
  function Recover(db: Db, now: int): Db {
    db.(tokens := map k | k in db.tokens ::
          if IsRunning(db.runs, db.tokens[k].run) then Revoked(db.tokens[k], now) else db.tokens[k],
        runs := map r | r in db.runs ::
          if db.runs[r].status == Running
          then db.runs[r].(status := Interrupted, completedAt := Some(now)) else db.runs[r])
  }

  function SetActive(db: Db, action: string, version: string, build: string): Db
    requires action in db.actions
  {
    db.(actions := db.actions[action := db.actions[action].(activeVersion := version, activeBuild := build)])
  }

  function SetActionRow(db: Db, action: string, row: ActionRow): Db {
    db.(actions := db.actions[action := row])
  }

  // ---- DELETE FROM actions, with its cascades ------------------------------------

  function DoomedVersions(db: Db, action: string): set<string> {
    set v | v in db.versions && db.versions[v].action == action
  }

  function DoomedBuilds(db: Db, action: string): set<string> {
    set b | b in db.builds && (db.builds[b].action == action || db.builds[b].version in DoomedVersions(db, action))
  }

  /** Runs reference actions, versions and builds without a cascade, so any run blocks the delete. */
  predicate CanDeleteAction(db: Db, action: string) {
    && action in db.actions
    && forall r | r in db.runs ::
         && db.runs[r].action != action
         && db.runs[r].version !in DoomedVersions(db, action)
         && db.runs[r].build !in DoomedBuilds(db, action)
  }

  function DeleteActionRows(db: Db, action: string): Db {
    db.(actions := db.actions - {action},
        versions := db.versions - DoomedVersions(db, action),
        builds := db.builds - DoomedBuilds(db, action),
        tokens := map k | k in db.tokens && db.tokens[k].action != action :: db.tokens[k])
  }

  /** The version goes with the action. */
  predicate VersionOf(db: Db, version: string, action: string) {
    version in db.versions && db.versions[version].action == action
  }

  /** The build goes with the action or with one of its versions. */
  predicate BuildOf(db: Db, build: string, action: string) {
    build in db.builds && (db.builds[build].action == action || VersionOf(db, db.builds[build].version, action))
  }

  /** Some run refers to the action, one of its versions, or a build that goes with them. */
  predicate RunHoldsAction(db: Db, action: string) {
    exists r | r in db.runs ::
      db.runs[r].action == action || VersionOf(db, db.runs[r].version, action) || BuildOf(db, db.runs[r].build, action)
  }

  /** Everything that goes with the action is gone, and everything else is as it was. */
  ghost predicate DeletedWithAction(db: Db, d: Db, action: string) {
    && d.runs == db.runs
    && d.actions == db.actions - {action}
    && (forall v :: v in d.versions <==> v in db.versions && !VersionOf(db, v, action))
    && (forall b :: b in d.builds <==> b in db.builds && !BuildOf(db, b, action))
    && (forall k :: k in d.tokens <==> k in db.tokens && db.tokens[k].action != action)
    && (forall v | v in d.versions :: d.versions[v] == db.versions[v])
    && (forall b | b in d.builds :: d.builds[b] == db.builds[b])
    && (forall k | k in d.tokens :: d.tokens[k] == db.tokens[k])
  }

  /** A delete is blocked exactly by a run that refers to something it would take away. */
  lemma DeletionBlockedIff(db: Db, action: string)
    requires action in db.actions
    ensures CanDeleteAction(db, action) <==> !RunHoldsAction(db, action)
  {
  }

  lemma DeletionIs(db: Db, action: string)
    ensures DeletedWithAction(db, DeleteActionRows(db, action), action)
  {
  }

  // ---- The claim query as documented ----------------------------------------------

  /** Every queued run's action is saturated. */
  predicate Saturated(db: Db) {
    forall r | IsQueued(db, r) && r in db.runs ::
      db.runs[r].action in db.actions ==>
        RunningCount(db, db.runs[r].action) >= db.actions[db.runs[r].action].maxConcurrency
  }

  lemma NothingClaimableIffSaturated(db: Db)
    ensures Saturated(db) <==> forall r | r in db.runs :: !Claimable(db, r)
  {
    forall r | r in db.runs && Claimable(db, r) ensures !Saturated(db) {
      assert IsQueued(db, r);
    }
    if !Saturated(db) {
      var r :| IsQueued(db, r) && r in db.runs && db.runs[r].action in db.actions
               && RunningCount(db, db.runs[r].action) < db.actions[db.runs[r].action].maxConcurrency;
      assert Claimable(db, r);
    }
  }

  /** The claim query in one sentence: an earliest queued run among those whose action runs fewer runs than
      its limit. */
  lemma NextIsEarliestBelowLimit(db: Db, id: string)
    ensures IsNext(db, id) <==>
              && BelowLimit(db, id)
              && forall q | q in db.runs && BelowLimit(db, q) :: db.runs[id].createdAt <= db.runs[q].createdAt
  {
    forall q | q in db.runs ensures Claimable(db, q) <==> BelowLimit(db, q) {
      assert RunningSet(db.runs, db.runs[q].action) == RunningOf(db, db.runs[q].action);
    }
  }

  function RunningOf(db: Db, action: string): set<string> {
    set r | r in db.runs && db.runs[r].status == Running && db.runs[r].action == action
  }

  predicate BelowLimit(db: Db, id: string) {
    && id in db.runs && db.runs[id].status == Queued && db.runs[id].action in db.actions
    && |RunningOf(db, db.runs[id].action)| < db.actions[db.runs[id].action].maxConcurrency
  }

  /** A claim adds exactly the claimed run to its action's running set. */
  lemma ClaimRunningSet(db: Db, id: string, now: int, action: string)
    requires IsQueued(db, id)
    ensures RunningSet(ClaimRun(db, id, now).runs, action)
            == if action == db.runs[id].action then RunningSet(db.runs, action) + {id} else RunningSet(db.runs, action)
    ensures RunningCount(ClaimRun(db, id, now), action)
            == RunningCount(db, action) + if action == db.runs[id].action then 1 else 0
  {
    var after := RunningSet(ClaimRun(db, id, now).runs, action);
    var before := RunningSet(db.runs, action);
    assert after == if action == db.runs[id].action then before + {id} else before;
  }

  // ---- The store -----------------------------------------------------------------

  /** `failAt` numbers the database operation that fails in a call (0 is the first);
      a number past the last operation means none does. */
  class SQLiteStore {
    var actions: map<string, ActionRow>
    var versions: map<string, VersionRow>
    var builds: map<string, BuildRow>
    var runs: map<string, RunRow>
    var tokens: map<string, RunToken>

    function Tables(): Db
      reads this
    {
      Db(actions, versions, builds, runs, tokens)
    }

    constructor ()
      ensures Tables() == Db(map[], map[], map[], map[], map[])
    {
      actions, versions, builds, runs, tokens := map[], map[], map[], map[], map[];
    }

    method CreateRun(id: string, row: RunRow, fails: bool) returns (err: Option<StoreError>)
      modifies this`runs
      ensures err.None? <==> !fails && CanInsertRun(old(Tables()), id, row)
      ensures Tables() == if err.None? then InsertRun(old(Tables()), id, row) else old(Tables())
      ensures err == if fails then Some(StatementFailed)
                     else if id !in old(runs) && row.action in actions && row.version in versions && row.build in builds
                     then None else Some(ConstraintViolated)
      ensures runs == if err.None? then old(runs)[id := row] else old(runs)
    {
      if fails { return Some(StatementFailed); }
      if id in runs || row.action !in actions || row.version !in versions || row.build !in builds {
        return Some(ConstraintViolated);
      }
      runs := runs[id := row];
      return None;
    }

    /** The query scans the queued rows for the earliest claimable one, then marks it running;
        nothing is visible unless the transaction commits. */
    method ClaimNextQueuedRun(now: int, failAt: nat) returns (res: Result<Option<string>, StoreError>)
      modifies this`runs
      ensures res.Err? ==> failAt <= 3 && Tables() == old(Tables())
      ensures res == Ok(None) ==> Tables() == old(Tables()) && Saturated(Tables())
      ensures res.Ok? && res.value.Some? ==>
                && IsNext(old(Tables()), res.value.value)
                && Tables() == ClaimRun(old(Tables()), res.value.value, now)
      ensures failAt > 3 ==> res.Ok? && (res.value.None? <==> Saturated(old(Tables())))
      ensures res.Ok? && res.value.Some? ==>
                var id := res.value.value;
                && BelowLimit(old(Tables()), id)
                && (forall q | q in old(runs) && BelowLimit(old(Tables()), q) ::
                      old(runs)[id].createdAt <= old(runs)[q].createdAt)
                && runs == old(runs)[id := old(runs)[id].(status := Running, startedAt := Some(now))]
    {
      if failAt <= 1 { return Err(StatementFailed); }
      ghost var db := Tables();
      var best: Option<string> := None;
      var todo := runs.Keys;
      while todo != {}
        invariant todo <= runs.Keys && Tables() == db
        invariant best.Some? ==> Claimable(db, best.value)
        invariant forall q | q in runs.Keys - todo && Claimable(db, q) ::
                    best.Some? && runs[best.value].createdAt <= runs[q].createdAt
        decreases todo
      {
        var id :| id in todo;
        todo := todo - {id};
        if Claimable(Tables(), id) && (best.None? || runs[id].createdAt < runs[best.value].createdAt) {
          best := Some(id);
        }
      }
      NothingClaimableIffSaturated(db);
      match best
      case None =>
        return Ok(None);
      case Some(id) =>
        if failAt <= 3 { return Err(StatementFailed); }
        NextIsEarliestBelowLimit(db, id);
        runs := runs[id := MarkClaimed(runs[id], now)];
        return Ok(Some(id));
    }

    method UpdateRunStatus(id: string, status: RunStatus, completedAt: int, fails: bool)
      returns (err: Option<StoreError>)
      modifies this`runs
      ensures err.None? <==> !fails && id in old(runs)
      ensures Tables() == if err.None? then SetRunStatus(old(Tables()), id, status, completedAt) else old(Tables())
      ensures err == if fails then Some(StatementFailed) else if id in old(runs) then None else Some(NotFound)
      ensures err.None? ==>
                runs == old(runs)[id := old(runs)[id].(status := status, completedAt := Some(completedAt))]
    {
      if fails { return Some(StatementFailed); }
      if id !in runs { return Some(NotFound); }
      runs := runs[id := runs[id].(status := status, completedAt := Some(completedAt))];
      return None;
    }

    method CreateRunToken(id: string, t: RunToken, fails: bool) returns (err: Option<StoreError>)
      modifies this`tokens
      ensures err.None? <==> !fails && CanInsertToken(old(Tables()), id, t)
      ensures Tables() == if err.None? then InsertToken(old(Tables()), id, t) else old(Tables())
      ensures err == if fails then Some(StatementFailed)
                     else if id !in old(tokens) && (forall k | k in old(tokens) :: old(tokens)[k].hash != t.hash)
                             && t.run in runs && t.action in actions
                     then None else Some(ConstraintViolated)
      ensures tokens == if err.None? then old(tokens)[id := t] else old(tokens)
    {
      if fails { return Some(StatementFailed); }
      if id in tokens || (exists k | k in tokens :: tokens[k].hash == t.hash)
         || t.run !in runs || t.action !in actions {
        return Some(ConstraintViolated);
      }
      tokens := tokens[id := t];
      return None;
    }

    method RevokeTokensForRun(run: string, now: int, fails: bool) returns (err: Option<StoreError>)
      modifies this`tokens
      ensures err.None? <==> !fails
      ensures Tables() == if err.None? then RevokeTokens(old(Tables()), run, now) else old(Tables())
      ensures tokens.Keys == old(tokens).Keys
      ensures forall k | k in tokens ::
                tokens[k] == if err.None? && old(tokens)[k].run == run && old(tokens)[k].revokedAt.None?
                             then old(tokens)[k].(revokedAt := Some(now)) else old(tokens)[k]
    {
      if fails { return Some(StatementFailed); }
      tokens := map k | k in tokens :: if tokens[k].run == run then Revoked(tokens[k], now) else tokens[k];
      return None;
    }

    /** begin, revoke, interrupt, count rows, commit: a failure at any of them rolls the others back. */
    method RecoverOrphanRuns(now: int, failAt: nat) returns (res: Result<nat, StoreError>)
      modifies this`runs, this`tokens
      ensures res.Ok? <==> failAt > 4
      ensures Tables() == if res.Ok? then Recover(old(Tables()), now) else old(Tables())
      ensures res.Ok? ==> res.value == |set r | r in old(runs) && old(runs)[r].status == Running|
      ensures runs.Keys == old(runs).Keys && tokens.Keys == old(tokens).Keys
      ensures forall r | r in runs ::
                runs[r] == if res.Ok? && old(runs)[r].status == Running
                           then old(runs)[r].(status := Interrupted, completedAt := Some(now)) else old(runs)[r]
      ensures forall k | k in tokens ::
                tokens[k] == if res.Ok? && old(tokens)[k].revokedAt.None? && old(tokens)[k].run in old(runs)
                                && old(runs)[old(tokens)[k].run].status == Running
                             then old(tokens)[k].(revokedAt := Some(now)) else old(tokens)[k]
    {
      if failAt == 0 { return Err(StatementFailed); }
      if failAt == 1 { return Err(StatementFailed); }
      var newTokens := map k | k in tokens ::
        if IsRunning(runs, tokens[k].run) then Revoked(tokens[k], now) else tokens[k];
      if failAt == 2 { return Err(StatementFailed); }
      var newRuns := map r | r in runs ::
        if runs[r].status == Running then runs[r].(status := Interrupted, completedAt := Some(now)) else runs[r];
      var affected := |set r | r in runs && runs[r].status == Running|;
      if failAt <= 4 { return Err(StatementFailed); }
      tokens, runs := newTokens, newRuns;
      return Ok(affected);
    }

    method UpdateAction(id: string, row: ActionRow, fails: bool) returns (err: Option<StoreError>)
      modifies this`actions
      ensures err.None? <==> !fails && id in old(actions)
      ensures Tables() == if err.None? then SetActionRow(old(Tables()), id, row) else old(Tables())
      ensures err == if fails then Some(StatementFailed) else if id in old(actions) then None else Some(NotFound)
      ensures err.None? ==> actions == old(actions)[id := row]
    {
      if fails { return Some(StatementFailed); }
      if id !in actions { return Some(NotFound); }
      actions := actions[id := row];
      return None;
    }

    method SetActiveBuild(id: string, version: string, build: string, fails: bool) returns (err: Option<StoreError>)
      modifies this`actions
      ensures err.None? <==> !fails && id in old(actions)
      ensures err.None? ==> Tables() == SetActive(old(Tables()), id, version, build)
      ensures err.Some? ==> Tables() == old(Tables())
      ensures err == if fails then Some(StatementFailed) else if id in old(actions) then None else Some(NotFound)
      ensures err.None? ==>
                actions == old(actions)[id := old(actions)[id].(activeVersion := version, activeBuild := build)]
    {
      if fails { return Some(StatementFailed); }
      if id !in actions { return Some(NotFound); }
      actions := actions[id := actions[id].(activeVersion := version, activeBuild := build)];
      return None;
    }

    method DeleteAction(id: string, fails: bool) returns (err: Option<StoreError>)
      modifies this
      ensures err.None? <==> !fails && CanDeleteAction(old(Tables()), id)
      ensures Tables() == if err.None? then DeleteActionRows(old(Tables()), id) else old(Tables())
      ensures err == if fails then Some(StatementFailed) else if id !in old(actions) then Some(NotFound)
                     else if RunHoldsAction(old(Tables()), id) then Some(ConstraintViolated) else None
      ensures err.None? ==> DeletedWithAction(old(Tables()), Tables(), id)
    {
      if fails { return Some(StatementFailed); }
      if id !in actions { return Some(NotFound); }
      DeletionBlockedIff(Tables(), id);
      if !CanDeleteAction(Tables(), id) { return Some(ConstraintViolated); }
      var after := DeleteActionRows(Tables(), id);
      DeletionIs(Tables(), id);
      actions, versions, builds, tokens := after.actions, after.versions, after.builds, after.tokens;
      return None;
    }
  }
}
