/** CreateVersion and CleanOrphanedVersions of internal/action/service.go as they run, with a crash
    possible between any two steps. The ghost field `w` follows the protocol of module Versions. */
module VersionService {
  import opened Domain
  import opened Sums
  import opened Versions

  datatype CreateError =
    | ActionLookupFailed | ActionNotFound | EmptySource | SourceTooLarge | NumberFailed
    | StageFailed | CommitFailed | InsertFailed | Crashed

  datatype CleanError = ListFailed | LookupFailed(name: string) | DeleteFailed(name: string)

  /** What disk and database answer during one creation. `crashAt` is the step the process dies before;
      `rest` fields are what a failed removal leaves behind. */
  datatype Env = Env(
    actionLookupFails: bool, numberFails: bool, token: string, stageFails: bool, stageRest: Option<Bundle>,
    clearRest: Option<Bundle>, renameFails: bool, insertFails: bool, rollBackRest: Option<Bundle>,
    discardRest: Option<Bundle>, crashAt: nat)

  function Sizes(files: Bundle): map<string, nat> { map k | k in files :: |files[k]| }

  ghost function Refusal(actions: set<string>, a: string, files: Bundle, env: Env): Option<CreateError> {
    if env.actionLookupFails then Some(ActionLookupFailed)
    else if a !in actions then Some(ActionNotFound)
    else if files == map[] then Some(EmptySource)
    else if Sum(Sizes(files)) > MAX_SOURCE_BYTES then Some(SourceTooLarge)
    else None
  }

  /** How the part that stores files ends: the first thing that goes wrong decides. A destination left
      from an earlier crash is in the way only if its removal fails. */
  function FilesOutcome(dirs: map<Dir, Bundle>, a: string, n: nat, files: Bundle, env: Env): Option<CreateError> {
    if env.crashAt == 0 then Some(Crashed)
    else if env.stageFails || Unstageable(files) then Some(StageFailed)
    else if env.crashAt == 1 || env.crashAt == 2 then Some(Crashed)
    else if env.renameFails || (Dir(a, VersionId(a, n)) in dirs && env.clearRest.Some?) then Some(CommitFailed)
    else if env.crashAt == 3 then Some(Crashed)
    else None
  }

  /** How an admitted creation with the next number n ends; in particular, when it succeeds. */
  function Outcome(dirs: map<Dir, Bundle>, a: string, n: nat, files: Bundle, env: Env): Result<nat, CreateError> {
    var failed := FilesOutcome(dirs, a, n, files, env);
    if failed.Some? then Err(failed.value)
    else if env.insertFails then Err(if env.crashAt == 4 then Crashed else InsertFailed)
    else Ok(n)
  }

  // ---- The same, condition by condition --------------------------------------------------------------

  /** The request passes the checks before the mutex: the action is found, and its files hold between one
      file and 20 MiB. */
  ghost predicate Admitted(actions: set<string>, a: string, files: Bundle, env: Env) {
    && !env.actionLookupFails && a in actions && |files| > 0
    && Sum(map k | k in files :: |files[k]|) <= 20 * 1024 * 1024
  }

  lemma AdmittedIff(actions: set<string>, a: string, files: Bundle, env: Env)
    ensures Admitted(actions, a, files, env) <==> Refusal(actions, a, files, env).None?
    ensures Refusal(actions, a, files, env)
            == if env.actionLookupFails then Some(ActionLookupFailed)
               else if a !in actions then Some(ActionNotFound)
               else if |files| == 0 then Some(EmptySource)
               else if Sum(map k | k in files :: |files[k]|) > 20 * 1024 * 1024 then Some(SourceTooLarge)
               else None
  {
    assert Sizes(files) == map k | k in files :: |files[k]|;
    assert |files| == 0 <==> files == map[];
  }

  predicate NothingFails(env: Env) {
    && env.crashAt > 4 && !env.numberFails && !env.stageFails && env.clearRest.None?
    && !env.renameFails && !env.insertFails
  }

  /** The files can be written, unless the process dies first. */
  predicate CanStage(files: Bundle, env: Env) { env.crashAt > 0 && !env.stageFails && !Unstageable(files) }

  /** The staged files can be moved: nothing is left in the way, and the rename works. */
  predicate CanMove(dirs: map<Dir, Bundle>, a: string, n: nat, env: Env) {
    env.crashAt > 2 && !env.renameFails && (Dir(a, VersionId(a, n)) in dirs ==> env.clearRest.None?)
  }

  /** How an admitted creation ends, each answer with its cause. A crash only counts where it comes before
      the step that would have decided. */
  ghost predicate Ends(dirs: map<Dir, Bundle>, a: string, n: nat, files: Bundle, env: Env,
                       r: Result<nat, CreateError>)
  {
    && (r.Ok? <==> CanStage(files, env) && CanMove(dirs, a, n, env) && env.crashAt > 3 && !env.insertFails)
    && (r.Ok? ==> r.value == n)
    && (r == Err(StageFailed) <==> env.crashAt > 0 && (env.stageFails || Unstageable(files)))
    && (r == Err(CommitFailed) <==> CanStage(files, env) && env.crashAt > 2 && !CanMove(dirs, a, n, env))
    && (r == Err(InsertFailed) <==>
          CanStage(files, env) && CanMove(dirs, a, n, env) && env.crashAt > 4 && env.insertFails)
    && (r == Err(Crashed) <==>
          || env.crashAt == 0
          || (CanStage(files, env) && (env.crashAt == 1 || env.crashAt == 2))
          || (CanStage(files, env) && CanMove(dirs, a, n, env)
              && (env.crashAt == 3 || (env.crashAt == 4 && env.insertFails))))
  }

  lemma OutcomeEnds(dirs: map<Dir, Bundle>, a: string, n: nat, files: Bundle, env: Env)
    ensures Ends(dirs, a, n, files, env, Outcome(dirs, a, n, files, env))
    ensures Outcome(dirs, a, n, files, env) != Err(NumberFailed)
    ensures Outcome(dirs, a, n, files, env).Err? ==>
              Outcome(dirs, a, n, files, env).error in {StageFailed, CommitFailed, InsertFailed, Crashed}
  {
  }

  lemma NextNumberIsUnique(rows: map<string, Row>, a: string, m: nat, n: nat)
    requires IsNextNumber(rows, a, m) && IsNextNumber(rows, a, n)
    ensures m == n
  {
  }

  /** The answers, from Refusal and Outcome to their conditions. */
  lemma AnswerIs(actions: set<string>, rows: map<string, Row>, dirs: map<Dir, Bundle>, a: string, files: Bundle,
                 env: Env, r: Result<nat, CreateError>)
    requires Refusal(actions, a, files, env).Some? ==> r == Err(Refusal(actions, a, files, env).value)
    requires Refusal(actions, a, files, env).None? && env.numberFails ==> r == Err(NumberFailed)
    requires Refusal(actions, a, files, env).None? && !env.numberFails ==>
               exists n | IsNextNumber(rows, a, n) :: r == Outcome(dirs, a, n, files, env)
    ensures r == Err(ActionLookupFailed) <==> env.actionLookupFails
    ensures r == Err(ActionNotFound) <==> !env.actionLookupFails && a !in actions
    ensures r == Err(EmptySource) <==> !env.actionLookupFails && a in actions && |files| == 0
    ensures r == Err(SourceTooLarge) <==>
              && !env.actionLookupFails && a in actions && |files| > 0
              && Sum(map k | k in files :: |files[k]|) > 20 * 1024 * 1024
    ensures r == Err(NumberFailed) <==> Admitted(actions, a, files, env) && env.numberFails
    ensures forall n | IsNextNumber(rows, a, n) && Admitted(actions, a, files, env) && !env.numberFails ::
              Ends(dirs, a, n, files, env, r)
    ensures Admitted(actions, a, files, env) && !Unstageable(files) && NothingFails(env) ==> r.Ok?
  {
    AdmittedIff(actions, a, files, env);
    if Admitted(actions, a, files, env) && !env.numberFails {
      var n :| IsNextNumber(rows, a, n) && r == Outcome(dirs, a, n, files, env);
      OutcomeEnds(dirs, a, n, files, env);
      forall m | IsNextNumber(rows, a, m) ensures m == n { NextNumberIsUnique(rows, a, m, n); }
    }
  }

  class Service {
    var actions: set<string>
    var rows: map<string, Row>
    var dirs: map<Dir, Bundle>
    var staging: map<Dir, Bundle>
    ghost var w: World  // a reachable state of the protocol

    ghost predicate Valid()
      reads this
    {
      w.actions == actions && w.rows == rows && w.dirs == dirs && w.staging == staging && Reachable(w)
    }

    constructor ()
      ensures Valid() && w == Fresh
    {
      FreshIsReachable();
      actions, rows, dirs, staging, w := {}, map[], map[], map[], Fresh;
    }

    /** SELECT COALESCE(MAX(version_number), 0) + 1. */
    method GetNextVersionNumber(a: string) returns (n: nat)
      ensures IsNextNumber(rows, a, n)
    {
      n := 1;
      var todo := rows.Keys;
      while todo != {}
        invariant todo <= rows.Keys && n >= 1
        invariant forall v | v in rows && v !in todo && rows[v].action == a :: rows[v].number < n
        invariant n > 1 ==> exists v | v in rows :: rows[v] == Row(a, n - 1)
        decreases todo
      {
        var v :| v in todo;
        todo := todo - {v};
        if rows[v].action == a && rows[v].number >= n {
          n := rows[v].number + 1;
          assert rows[v] == Row(a, n - 1);
        }
      }
    }

    /** The protocol takes one step. */
    ghost method Follow(e: Event)
      requires Enabled(w, e) && Reachable(w)
      modifies this`w
      ensures w == Apply(old(w), e) && Reachable(w)
    {
      StaysReachable(w, e);
      w := Apply(w, e);
    }

    /** The process dies before its next step. */
    method Die()
      requires Valid()
      modifies this`w
      ensures Valid() && w.jobs == map[] && w.request == old(w.request)
    {
      Follow(Crash);
    }

    method LockNumber(a: string, files: Bundle) returns (n: nat)
      requires Valid() && a in actions && a !in w.jobs && files != map[]
      modifies this`w
      ensures Valid() && IsNextNumber(rows, a, n) && w.request == old(w.request)
      ensures a in w.jobs && w.jobs[a] == Numbered(n, files)
    {
      n := GetNextVersionNumber(a);
      ReachableInv(w);
      Follow(Lock(a, n, files));
    }

    method StageFiles(a: string, n: nat, files: Bundle, env: Env) returns (ok: bool)
      requires Valid() && a in w.jobs && w.jobs[a] == Numbered(n, files) && Dir(a, env.token) !in staging
      modifies this`staging, this`w
      ensures Valid() && w.request == old(w.request)
      ensures ok ==> a in w.jobs && w.jobs[a] == Staged(n, files, env.token)
                     && Dir(a, env.token) in staging && staging - {Dir(a, env.token)} == old(staging)
      ensures !ok ==> a !in w.jobs
      ensures ok <==> !env.stageFails && !Unstageable(files)
    {
      var bundle := StageSourceBundle(files, env.stageFails);
      if bundle.None? {
        Follow(StageFails(a, env.token, env.stageRest));
        if env.stageRest.Some? { staging := staging[Dir(a, env.token) := env.stageRest.value]; }
        return false;
      }
      staging := staging[Dir(a, env.token) := bundle.value];
      Follow(Stage(a, env.token, bundle.value));
      return true;
    }

    /** CommitSourceBundle, first half: the removal of an old destination, whose error is ignored. */
    method ClearDestination(a: string, n: nat, files: Bundle, env: Env)
      requires Valid() && a in w.jobs && w.jobs[a] == Staged(n, files, env.token)
      modifies this`dirs, this`w
      ensures Valid() && w.request == old(w.request)
      ensures a in w.jobs && w.jobs[a] == Cleared(n, files, env.token)
      ensures dirs == Removed(old(dirs), Dir(a, VersionId(a, n)), env.clearRest)
    {
      dirs := Removed(dirs, Dir(a, VersionId(a, n)), env.clearRest);
      Follow(Clear(a, env.clearRest));
    }

    /** CommitSourceBundle, second half: the rename; if it fails the staged files are discarded. */
    method MoveIntoPlace(a: string, n: nat, files: Bundle, env: Env) returns (ok: bool)
      requires Valid() && a in w.jobs && w.jobs[a] == Cleared(n, files, env.token)
      modifies this`dirs, this`staging, this`w
      ensures Valid() && w.request == old(w.request)
      ensures ok ==> a in w.jobs && w.jobs[a] == Committed(n, files) && staging == old(staging) - {Dir(a, env.token)}
      ensures !ok ==> a !in w.jobs
      ensures ok <==> !env.renameFails && Dir(a, VersionId(a, n)) !in old(dirs)
    {
      var dest := Dir(a, VersionId(a, n));
      ReachableJob(w, a);
      if env.renameFails || dest in dirs {
        Follow(Rename(a, false));
        staging := Removed(staging, Dir(a, env.token), env.discardRest);
        Follow(Discard(a, env.discardRest));
        return false;
      }
      dirs := dirs[dest := staging[Dir(a, env.token)]];
      staging := staging - {Dir(a, env.token)};
      Follow(Rename(a, true));
      return true;
    }

    method InsertRow(a: string, n: nat, files: Bundle, env: Env) returns (ok: bool)
      requires Valid() && a in w.jobs && w.jobs[a] == Committed(n, files)
      modifies this`rows, this`w
      ensures Valid()
      ensures ok ==> a in actions && a !in w.jobs && rows == old(rows)[VersionId(a, n) := Row(a, n)]
                     && w.request == old(w.request)[VersionId(a, n) := files]
      ensures !ok ==> rows == old(rows) && w.request == old(w.request) && a in w.jobs && w.jobs[a] == RollingBack(n)
      ensures ok <==> && !env.insertFails && a in actions && VersionId(a, n) !in old(rows)
                      && forall v | v in old(rows) :: old(rows)[v] != Row(a, n)
    {
      if env.insertFails || a !in actions || VersionId(a, n) in rows || (exists v | v in rows :: rows[v] == Row(a, n)) {
        Follow(Insert(a, false));
        return false;
      }
      rows := rows[VersionId(a, n) := Row(a, n)];
      Follow(Insert(a, true));
      return true;
    }

    method RollBackFiles(a: string, n: nat, env: Env)
      requires Valid() && a in w.jobs && w.jobs[a] == RollingBack(n)
      modifies this`dirs, this`w
      ensures Valid() && w.request == old(w.request) && a !in w.jobs
    {
      dirs := Removed(dirs, Dir(a, VersionId(a, n)), env.rollBackRest);
      Follow(RollBack(a, env.rollBackRest));
    }

    /** The files, from the locked number to their place, or the error that ended the creation. */
    method StoreFiles(a: string, n: nat, files: Bundle, env: Env) returns (err: Option<CreateError>)
      requires Valid() && a in w.jobs && w.jobs[a] == Numbered(n, files) && Dir(a, env.token) !in staging
      modifies this`dirs, this`staging, this`w
      ensures Valid() && w.request == old(w.request)
      ensures err.None? ==> a in w.jobs && w.jobs[a] == Committed(n, files) && staging == old(staging)
      ensures err.Some? ==> a !in w.jobs && err.value in {StageFailed, CommitFailed, Crashed}
      ensures err == FilesOutcome(old(dirs), a, n, files, env)
    {
      if env.crashAt == 0 { Die(); return Some(Crashed); }
      var ok := StageFiles(a, n, files, env);
      if !ok { return Some(StageFailed); }
      if env.crashAt == 1 { Die(); return Some(Crashed); }
      ClearDestination(a, n, files, env);
      if env.crashAt == 2 { Die(); return Some(Crashed); }
      ok := MoveIntoPlace(a, n, files, env);
      if !ok { return Some(CommitFailed); }
      if env.crashAt == 3 { Die(); return Some(Crashed); }
      return None;
    }

    /** The row, or the files taken back out. */
    method StoreRow(a: string, n: nat, files: Bundle, env: Env) returns (err: Option<CreateError>)
      requires Valid() && a in w.jobs && w.jobs[a] == Committed(n, files)
      modifies this`rows, this`dirs, this`w
      ensures Valid() && a !in w.jobs
      ensures err.None? ==> && a in actions && rows == old(rows)[VersionId(a, n) := Row(a, n)]
                            && Dir(a, VersionId(a, n)) in dirs && HoldsCleaned(files, dirs[Dir(a, VersionId(a, n))])
      ensures err.Some? ==> rows == old(rows) && w.request == old(w.request) && err.value in {InsertFailed, Crashed}
      ensures err == if !env.insertFails && a in actions then None
                     else if env.crashAt == 4 then Some(Crashed) else Some(InsertFailed)
    {
      ReachableJob(w, a);
      var ok := InsertRow(a, n, files, env);
      if !ok {
        if env.crashAt == 4 { Die(); return Some(Crashed); }
        RollBackFiles(a, n, env);
        return Some(InsertFailed);
      }
      return None;
    }

    /** The checks before the mutex is taken. */
    method CheckRequest(a: string, files: Bundle, env: Env) returns (err: Option<CreateError>)
      ensures err == Refusal(actions, a, files, env)
    {
      if env.actionLookupFails { return Some(ActionLookupFailed); }
      if a !in actions { return Some(ActionNotFound); }
      if files == map[] { return Some(EmptySource); }
      var total := Total(Sizes(files));
      return if total > MAX_SOURCE_BYTES then Some(SourceTooLarge) else None;
    }

    /** The creation step by step: the answer is Outcome. */
    method Create(a: string, files: Bundle, env: Env) returns (r: Result<nat, CreateError>)
      requires Valid() && a !in w.jobs && Dir(a, env.token) !in staging
      modifies this
      ensures Valid() && actions == old(actions) && a !in w.jobs
      ensures r.Ok? ==>
                && IsNextNumber(old(rows), a, r.value) && a in actions
                && rows == old(rows)[VersionId(a, r.value) := Row(a, r.value)]
                && Dir(a, VersionId(a, r.value)) in dirs
                && HoldsCleaned(files, dirs[Dir(a, VersionId(a, r.value))])
                && staging == old(staging)
      ensures r.Err? ==> rows == old(rows) && w.request == old(w.request)
      ensures Refusal(actions, a, files, env).Some? ==> r == Err(Refusal(actions, a, files, env).value) && w == old(w)
      ensures Refusal(actions, a, files, env).None? && env.numberFails ==> r == Err(NumberFailed) && w == old(w)
      ensures Refusal(actions, a, files, env).None? && !env.numberFails ==>
                exists n | IsNextNumber(old(rows), a, n) :: r == Outcome(old(dirs), a, n, files, env)
    {
      var refusal := CheckRequest(a, files, env);
      if refusal.Some? { return Err(refusal.value); }
      if env.numberFails { return Err(NumberFailed); }
      var n := LockNumber(a, files);
      var failed := StoreFiles(a, n, files, env);
      if failed.Some? { return Err(failed.value); }
      failed := StoreRow(a, n, files, env);
      if failed.Some? { return Err(failed.value); }
      return Ok(n);
    }

    /** The answer is Outcome, for every request and everything disk, database and process can do. Success
        stores exactly the next version with its files in place; any error before a crash leaves the rows
        as they were and the mutex free; a crash at any point leaves the invariant. */
    method CreateVersion(a: string, files: Bundle, env: Env) returns (r: Result<nat, CreateError>)
      requires Valid() && a !in w.jobs && Dir(a, env.token) !in staging
      modifies this
      ensures Valid() && actions == old(actions) && a !in w.jobs
      ensures r.Ok? ==>
                && IsNextNumber(old(rows), a, r.value) && a in actions
                && rows == old(rows)[VersionId(a, r.value) := Row(a, r.value)]
                && Dir(a, VersionId(a, r.value)) in dirs
                && HoldsCleaned(files, dirs[Dir(a, VersionId(a, r.value))])
                && staging == old(staging)
      ensures r.Err? ==> rows == old(rows) && w.request == old(w.request)
      ensures Refusal(actions, a, files, env).Some? ==> r == Err(Refusal(actions, a, files, env).value) && w == old(w)
      ensures Refusal(actions, a, files, env).None? && env.numberFails ==> r == Err(NumberFailed) && w == old(w)
      ensures Refusal(actions, a, files, env).None? && !env.numberFails ==>
                exists n | IsNextNumber(old(rows), a, n) :: r == Outcome(old(dirs), a, n, files, env)
      // The same without those functions: each answer, in the order of the checks.
      ensures r == Err(ActionLookupFailed) <==> env.actionLookupFails
      ensures r == Err(ActionNotFound) <==> !env.actionLookupFails && a !in actions
      ensures r == Err(EmptySource) <==> !env.actionLookupFails && a in actions && |files| == 0
      ensures r == Err(SourceTooLarge) <==>
                && !env.actionLookupFails && a in actions && |files| > 0
                && Sum(map k | k in files :: |files[k]|) > 20 * 1024 * 1024
      ensures r == Err(NumberFailed) <==> Admitted(actions, a, files, env) && env.numberFails
      ensures forall n | IsNextNumber(old(rows), a, n) && Admitted(actions, a, files, env) && !env.numberFails ::
                Ends(old(dirs), a, n, files, env, r)
      ensures Admitted(actions, a, files, env) && !Unstageable(files) && NothingFails(env) ==> r.Ok?
    {
      r := Create(a, files, env);
      AnswerIs(old(actions), old(rows), old(dirs), a, files, env, r);
    }

    /** The walk over a version's files, in an arbitrary order; a missing directory is an error. */
    method ReadSourceBundle(a: string, id: string) returns (files: Option<Bundle>)
      ensures files == if Dir(a, id) in dirs then Some(dirs[Dir(a, id)]) else None
    {
      if Dir(a, id) !in dirs { return None; }
      var source := dirs[Dir(a, id)];
      var out: Bundle, todo := map[], source.Keys;
      while todo != {}
        invariant todo <= source.Keys && out == source - todo
        decreases todo
      {
        var path :| path in todo;
        out := out[path := source[path]];
        todo := todo - {path};
      }
      assert source - todo == source;
      return Some(out);
    }

    /** Looks every directory up and removes the orphans, stopping at the first error; a
        sweep without error leaves exactly the directories with a row of this action, and every directory
        of other actions. */
    method CleanOrphanedVersions(a: string, names: seq<string>, listFails: bool, lookupFails: set<string>,
                                 deleteFails: map<string, Option<Bundle>>)
      returns (cleaned: nat, err: Option<CleanError>, visited: nat)
      requires Valid() && a !in w.jobs && IsListing(dirs, a, names)
      modifies this`dirs, this`w
      ensures Valid() && visited <= |names|
      ensures listFails ==> err == Some(ListFailed) && cleaned == 0 && visited == 0
      ensures dirs == SweptThen(old(dirs), rows, a, names, visited, err, deleteFails)
      ensures |old(dirs)| == |Swept(old(dirs), rows, a, names[..visited])| + cleaned
      ensures forall i | 0 <= i < visited :: Failure(rows, a, names[i], lookupFails, deleteFails) == None
      ensures !listFails ==>
                err == if visited < |names| then Failure(rows, a, names[visited], lookupFails, deleteFails) else None
      ensures err.None? ==> visited == |names| && dirs == WithoutOrphans(old(dirs), rows, a)
      // The same, directory by directory.
      ensures CleanedUp(old(dirs), dirs, rows, a, names[..visited], err)
      ensures cleaned
           == |set d | d in old(dirs) && d.action == a && d.name in names[..visited] && Stray(rows, a, d.name)|
      ensures forall i | 0 <= i < visited :: FailsWith(rows, a, names[i], None, lookupFails, deleteFails)
      ensures !listFails && visited < |names| ==> FailsWith(rows, a, names[visited], err, lookupFails, deleteFails)
      ensures !listFails ==> (visited == |names| <==> err.None?)
    {
      SweptNone(dirs, rows, a, names);
      if listFails {
        StrayCount(dirs, rows, a, names[..0], 0);
        return 0, Some(ListFailed), 0;
      }
      FullSweep(dirs, rows, a, names);
      cleaned, err, visited := Sweep(a, names, lookupFails, deleteFails);
      SweepIs(old(dirs), dirs, rows, a, names, visited, cleaned, err, lookupFails, deleteFails);
      StrayCount(old(dirs), rows, a, names[..visited], cleaned);
      assert names[..|names|] == names;
    }

    /** The loop over the directories. */
    method Sweep(a: string, names: seq<string>, lookupFails: set<string>, deleteFails: map<string, Option<Bundle>>)
      returns (cleaned: nat, err: Option<CleanError>, visited: nat)
      requires Valid() && a !in w.jobs && IsListing(dirs, a, names)
      modifies this`dirs, this`w
      ensures Valid()
      ensures SweptOut(old(dirs), dirs, rows, a, names, visited, cleaned, err, lookupFails, deleteFails)
    {
      cleaned, visited := 0, 0;
      ghost var first := dirs;
      SweptNone(dirs, rows, a, names);
      while visited < |names|
        invariant Valid() && a !in w.jobs
        invariant SweptTo(first, dirs, rows, a, names, visited, cleaned, lookupFails, deleteFails)
        decreases |names| - visited
      {
        var more: nat;
        more, err := Visit(first, a, names, visited, cleaned, lookupFails, deleteFails);
        if err.Some? { return; }
        cleaned := cleaned + more;
        visited := visited + 1;
      }
      err := None;
    }

    /** One turn of the loop. */
    method Visit(ghost first: map<Dir, Bundle>, a: string, names: seq<string>, n: nat, ghost cleaned: nat,
                 lookupFails: set<string>, deleteFails: map<string, Option<Bundle>>)
      returns (more: nat, err: Option<CleanError>)
      requires Valid() && a !in w.jobs && n < |names| && IsListing(first, a, names)
      requires SweptTo(first, dirs, rows, a, names, n, cleaned, lookupFails, deleteFails)
      modifies this`dirs, this`w
      ensures Valid() && a !in w.jobs
      ensures if err.Some? then SweptOut(first, dirs, rows, a, names, n, cleaned, err, lookupFails, deleteFails)
              else SweptTo(first, dirs, rows, a, names, n + 1, cleaned + more, lookupFails, deleteFails)
    {
      SweptStep(first, dirs, rows, a, names, n, cleaned, lookupFails, deleteFails);
      var removed: bool;
      removed, err := CleanOne(a, names[n], lookupFails, deleteFails);
      more := if removed then 1 else 0;
    }

    /** One directory: kept when its row belongs to the action, otherwise removed; a removal that fails may
        still have taken some or all of it away. */
    method CleanOne(a: string, name: string, lookupFails: set<string>, deleteFails: map<string, Option<Bundle>>)
      returns (removed: bool, err: Option<CleanError>)
      requires Valid() && a !in w.jobs && Dir(a, name) in dirs
      modifies this`dirs, this`w
      ensures Valid() && a !in w.jobs
      ensures err == Failure(rows, a, name, lookupFails, deleteFails)
      ensures removed <==> err.None? && IsOrphan(rows, a, name)
      ensures dirs == AfterOne(old(dirs), rows, a, name, lookupFails, deleteFails)
    {
      if name in lookupFails { return false, Some(LookupFailed(name)); }
      if !IsOrphan(rows, a, name) { return false, None; }
      if name in deleteFails {
        dirs := Removed(dirs, Dir(a, name), deleteFails[name]);
        Follow(CleanOrphan(a, name, deleteFails[name]));
        return false, Some(DeleteFailed(name));
      }
      dirs := dirs - {Dir(a, name)};
      Follow(CleanOrphan(a, name, None));
      return true, None;
    }
  }

  /** A lookup error stops the sweep whatever the row; a delete error only when there is something to delete. */
  function Failure(rows: map<string, Row>, a: string, name: string,
                   lookupFails: set<string>, deleteFails: map<string, Option<Bundle>>): Option<CleanError>
  {
    if name in lookupFails then Some(LookupFailed(name))
    else if IsOrphan(rows, a, name) && name in deleteFails then Some(DeleteFailed(name))
    else None
  }

  /** The directories left when the orphans among some of an action's names are gone. */
  function Swept(dirs: map<Dir, Bundle>, rows: map<string, Row>, a: string, names: seq<string>): map<Dir, Bundle> {
    map d | d in dirs && !(d.action == a && d.name in names && IsOrphan(rows, a, d.name)) :: dirs[d]
  }

  /** The effect of one visit. */
  function AfterOne(dirs: map<Dir, Bundle>, rows: map<string, Row>, a: string, name: string, lookupFails: set<string>,
                    deleteFails: map<string, Option<Bundle>>): map<Dir, Bundle>
  {
    if name in lookupFails || !IsOrphan(rows, a, name) then dirs
    else if name in deleteFails then Removed(dirs, Dir(a, name), deleteFails[name])
    else dirs - {Dir(a, name)}
  }

  /** The same, and what the removal that failed did to the directory after them. */
  function SweptThen(dirs: map<Dir, Bundle>, rows: map<string, Row>, a: string, names: seq<string>, visited: nat,
                     err: Option<CleanError>, deleteFails: map<string, Option<Bundle>>): map<Dir, Bundle>
    requires visited <= |names|
  {
    var swept := Swept(dirs, rows, a, names[..visited]);
    if err.Some? && err.value.DeleteFailed? && err.value.name in deleteFails
    then Removed(swept, Dir(a, err.value.name), deleteFails[err.value.name]) else swept
  }

  /** The names on disk for an action, in an arbitrary order. */
  ghost predicate IsListing(dirs: map<Dir, Bundle>, a: string, names: seq<string>) {
    && (forall i, j | 0 <= i < j < |names| :: names[i] != names[j])
    && (forall x :: x in names <==> Dir(a, x) in dirs)
  }

  lemma SweptNone(dirs: map<Dir, Bundle>, rows: map<string, Row>, a: string, names: seq<string>)
    ensures Swept(dirs, rows, a, names[..0]) == dirs
  {
  }

  lemma SweptAppend(dirs: map<Dir, Bundle>, rows: map<string, Row>, a: string, names: seq<string>, n: nat)
    requires n < |names| && IsListing(dirs, a, names)
    ensures var before, after := Swept(dirs, rows, a, names[..n]), Swept(dirs, rows, a, names[..n + 1]);
            && Dir(a, names[n]) in before
            && after == if IsOrphan(rows, a, names[n]) then before - {Dir(a, names[n])} else before
  {
    assert names[..n + 1] == names[..n] + [names[n]];
    assert names[n] in names;
  }

  lemma RemovedOne(dirs: map<Dir, Bundle>, d: Dir)
    requires d in dirs
    ensures |dirs| == |dirs - {d}| + 1
  {
    assert dirs == (dirs - {d})[d := dirs[d]];
  }

  /** How far a sweep without error has come. */
  ghost predicate SweptTo(first: map<Dir, Bundle>, dirs: map<Dir, Bundle>, rows: map<string, Row>, a: string,
                          names: seq<string>, n: nat, cleaned: nat, lookupFails: set<string>,
                          deleteFails: map<string, Option<Bundle>>)
  {
    && n <= |names| && dirs == Swept(first, rows, a, names[..n]) && |first| == |dirs| + cleaned
    && forall i | 0 <= i < n :: Failure(rows, a, names[i], lookupFails, deleteFails) == None
  }

  /** Where a sweep stops: at the end, or at the first error. */
  ghost predicate SweptOut(first: map<Dir, Bundle>, dirs: map<Dir, Bundle>, rows: map<string, Row>, a: string,
                           names: seq<string>, n: nat, cleaned: nat, err: Option<CleanError>,
                           lookupFails: set<string>, deleteFails: map<string, Option<Bundle>>)
  {
    && n <= |names|
    && dirs == SweptThen(first, rows, a, names, n, err, deleteFails)
    && |first| == |Swept(first, rows, a, names[..n])| + cleaned
    && (forall i | 0 <= i < n :: Failure(rows, a, names[i], lookupFails, deleteFails) == None)
    && (err == if n < |names| then Failure(rows, a, names[n], lookupFails, deleteFails) else None)
    && (err.None? ==> n == |names|)
  }

  /** The step of a sweep, up to what CleanOne will do. */
  lemma SweptStep(first: map<Dir, Bundle>, dirs: map<Dir, Bundle>, rows: map<string, Row>, a: string,
                  names: seq<string>, n: nat, cleaned: nat, lookupFails: set<string>,
                  deleteFails: map<string, Option<Bundle>>)
    requires SweptTo(first, dirs, rows, a, names, n, cleaned, lookupFails, deleteFails)
    requires n < |names| && IsListing(first, a, names)
    ensures var failed := Failure(rows, a, names[n], lookupFails, deleteFails);
            var after := AfterOne(dirs, rows, a, names[n], lookupFails, deleteFails);
            && Dir(a, names[n]) in dirs
            && if failed.Some? then SweptOut(first, after, rows, a, names, n, cleaned, failed, lookupFails, deleteFails)
               else SweptTo(first, after, rows, a, names, n + 1, cleaned + if IsOrphan(rows, a, names[n]) then 1 else 0,
                            lookupFails, deleteFails)
  {
    SweptOne(first, dirs, rows, a, names, n, cleaned, lookupFails, deleteFails);
  }

  // ---- A sweep, directory by directory ---------------------------------------------------------------

  /** No row of this action has the directory's name. */
  predicate Stray(rows: map<string, Row>, a: string, name: string) { name in rows ==> rows[name].action != a }

  /** Among the names visited exactly the stray ones are gone; every other directory is as it was, except
      that one whose removal failed may be anything. */
  ghost predicate CleanedUp(before: map<Dir, Bundle>, after: map<Dir, Bundle>, rows: map<string, Row>, a: string,
                            visited: seq<string>, err: Option<CleanError>)
  {
    && after.Keys <= before.Keys
    && forall d | d in before && (d.action == a ==> err != Some(DeleteFailed(d.name))) ::
         && (d in after <==> !(d.action == a && d.name in visited && Stray(rows, a, d.name)))
         && (d in after ==> after[d] == before[d])
  }

  /** Which error this name leads to. */
  ghost predicate FailsWith(rows: map<string, Row>, a: string, name: string, err: Option<CleanError>,
                            lookupFails: set<string>, deleteFails: map<string, Option<Bundle>>)
  {
    && (err == Some(LookupFailed(name)) <==> name in lookupFails)
    && (err == Some(DeleteFailed(name)) <==> name !in lookupFails && Stray(rows, a, name) && name in deleteFails)
    && (err.None? <==> name !in lookupFails && !(Stray(rows, a, name) && name in deleteFails))
  }

  lemma StrayCount(first: map<Dir, Bundle>, rows: map<string, Row>, a: string, visited: seq<string>, cleaned: nat)
    requires |first| == |Swept(first, rows, a, visited)| + cleaned
    ensures cleaned == |set d | d in first && d.action == a && d.name in visited && Stray(rows, a, d.name)|
  {
    var gone := set d | d in first && d.action == a && d.name in visited && Stray(rows, a, d.name);
    var swept := Swept(first, rows, a, visited);
    assert first.Keys == swept.Keys + gone && swept.Keys !! gone;
    assert |first| == |first.Keys| && |swept| == |swept.Keys|;
  }

  lemma SweepIs(first: map<Dir, Bundle>, dirs: map<Dir, Bundle>, rows: map<string, Row>, a: string,
                names: seq<string>, n: nat, cleaned: nat, err: Option<CleanError>,
                lookupFails: set<string>, deleteFails: map<string, Option<Bundle>>)
    requires SweptOut(first, dirs, rows, a, names, n, cleaned, err, lookupFails, deleteFails)
    ensures CleanedUp(first, dirs, rows, a, names[..n], err)
    ensures forall i | 0 <= i < n :: FailsWith(rows, a, names[i], None, lookupFails, deleteFails)
    ensures n < |names| ==> FailsWith(rows, a, names[n], err, lookupFails, deleteFails)
    ensures n == |names| <==> err.None?
  {
    forall i | 0 <= i < n ensures FailsWith(rows, a, names[i], None, lookupFails, deleteFails) {
      assert Failure(rows, a, names[i], lookupFails, deleteFails) == None;
    }
  }

  /** One visit carries the sweep one name further, or ends it. */
  lemma SweptOne(first: map<Dir, Bundle>, dirs: map<Dir, Bundle>, rows: map<string, Row>, a: string, names: seq<string>,
                 n: nat, cleaned: nat, lookupFails: set<string>, deleteFails: map<string, Option<Bundle>>)
    requires SweptTo(first, dirs, rows, a, names, n, cleaned, lookupFails, deleteFails)
    requires n < |names| && IsListing(first, a, names)
    ensures var failed := Failure(rows, a, names[n], lookupFails, deleteFails);
            var after := AfterOne(dirs, rows, a, names[n], lookupFails, deleteFails);
            && Dir(a, names[n]) in dirs
            && if failed.Some? then after == SweptThen(first, rows, a, names, n, failed, deleteFails)
               else SweptTo(first, after, rows, a, names, n + 1, cleaned + if IsOrphan(rows, a, names[n]) then 1 else 0,
                            lookupFails, deleteFails)
  {
    SweptAppend(first, rows, a, names, n);
    RemovedOne(dirs, Dir(a, names[n]));
  }

  /** What should be left: every directory of other actions, and of this one those with a row. */
  function WithoutOrphans(dirs: map<Dir, Bundle>, rows: map<string, Row>, a: string): map<Dir, Bundle> {
    map d | d in dirs && (d.action == a ==> !IsOrphan(rows, a, d.name)) :: dirs[d]
  }

  /** A sweep that reaches the end removes exactly the directories with no row for the action, and
      nothing of any other action. */
  lemma FullSweep(dirs: map<Dir, Bundle>, rows: map<string, Row>, a: string, names: seq<string>)
    requires IsListing(dirs, a, names)
    ensures Swept(dirs, rows, a, names) == WithoutOrphans(dirs, rows, a)
  {
    forall d | d in dirs && d.action == a ensures d.name in names { assert d == Dir(a, d.name); }
  }
}
