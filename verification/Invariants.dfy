/** How one step changes workers, runs and tokens, and why every step keeps the invariant. */
module Invariants {
  import opened Domain
  import opened Store
  import opened Protocol

  // ---- What a step may change --------------------------------------------------------

  function Actor(e: Event): Option<nat> {
    match e
    case Claim(i, _, _) => Some(i)
    case Abort(i) => Some(i)
    case Mint(i, _, _, _) => Some(i)
    case Decide(i, _) => Some(i)
    case Panic(i) => Some(i)
    case RevokeFirst(i, _, _) => Some(i)
    case WriteStatus(i, _, _) => Some(i)
    case RevokeLast(i, _, _) => Some(i)
    case _ => None
  }

  function Job(x: Worker): string { if x.Idle? then "" else x.run }

  /** The status a step leaves a run in. */
  function StatusAfter(w: World, e: Event, r: string): RunStatus
    requires r in w.db.runs
  {
    match e
    case Claim(_, id, _) => if id == r then Running else w.db.runs[r].status
    case WriteStatus(i, _, ok) =>
      if ok && At(w, i).Writing? && At(w, i).run == r then At(w, i).status else w.db.runs[r].status
    case Start(_, _) => if w.db.runs[r].status == Running then Interrupted else w.db.runs[r].status
    case _ => w.db.runs[r].status
  }

  /** The phase the acting worker enters. */
  predicate Enters(w: World, e: Event, x: Worker) {
    match e
    case Claim(i, id, _) => At(w, i).Idle? && IsQueued(w.db, id) && x == Loading(id)
    case Abort(i) => At(w, i).Loading? && x == Revoking(At(w, i).run, false, Failed)
    case Mint(i, _, _, ok) =>
      At(w, i).Loading? && x == if ok then Executing(At(w, i).run) else Revoking(At(w, i).run, false, Failed)
    case Decide(i, s) => At(w, i).Executing? && IsVerdict(s) && x == Revoking(At(w, i).run, true, s)
    case Panic(i) => At(w, i).Executing? && x == Unwinding(At(w, i).run)
    case RevokeFirst(i, _, _) =>
      At(w, i).Revoking? && x == Writing(At(w, i).run, At(w, i).minted, At(w, i).status)
    case WriteStatus(i, _, _) =>
      At(w, i).Writing? && x == if At(w, i).minted then Closing(At(w, i).run) else Idle
    case RevokeLast(i, _, _) =>
      (At(w, i).Closing? && x == Idle) || (At(w, i).Unwinding? && x == Doomed(At(w, i).run))
    case _ => true
  }

  predicate WorkersEvolve(w: World, e: Event, w': World) {
    match e
    case Crash => w'.workers == map[]
    case Start(pool, _) => w'.workers == map i | i in pool :: Idle
    case _ =>
      if Actor(e).None? then w'.workers == w.workers
      else
        var i := Actor(e).value;
        i in w.workers && i in w'.workers && w'.workers == w.workers[i := w'.workers[i]] && Enters(w, e, w'.workers[i])
  }

  /** Runs never disappear or change identity; a new run is queued. */
  predicate RunEvolves(w: World, e: Event, w': World, r: string) {
    && (r in w.db.runs ==>
          && r in w'.db.runs
          && w'.db.runs[r].(startedAt := None, completedAt := None)
             == w.db.runs[r].(status := StatusAfter(w, e, r), startedAt := None, completedAt := None))
    && (r !in w.db.runs && r in w'.db.runs ==>
          e.StoreRun? && e.ok && e.id == r && e.op in w.ops && w.ops[e.op] == Inserting(w'.db.runs[r])
          && w'.db.runs[r].status == Queued)
  }

  /** A token record only ever gains a revocation time. */
  predicate Kept(t: RunToken, t': RunToken) {
    t' == t || (t.revokedAt.None? && t'.revokedAt.Some? && t' == t.(revokedAt := t'.revokedAt))
  }

  predicate TokenEvolves(w: World, e: Event, w': World, k: string) {
    && (k in w.db.tokens ==> k in w'.db.tokens && Kept(w.db.tokens[k], w'.db.tokens[k]))
    && (k !in w.db.tokens && k in w'.db.tokens ==>
          && e.Mint? && e.ok && At(w, e.worker).Loading? && At(w, e.worker).run in w.db.runs
          && k == TokenId(At(w, e.worker).run)
          && w'.db.tokens[k] == Token(w.db, At(w, e.worker).run, e.hash, e.expiresAt)
          && CanInsertToken(w.db, k, w'.db.tokens[k]))
  }

  predicate HistoryEvolves(w: World, e: Event, w': World) {
    match e
    case Crash => !w'.up && w'.lost == w.lost
    case Start(_, _) => w'.up && w'.lost == w.lost
    case WriteStatus(i, _, ok) => w'.up == w.up && w'.lost == if ok then w.lost else w.lost + {Job(At(w, i))}
    case _ => w'.up == w.up && w'.lost == w.lost
  }

  lemma WorkersFrame(w: World, e: Event)
    requires Enabled(w, e)
    ensures WorkersEvolve(w, e, Apply(w, e)) && HistoryEvolves(w, e, Apply(w, e))
  {
  }

  lemma RunFrame(w: World, e: Event, r: string)
    requires OpsOk(w) && Enabled(w, e)
    ensures RunEvolves(w, e, Apply(w, e), r)
  {
    match e {
      case StoreRun(op, _, _) => assert OpOk(w, w.ops[op]);
      case Claim(_, _, _) =>
      case WriteStatus(_, _, _) =>
      case Start(_, _) =>
      case _ => assert Apply(w, e).db.runs == w.db.runs;
    }
  }

  lemma TokenFrame(w: World, e: Event, k: string)
    requires TokenOk(w.db, k) && Enabled(w, e)
    ensures TokenEvolves(w, e, Apply(w, e), k)
  {
    match e {
      case DeleteAction(_) =>
      case Mint(_, _, _, _) =>
      case RevokeFirst(_, _, _) =>
      case RevokeLast(_, _, _) =>
      case Start(_, _) =>
      case _ => assert Apply(w, e).db.tokens == w.db.tokens;
    }
  }

  // ---- Each conjunct is kept ------------------------------------------------------------

  lemma TokenIdInjective(a: string, b: string)
    requires TokenId(a) == TokenId(b)
    ensures a == b
  {
    assert TokenId(a)[4..] == a && TokenId(b)[4..] == b;
  }

  /** The worker a step belongs to satisfies its invariant. */
  predicate ActorOk(w: World, e: Event) {
    Actor(e).Some? ==> Actor(e).value in w.workers && WorkerOk(w, Actor(e).value)
  }

  lemma KeepsToken(w: World, e: Event, w': World, k: string)
    requires TokenOk(w.db, k) && ActorOk(w, e)
    requires TokenEvolves(w, e, w', k) && k in w'.db.tokens
    requires RunEvolves(w, e, w', w'.db.tokens[k].run)
    ensures TokenOk(w'.db, k)
  {
  }

  /** A loading worker's run still has no token. */
  lemma StillNoToken(w: World, e: Event, w': World, run: string)
    requires TokensOk(w) && TokenEvolves(w, e, w', TokenId(run)) && TokenId(run) !in w.db.tokens
    requires e.Mint? ==> At(w, e.worker).Busy() && At(w, e.worker).run != run
    ensures TokenId(run) !in w'.db.tokens
  {
    if TokenId(run) in w'.db.tokens { TokenIdInjective(run, At(w, e.worker).run); }
  }

  /** The worker that takes the step. */
  lemma KeepsActor(w: World, e: Event, w': World, i: nat)
    requires TokensOk(w) && ActorOk(w, e) && Actor(e) == Some(i)
    requires WorkersEvolve(w, e, w') && HistoryEvolves(w, e, w')
    requires w'.workers[i].Busy() && RunEvolves(w, e, w', w'.workers[i].run)
    requires TokenEvolves(w, e, w', TokenId(w'.workers[i].run))
    ensures WorkerOk(w', i)
  {
    match e {
      case Claim(_, id, _) => NoTokenYet(w, e, w', id);
      case Mint(_, _, _, _) =>
      case WriteStatus(_, _, _) =>
      case _ =>
    }
  }

  /** A queued run has no token, and a claim gives it none. */
  lemma NoTokenYet(w: World, e: Event, w': World, run: string)
    requires TokensOk(w) && TokenEvolves(w, e, w', TokenId(run)) && e.Claim? && IsQueued(w.db, run)
    ensures TokenId(run) !in w'.db.tokens
  {
    if TokenId(run) in w.db.tokens {
      assert TokenOk(w.db, TokenId(run));
      TokenIdInjective(run, w.db.tokens[TokenId(run)].run);
    }
  }

  /** A worker that takes no part in the step. */
  lemma KeepsBystander(w: World, e: Event, w': World, i: nat)
    requires TokensOk(w) && ActorOk(w, e) && Actor(e) != Some(i)
    requires i in w.workers && WorkerOk(w, i) && (Actor(e).Some? ==> Distinct(w, i, Actor(e).value))
    requires WorkersEvolve(w, e, w') && HistoryEvolves(w, e, w') && !e.Crash? && !e.Start?
    requires w.workers[i].Busy()
    requires RunEvolves(w, e, w', w.workers[i].run) && TokenEvolves(w, e, w', TokenId(w.workers[i].run))
    ensures WorkerOk(w', i)
  {
    assert w'.workers[i] == w.workers[i];
    if w.workers[i].Loading? { StillNoToken(w, e, w', w.workers[i].run); }
  }

  lemma KeepsWorker(w: World, e: Event, w': World, i: nat)
    requires TokensOk(w) && ActorOk(w, e)
    requires i in w.workers && WorkerOk(w, i) && (Actor(e).Some? ==> Distinct(w, i, Actor(e).value))
    requires WorkersEvolve(w, e, w') && HistoryEvolves(w, e, w')
    requires i in w'.workers && w'.workers[i].Busy()
    requires RunEvolves(w, e, w', w'.workers[i].run)
    requires TokenEvolves(w, e, w', TokenId(w'.workers[i].run))
    ensures WorkerOk(w', i)
  {
    if Actor(e) == Some(i) {
      KeepsActor(w, e, w', i);
    } else {
      KeepsBystander(w, e, w', i);
    }
  }

  lemma KeepsDistinct(w: World, e: Event, w': World, i: nat, j: nat)
    requires ActorOk(w, e) && WorkersEvolve(w, e, w')
    requires i in w'.workers && j in w'.workers
    requires Distinct(w, i, j) && WorkerOk(w, i) && WorkerOk(w, j)
    ensures Distinct(w', i, j)
  {
  }

  /** The owner of a run that is still running stays with it, or its verdict is lost. */
  lemma OwnerStays(w: World, e: Event, w': World, r: string, i: nat)
    requires i in w.workers && w.workers[i].Busy() && w.workers[i].run == r && WorkerOk(w, i)
    requires !e.Start? && RunEvolves(w, e, w', r) && WorkersEvolve(w, e, w') && HistoryEvolves(w, e, w')
    requires w'.up && IsRunning(w'.db.runs, r)
    ensures r in w'.lost || (i in w'.workers && w'.workers[i].Busy() && w'.workers[i].run == r)
  {
  }

  lemma KeepsOwner(w: World, e: Event, w': World, r: string)
    requires NoOrphans(w) && ActorOk(w, e) && forall i | i in w.workers :: WorkerOk(w, i)
    requires RunEvolves(w, e, w', r) && WorkersEvolve(w, e, w') && HistoryEvolves(w, e, w')
    requires w'.up && IsRunning(w'.db.runs, r)
    ensures r in w'.lost || Owned(w', r)
  {
    if e.Claim? && e.id == r {
      assert w'.workers[e.worker].run == r;
    } else if !e.Start? && r !in w'.lost {
      assert r in w.db.runs && w.db.runs[r].status == Running;
      var i :| i in w.workers && w.workers[i].Busy() && w.workers[i].run == r;
      OwnerStays(w, e, w', r, i);
    }
  }

  /** What a build was created for never changes. */
  lemma LogFrame(w: World, e: Event, b: string)
    requires Enabled(w, e) && b in w.buildLog
    ensures b in Apply(w, e).buildLog && Apply(w, e).buildLog[b] == w.buildLog[b]
  {
  }

  predicate ActionRowOk(log: map<string, BuildKey>, a: string, row: ActionRow) {
    row.maxConcurrency >= 1 && PairOk(log, a, row.activeVersion, row.activeBuild)
  }

  lemma PairStaysOk(w: World, e: Event, a: string, v: string, b: string)
    requires Enabled(w, e) && PairOk(w.buildLog, a, v, b)
    ensures PairOk(Apply(w, e).buildLog, a, v, b)
  {
    if b in w.buildLog { LogFrame(w, e, b); }
  }

  /** Where an action's new row comes from. */
  lemma ActionRowFrom(w: World, e: Event, a: string)
    requires Enabled(w, e) && a in Apply(w, e).db.actions
    requires a in w.db.actions ==> ActionRowOk(w.buildLog, a, w.db.actions[a])
    requires forall o | o in w.ops :: OpOk(w, w.ops[o])
    ensures ActionRowOk(w.buildLog, a, Apply(w, e).db.actions[a])
  {
    match e {
      case CreateAction(_, _) =>
      case EndUpdate(op, _, _, _) => assert OpOk(w, w.ops[op]);
      case EndActivate(op, _) => assert OpOk(w, w.ops[op]);
      case DeleteAction(_) =>
      case _ => assert Apply(w, e).db.actions == w.db.actions;
    }
  }

  lemma KeepsActions(w: World, e: Event)
    requires ActionsOk(w) && OpsOk(w) && Enabled(w, e)
    ensures ActionsOk(Apply(w, e))
  {
    var w' := Apply(w, e);
    forall a | a in w'.db.actions ensures ActionRowOk(w'.buildLog, a, w'.db.actions[a]) {
      ActionRowFrom(w, e, a);
      PairStaysOk(w, e, a, w'.db.actions[a].activeVersion, w'.db.actions[a].activeBuild);
    }
  }

  predicate BuildRowOk(log: map<string, BuildKey>, b: string, row: BuildRow) {
    b in log && log[b] == BuildKey(row.action, row.version)
  }

  lemma KeepsBuild(w: World, e: Event, b: string)
    requires Enabled(w, e) && b in Apply(w, e).db.builds
    requires b in w.db.builds ==> BuildRowOk(w.buildLog, b, w.db.builds[b])
    ensures BuildRowOk(Apply(w, e).buildLog, b, Apply(w, e).db.builds[b])
  {
    match e {
      case CreateBuild(_, _) =>
      case UpdateBuild(_, _) =>
      case DeleteAction(_) =>
      case _ => assert Apply(w, e).db.builds == w.db.builds;
    }
  }

  lemma KeepsBuilds(w: World, e: Event)
    requires BuildsOk(w) && Enabled(w, e)
    ensures BuildsOk(Apply(w, e))
  {
    var w' := Apply(w, e);
    forall b | b in w'.db.builds ensures BuildRowOk(w'.buildLog, b, w'.db.builds[b]) { KeepsBuild(w, e, b); }
  }

  predicate RunRowOk(w: World, row: RunRow) {
    NamesBuild(w.buildLog, row) && row.action in w.db.actions && row.build in w.db.builds
  }

  lemma KeepsRunRow(w: World, e: Event, r: string)
    requires Enabled(w, e) && r in w.db.runs && RunRowOk(w, w.db.runs[r])
    ensures RunRowOk(Apply(w, e), w.db.runs[r])
  {
    LogFrame(w, e, w.db.runs[r].build);
    match e {
      case DeleteAction(_) =>
      case _ =>
    }
  }

  lemma KeepsRuns(w: World, e: Event)
    requires OpsOk(w) && RunsOk(w) && Enabled(w, e)
    ensures RunsOk(Apply(w, e))
  {
    var w' := Apply(w, e);
    forall r | r in w'.db.runs ensures RunRowOk(w', w'.db.runs[r]) {
      RunFrame(w, e, r);
      if r in w.db.runs {
        KeepsRunRow(w, e, r);
      } else {
        assert OpOk(w, w.ops[e.op]);
      }
    }
  }

  lemma KeepsOp(w: World, e: Event, o: Op)
    requires Enabled(w, e) && OpOk(w, o)
    ensures OpOk(Apply(w, e), o)
  {
    match o {
      case Updating(_, row) => if row.activeBuild in w.buildLog { LogFrame(w, e, row.activeBuild); }
      case Activating(_, _, b) => LogFrame(w, e, b);
      case Preparing(_, _, b) => LogFrame(w, e, b);
      case Inserting(row) => LogFrame(w, e, row.build);
    }
  }

  lemma FetchedIsOk(w: World, op: nat, o: nat, e: Event)
    requires Enabled(w, e) && e.FetchBuild? && e.op == op && OpOk(w, w.ops[op])
    requires o in Apply(w, e).ops && (o !in w.ops || Apply(w, e).ops[o] != w.ops[o])
    ensures OpOk(Apply(w, e), Apply(w, e).ops[o])
  {
  }

  /** A new or advanced request holds what the tables hold. */
  lemma NewOpIsOk(w: World, e: Event, o: nat)
    requires ActionsOk(w) && BuildsOk(w) && OpsOk(w) && Enabled(w, e)
    requires o in Apply(w, e).ops && (o !in w.ops || Apply(w, e).ops[o] != w.ops[o])
    ensures OpOk(Apply(w, e), Apply(w, e).ops[o])
  {
    match e {
      case BeginUpdate(_, id) => assert ActionRowOk(w.buildLog, id, w.db.actions[id]);
      case CheckBuild(_, _, _, b) => assert BuildRowOk(w.buildLog, b, w.db.builds[b]);
      case ReadActive(_, id) => assert ActionRowOk(w.buildLog, id, w.db.actions[id]);
      case FetchBuild(op, _, _) => FetchedIsOk(w, op, o, e);
      case _ =>
    }
  }

  lemma KeepsOps(w: World, e: Event)
    requires ActionsOk(w) && BuildsOk(w) && OpsOk(w) && Enabled(w, e)
    ensures OpsOk(Apply(w, e))
  {
    var w' := Apply(w, e);
    forall o | o in w'.ops ensures OpOk(w', w'.ops[o]) {
      if o in w.ops && w'.ops[o] == w.ops[o] {
        KeepsOp(w, e, w.ops[o]);
      } else {
        NewOpIsOk(w, e, o);
      }
    }
  }

  lemma KeepsTokens(w: World, e: Event)
    requires Inv(w) && Enabled(w, e) && ActorOk(w, e)
    ensures TokensOk(Apply(w, e))
  {
    var w' := Apply(w, e);
    forall k | k in w'.db.tokens ensures TokenOk(w'.db, k) {
      assert TokenOk(w.db, k);
      TokenFrame(w, e, k);
      RunFrame(w, e, w'.db.tokens[k].run);
      KeepsToken(w, e, w', k);
    }
  }

  lemma KeepsHashes(w: World, e: Event)
    requires TokensOk(w) && HashesOk(w) && Enabled(w, e)
    ensures HashesOk(Apply(w, e))
  {
    var w' := Apply(w, e);
    forall k, l | k in w'.db.tokens && l in w'.db.tokens ensures SameHashSameToken(w'.db, k, l) {
      assert TokenOk(w.db, k) && TokenOk(w.db, l);
      TokenFrame(w, e, k);
      TokenFrame(w, e, l);
      if k in w.db.tokens && l in w.db.tokens { assert SameHashSameToken(w.db, k, l); }
    }
  }

  lemma KeepsEachWorker(w: World, e: Event, i: nat)
    requires OpsOk(w) && TokensOk(w) && WorkersOk(w) && Enabled(w, e) && ActorOk(w, e)
    requires !e.Crash? && !e.Start? && i in Apply(w, e).workers
    ensures WorkerOk(Apply(w, e), i)
  {
    var w' := Apply(w, e);
    WorkersFrame(w, e);
    if w'.workers[i].Busy() {
      assert WorkerOk(w, i);
      if Actor(e).Some? { assert Distinct(w, i, Actor(e).value); }
      RunFrame(w, e, w'.workers[i].run);
      TokenFrame(w, e, TokenId(w'.workers[i].run));
      KeepsWorker(w, e, w', i);
    }
  }

  lemma KeepsWorkers(w: World, e: Event)
    requires Inv(w) && Enabled(w, e) && ActorOk(w, e)
    ensures WorkersOk(Apply(w, e))
  {
    var w' := Apply(w, e);
    WorkersFrame(w, e);
    if !e.Crash? && !e.Start? {
      forall i | i in w'.workers ensures WorkerOk(w', i) { KeepsEachWorker(w, e, i); }
      forall i, j | i in w'.workers && j in w'.workers ensures Distinct(w', i, j) {
        assert Distinct(w, i, j) && WorkerOk(w, i) && WorkerOk(w, j);
        KeepsDistinct(w, e, w', i, j);
      }
    }
  }

  lemma KeepsNoOrphans(w: World, e: Event)
    requires Inv(w) && Enabled(w, e) && ActorOk(w, e)
    ensures NoOrphans(Apply(w, e))
  {
    var w' := Apply(w, e);
    WorkersFrame(w, e);
    if w'.up {
      forall r | r in w'.db.runs && w'.db.runs[r].status == Running ensures r in w'.lost || Owned(w', r) {
        RunFrame(w, e, r);
        KeepsOwner(w, e, w', r);
      }
    }
  }

  lemma ActorIsOk(w: World, e: Event)
    requires Inv(w) && Enabled(w, e)
    ensures ActorOk(w, e)
  {
    WorkersFrame(w, e);
  }

  /** Every atomic step of every participant keeps the invariant. */
  lemma StepKeepsInv(w: World, e: Event, w': World)
    requires Inv(w) && Step(w, e, w')
    ensures Inv(w')
  {
    ActorIsOk(w, e);
    KeepsActions(w, e);
    KeepsBuilds(w, e);
    KeepsRuns(w, e);
    KeepsOps(w, e);
    KeepsTokens(w, e);
    KeepsHashes(w, e);
    KeepsWorkers(w, e);
    KeepsNoOrphans(w, e);
  }
}
