/** Guarantees over whole histories: every behaviour that starts from an empty installation,
    with any interleaving of workers, administrators, failed writes, crashes and restarts. */
module History {
  import opened Domain
  import opened Store
  import opened Protocol
  import opened Invariants
  import opened Sums

  predicate StepAt(ws: seq<World>, es: seq<Event>, k: int) {
    0 <= k < |es| && k + 1 < |ws| && Step(ws[k], es[k], ws[k + 1])
  }

  /** es[k] takes the world from ws[k] to ws[k + 1], starting from an empty installation. */
  predicate Behaviour(ws: seq<World>, es: seq<Event>) {
    && |ws| == |es| + 1
    && ws[0] == Fresh
    && forall k | 0 <= k < |es| :: StepAt(ws, es, k)
  }

  lemma Steps(ws: seq<World>, es: seq<Event>, k: nat)
    requires Behaviour(ws, es) && k < |es|
    ensures Step(ws[k], es[k], ws[k + 1]) && Inv(ws[k])
  {
    assert StepAt(ws, es, k);
    InvAlways(ws, es, k);
  }

  lemma {:induction false} InvAlways(ws: seq<World>, es: seq<Event>, j: nat)
    requires Behaviour(ws, es) && j <= |es|
    ensures Inv(ws[j])
  {
    if j > 0 {
      InvAlways(ws, es, j - 1);
      assert StepAt(ws, es, j - 1);
      StepKeepsInv(ws[j - 1], es[j - 1], ws[j]);
    }
  }

  // ---- Statuses ---------------------------------------------------------------------------

  predicate SameIdentity(a: RunRow, b: RunRow) {
    a.action == b.action && a.version == b.version && a.build == b.build && a.trigger == b.trigger
    && a.createdAt == b.createdAt
  }

  lemma StepStatus(w: World, e: Event, w': World, r: string)
    requires Inv(w) && Step(w, e, w') && r in w.db.runs
    ensures r in w'.db.runs && SameIdentity(w.db.runs[r], w'.db.runs[r])
    ensures w.db.runs[r].status == Queued ==> w'.db.runs[r].status in {Queued, Running}
    ensures w.db.runs[r].status.MayBecome(w'.db.runs[r].status)
  {
    ActorIsOk(w, e);
    RunFrame(w, e, r);
  }

  /** A stored run is never lost or changed in identity, and its status only moves forward;
      in particular a terminal status is final. */
  lemma {:induction false} StatusOnlyAdvances(ws: seq<World>, es: seq<Event>, i: nat, j: nat, r: string)
    requires Behaviour(ws, es) && i <= j <= |es| && r in ws[i].db.runs
    ensures r in ws[j].db.runs && SameIdentity(ws[i].db.runs[r], ws[j].db.runs[r])
    ensures ws[i].db.runs[r].status.MayBecome(ws[j].db.runs[r].status)
    decreases j - i
  {
    if i < j {
      StatusOnlyAdvances(ws, es, i, j - 1, r);
      Steps(ws, es, j - 1);
      StepStatus(ws[j - 1], es[j - 1], ws[j], r);
    }
  }

  /** No run skips the running state on its way to a terminal status. */
  lemma {:induction false} TerminalRunsHaveRun(ws: seq<World>, es: seq<Event>, i: nat, j: nat, r: string)
    returns (k: nat)
    requires Behaviour(ws, es) && i <= j <= |es|
    requires IsQueued(ws[i].db, r) && r in ws[j].db.runs && ws[j].db.runs[r].status != Queued
    ensures i < k <= j && IsRunning(ws[k].db.runs, r)
    decreases j - i
  {
    Steps(ws, es, i);
    StepStatus(ws[i], es[i], ws[i + 1], r);
    if IsRunning(ws[i + 1].db.runs, r) {
      k := i + 1;
    } else {
      k := TerminalRunsHaveRun(ws, es, i + 1, j, r);
    }
  }

  predicate ClaimOf(e: Event, r: string) { e.Claim? && e.id == r }

  lemma ClaimStartsRun(ws: seq<World>, es: seq<Event>, i: nat, r: string)
    requires Behaviour(ws, es) && i < |es| && ClaimOf(es[i], r)
    ensures IsQueued(ws[i].db, r) && IsRunning(ws[i + 1].db.runs, r)
  {
    assert StepAt(ws, es, i);
  }

  /** Each run is claimed at most once in the life of the installation. */
  lemma ClaimedAtMostOnce(ws: seq<World>, es: seq<Event>, i: nat, j: nat, r: string)
    requires Behaviour(ws, es) && i < |es| && j < |es|
    requires ClaimOf(es[i], r) && ClaimOf(es[j], r)
    ensures i == j
  {
    ClaimStartsRun(ws, es, i, r);
    ClaimStartsRun(ws, es, j, r);
    if i < j {
      StatusOnlyAdvances(ws, es, i + 1, j, r);
    } else if j < i {
      StatusOnlyAdvances(ws, es, j + 1, i, r);
    }
  }

  /** UPDATE runs SET status has no guard and needs none: whenever a worker stores a verdict,
      the row it overwrites is still running. */
  lemma VerdictsOverwriteRunning(ws: seq<World>, es: seq<Event>, k: nat)
    requires Behaviour(ws, es) && k < |es| && es[k].WriteStatus?
    ensures var x := At(ws[k], es[k].worker);
            x.Writing? && IsRunning(ws[k].db.runs, x.run) && x.status.IsTerminal()
  {
    Steps(ws, es, k);
    assert WorkerOk(ws[k], es[k].worker);
  }

  /** At any time a run has at most one worker, and while that worker is open the run is running. */
  lemma OneWorkerPerRun(ws: seq<World>, es: seq<Event>, j: nat, a: nat, b: nat)
    requires Behaviour(ws, es) && j <= |es| && a in ws[j].workers && b in ws[j].workers
    requires ws[j].workers[a].Busy() && ws[j].workers[b].Busy() && ws[j].workers[a].run == ws[j].workers[b].run
    ensures a == b
    ensures ws[j].workers[a].Open() ==> IsRunning(ws[j].db.runs, ws[j].workers[a].run)
  {
    InvAlways(ws, es, j);
    assert Distinct(ws[j], a, b) && WorkerOk(ws[j], a);
  }

  /** The step that gives a run its final status. */
  predicate Finishes(ws: seq<World>, k: nat, r: string)
    requires k + 1 < |ws|
  {
    IsRunning(ws[k].db.runs, r) && r in ws[k + 1].db.runs && ws[k + 1].db.runs[r].status.IsTerminal()
  }

  lemma FinishedAtMostOnce(ws: seq<World>, es: seq<Event>, i: nat, j: nat, r: string)
    requires Behaviour(ws, es) && i < |es| && j < |es|
    requires Finishes(ws, i, r) && Finishes(ws, j, r)
    ensures i == j
  {
    if i < j {
      StatusOnlyAdvances(ws, es, i + 1, j, r);
    } else if j < i {
      StatusOnlyAdvances(ws, es, j + 1, i, r);
    }
  }

  // ---- Capability tokens --------------------------------------------------------------------

  /** AuthenticateMiddleware's first read: token record k has the presented hash and is valid. */
  predicate TokenValid(db: Db, k: string, hash: string, now: int) {
    k in db.tokens && db.tokens[k].hash == hash && db.tokens[k].IsValid(now)
  }

  /** The whole check: the token record comes from one read and the run's status from a later one; other
      statements may come in between. */
  predicate Accepts(first: Db, second: Db, k: string, hash: string, now: int) {
    TokenValid(first, k, hash, now) && IsRunning(second.runs, first.tokens[k].run)
  }

  /** In one sentence: the record has the hash, is not revoked and not expired at the first read, and its run
      is running at the second. */
  lemma AcceptsIff(first: Db, second: Db, k: string, hash: string, now: int)
    ensures Accepts(first, second, k, hash, now) <==>
              && k in first.tokens && first.tokens[k].hash == hash
              && first.tokens[k].revokedAt == None && now < first.tokens[k].expiresAt
              && first.tokens[k].run in second.runs && second.runs[first.tokens[k].run].status == Running
  {
  }

  lemma TokenStep(ws: seq<World>, es: seq<Event>, i: nat, k: string)
    requires Behaviour(ws, es) && i < |es| && k in ws[i].db.tokens
    ensures k in ws[i + 1].db.tokens && Kept(ws[i].db.tokens[k], ws[i + 1].db.tokens[k])
  {
    Steps(ws, es, i);
    TokenFrame(ws[i], es[i], k);
  }

  lemma {:induction false} TokensPersist(ws: seq<World>, es: seq<Event>, i: nat, j: nat, k: string)
    requires Behaviour(ws, es) && i <= j <= |es| && k in ws[i].db.tokens
    ensures k in ws[j].db.tokens && Kept(ws[i].db.tokens[k], ws[j].db.tokens[k])
    decreases j - i
  {
    if i < j {
      TokensPersist(ws, es, i, j - 1, k);
      TokenStep(ws, es, j - 1, k);
    }
  }

  /** At any time a run has at most one token, and over its life at most one is ever stored. */
  lemma OneTokenPerRun(ws: seq<World>, es: seq<Event>, i: nat, j: nat, k: string, l: string)
    requires Behaviour(ws, es) && i <= j <= |es|
    requires k in ws[i].db.tokens && l in ws[j].db.tokens && ws[i].db.tokens[k].run == ws[j].db.tokens[l].run
    ensures k == l
  {
    InvAlways(ws, es, i);
    InvAlways(ws, es, j);
    assert TokenOk(ws[i].db, k) && TokenOk(ws[j].db, l);
  }

  /** A token works: what a run's worker stores when it mints is accepted by any two later reads exactly until
      the token is revoked, its time is up or its run has ended, and it grants the scopes its version lists. */
  lemma MintedTokenIsAcceptedIff(ws: seq<World>, es: seq<Event>, n: nat, j1: nat, j2: nat, now: int)
    requires Behaviour(ws, es) && n < j1 <= j2 <= |es| && es[n].Mint? && es[n].ok
    ensures At(ws[n], es[n].worker).Loading? && At(ws[n], es[n].worker).run in ws[n].db.runs
    ensures var run := At(ws[n], es[n].worker).run;
            var k, row := "tok_" + run, ws[n].db.runs[run];
            && k in ws[j1].db.tokens && run in ws[j2].db.runs
            && (Accepts(ws[j1].db, ws[j2].db, k, es[n].hash, now) <==>
                  && ws[j1].db.tokens[k].revokedAt == None && now < es[n].expiresAt
                  && ws[j2].db.runs[run].status == Running)
            && ws[j1].db.tokens[k].action == row.action
            && (row.version in ws[n].db.versions ==>
                  forall scope :: ws[j1].db.tokens[k].HasScope(scope)
                                  <==> scope in ws[n].db.versions[row.version].capabilities)
  {
    Steps(ws, es, n);
    var run := At(ws[n], es[n].worker).run;
    var k := TokenId(run);
    assert k in ws[n + 1].db.tokens && ws[n + 1].db.tokens[k] == Token(ws[n].db, run, es[n].hash, es[n].expiresAt);
    TokensPersist(ws, es, n + 1, j1, k);
    StatusOnlyAdvances(ws, es, n, j2, run);
  }

  /** A run is dead once its terminal status, or the revocation of its token, has been stored. */
  predicate Dead(db: Db, r: string) {
    || (r in db.runs && db.runs[r].status.IsTerminal())
    || (exists k :: k in db.tokens && db.tokens[k].run == r && db.tokens[k].revokedAt.Some?)
  }

  /** A request that starts from then on is never authenticated with a token of that run, whatever the
      clock says. */
  lemma DeadRunsAreNeverAuthenticated(
      ws: seq<World>, es: seq<Event>, i: nat, j1: nat, j2: nat, r: string, k: string, hash: string, now: int)
    requires Behaviour(ws, es) && i <= j1 <= j2 <= |es| && Dead(ws[i].db, r)
    requires k in ws[j1].db.tokens && ws[j1].db.tokens[k].run == r
    ensures !Accepts(ws[j1].db, ws[j2].db, k, hash, now)
  {
    if r in ws[i].db.runs && ws[i].db.runs[r].status.IsTerminal() {
      StatusOnlyAdvances(ws, es, i, j2, r);
    } else {
      var dead :| dead in ws[i].db.tokens && ws[i].db.tokens[dead].run == r && ws[i].db.tokens[dead].revokedAt.Some?;
      TokensPersist(ws, es, i, j1, dead);
      OneTokenPerRun(ws, es, j1, j1, dead, k);
    }
  }

  /** A stored terminal status ends acceptance even for requests already under way: it is enough that it
      is stored before the second read. */
  lemma EndedRunsAreNeverAuthenticated(
      ws: seq<World>, es: seq<Event>, i: nat, j1: nat, j2: nat, k: string, hash: string, now: int)
    requires Behaviour(ws, es) && i <= j2 <= |es| && j1 <= |es| && k in ws[j1].db.tokens
    requires var r := ws[j1].db.tokens[k].run; r in ws[i].db.runs && ws[i].db.runs[r].status.IsTerminal()
    ensures !Accepts(ws[j1].db, ws[j2].db, k, hash, now)
  {
    StatusOnlyAdvances(ws, es, i, j2, ws[j1].db.tokens[k].run);
  }

  /** Step m stores the revocation of token k. */
  predicate RevokedAt(ws: seq<World>, m: int, k: string) {
    && 0 <= m && m + 1 < |ws| && k in ws[m].db.tokens && ws[m].db.tokens[k].revokedAt.None?
    && k in ws[m + 1].db.tokens && ws[m + 1].db.tokens[k].revokedAt.Some?
  }

  lemma {:induction false} FindRevocation(ws: seq<World>, es: seq<Event>, i: nat, j: nat, k: string) returns (m: nat)
    requires Behaviour(ws, es) && i <= j <= |es| && k in ws[i].db.tokens && k in ws[j].db.tokens
    requires ws[i].db.tokens[k].revokedAt.None? && ws[j].db.tokens[k].revokedAt.Some?
    ensures i <= m < j && RevokedAt(ws, m, k)
    decreases j - i
  {
    TokenStep(ws, es, i, k);
    m := i;
    if ws[i + 1].db.tokens[k].revokedAt.None? { m := FindRevocation(ws, es, i + 1, j, k); }
  }

  /** The window between the two reads: a request is accepted although its run is dead by then if and only
      if the token record was valid at the first read, its revocation was stored after that read and before
      the second, and the run is still running at the second. */
  lemma AcceptedThoughDeadIff(
      ws: seq<World>, es: seq<Event>, j1: nat, j2: nat, k: string, hash: string, now: int)
    requires Behaviour(ws, es) && j1 <= j2 <= |es| && k in ws[j1].db.tokens
    ensures var r := ws[j1].db.tokens[k].run;
            Accepts(ws[j1].db, ws[j2].db, k, hash, now) && Dead(ws[j2].db, r)
            <==> && TokenValid(ws[j1].db, k, hash, now) && IsRunning(ws[j2].db.runs, r)
                 && exists m :: j1 <= m < j2 && RevokedAt(ws, m, k)
  {
    var r := ws[j1].db.tokens[k].run;
    TokensPersist(ws, es, j1, j2, k);
    if Accepts(ws[j1].db, ws[j2].db, k, hash, now) && Dead(ws[j2].db, r) {
      var dead :| dead in ws[j2].db.tokens && ws[j2].db.tokens[dead].run == r && ws[j2].db.tokens[dead].revokedAt.Some?;
      OneTokenPerRun(ws, es, j2, j2, dead, k);
      var m := FindRevocation(ws, es, j1, j2, k);
    }
    if m :| j1 <= m < j2 && RevokedAt(ws, m, k) {
      TokensPersist(ws, es, m + 1, j2, k);
    }
  }

  /** The step is a worker's revocation of this run's tokens. */
  predicate RevocationOf(w: World, e: Event, r: string) {
    (e.RevokeFirst? || e.RevokeLast?) && e.ok && At(w, e.worker).Busy() && At(w, e.worker).run == r
  }

  lemma OthersDoNotRevoke(w: World, e: Event, k: string)
    requires Enabled(w, e) && k in w.db.tokens && k in Apply(w, e).db.tokens
    requires !RevocationOf(w, e, w.db.tokens[k].run)
    ensures (e.Start? && IsRunning(w.db.runs, w.db.tokens[k].run))
            || Apply(w, e).db.tokens[k] == w.db.tokens[k]
  {
    match e {
      case DeleteAction(_) =>
      case Mint(_, _, _, _) =>
      case RevokeFirst(_, _, _) =>
      case RevokeLast(_, _, _) =>
      case Start(_, _) =>
      case _ => assert Apply(w, e).db.tokens == w.db.tokens;
    }
  }

  /** Such a revocation was stored by the run's own worker, which has not stored a status since. */
  lemma WindowIsTheWorkers(ws: seq<World>, es: seq<Event>, m: nat, k: string)
    requires Behaviour(ws, es) && m < |es| && RevokedAt(ws, m, k)
    requires IsRunning(ws[m + 1].db.runs, ws[m].db.tokens[k].run)
    ensures RevocationOf(ws[m], es[m], ws[m].db.tokens[k].run)
  {
    assert StepAt(ws, es, m);
    if es[m].Start? { RecoverRecovers(ws[m].db, es[m].now); }
    if !RevocationOf(ws[m], es[m], ws[m].db.tokens[k].run) { OthersDoNotRevoke(ws[m], es[m], k); }
  }

  /** An accepted token identifies one record, speaks for its run's own action, and belongs to a run
      that has a live worker or whose verdict could not be stored (or the process is down). */
  lemma AcceptedTokensAreOwned(ws: seq<World>, es: seq<Event>, j1: nat, j2: nat, k: string, hash: string, now: int)
    requires Behaviour(ws, es) && j1 <= j2 <= |es| && Accepts(ws[j1].db, ws[j2].db, k, hash, now)
    ensures var t := ws[j1].db.tokens[k];
            && t.action == ws[j2].db.runs[t.run].action
            && (ws[j2].up ==> t.run in ws[j2].lost || Owned(ws[j2], t.run))
    ensures forall l | l in ws[j1].db.tokens && ws[j1].db.tokens[l].hash == hash :: l == k
  {
    InvAlways(ws, es, j1);
    InvAlways(ws, es, j2);
    TokensPersist(ws, es, j1, j2, k);
    assert TokenOk(ws[j2].db, k);
    forall l | l in ws[j1].db.tokens && ws[j1].db.tokens[l].hash == hash ensures l == k {
      assert SameHashSameToken(ws[j1].db, k, l);
    }
  }

  /** No running run is left, the runs that were running are interrupted, and their tokens are revoked. */
  predicate Recovered(before: Db, after: Db) {
    && (forall r | r in after.runs :: after.runs[r].status != Running)
    && (forall r | r in before.runs && before.runs[r].status == Running ::
          r in after.runs && after.runs[r].status == Interrupted)
    && (forall k | k in before.tokens && IsRunning(before.runs, before.tokens[k].run) ::
          k in after.tokens && after.tokens[k].revokedAt.Some?)
  }

  lemma RecoverRecovers(db: Db, now: int)
    ensures Recovered(db, Recover(db, now))
  {
  }

  /** Startup recovery leaves no running run and no live token of a run that was running; no token read
      before or after it is accepted right after it. */
  lemma RecoveryLeavesNothingRunning(
      ws: seq<World>, es: seq<Event>, i: nat, j1: nat, k: string, hash: string, now: int)
    requires Behaviour(ws, es) && i < |es| && es[i].Start? && j1 <= i + 1
    ensures Recovered(ws[i].db, ws[i + 1].db)
    ensures !Accepts(ws[j1].db, ws[i + 1].db, k, hash, now)
  {
    Steps(ws, es, i);
    RecoverRecovers(ws[i].db, es[i].now);
  }

  // ---- Concurrency limits ---------------------------------------------------------------------

  lemma RunningStep(w: World, e: Event, w': World, a: string)
    requires Inv(w) && Step(w, e, w')
    ensures e.Claim? && w.db.runs[e.id].action == a ==>
              HasFreeSlot(w.db, a) && RunningCount(w'.db, a) == RunningCount(w.db, a) + 1
    ensures !(e.Claim? && w.db.runs[e.id].action == a) ==> RunningCount(w'.db, a) <= RunningCount(w.db, a)
  {
    if e.Claim? {
      ClaimRunningSet(w.db, e.id, e.now, a);
    } else {
      forall r | r in RunningSet(w'.db.runs, a) ensures r in RunningSet(w.db.runs, a) {
        ActorIsOk(w, e);
        RunFrame(w, e, r);
      }
      SubsetCardinality(RunningSet(w'.db.runs, a), RunningSet(w.db.runs, a));
    }
  }

  /** Right after a claim its action runs no more than its current limit. */
  lemma ClaimsRespectLimit(ws: seq<World>, es: seq<Event>, k: nat)
    requires Behaviour(ws, es) && k < |es| && es[k].Claim?
    ensures es[k].id in ws[k].db.runs
    ensures var a := ws[k].db.runs[es[k].id].action;
            && a in ws[k].db.actions && a in ws[k + 1].db.actions && ws[k + 1].db.actions[a] == ws[k].db.actions[a]
            && RunningCount(ws[k + 1].db, a) <= ws[k + 1].db.actions[a].maxConcurrency
  {
    Steps(ws, es, k);
    RunningStep(ws[k], es[k], ws[k + 1], ws[k].db.runs[es[k].id].action);
  }

  /** Running runs of an action never exceed the largest limit the action has had so far. */
  lemma {:induction false} RunningWithinLargestLimit(ws: seq<World>, es: seq<Event>, j: nat, a: string)
    requires Behaviour(ws, es) && j <= |es|
    ensures RunningCount(ws[j].db, a) == 0
            || exists i :: 0 <= i <= j && a in ws[i].db.actions
                 && RunningCount(ws[j].db, a) <= ws[i].db.actions[a].maxConcurrency
  {
    if j == 0 {
      assert RunningSet(ws[0].db.runs, a) == {};
    } else {
      RunningWithinLargestLimit(ws, es, j - 1, a);
      Steps(ws, es, j - 1);
      RunningStep(ws[j - 1], es[j - 1], ws[j], a);
      if es[j - 1].Claim? && ws[j - 1].db.runs[es[j - 1].id].action == a {
        assert a in ws[j - 1].db.actions && RunningCount(ws[j].db, a) <= ws[j - 1].db.actions[a].maxConcurrency;
      }
    }
  }

  // ---- First come, first served -----------------------------------------------------------------

  /** Queued runs created no later than r, r itself included. */
  function Ahead(db: Db, r: string): set<string>
    requires r in db.runs
  {
    set q | q in db.runs && db.runs[q].status == Queued && db.runs[q].createdAt <= db.runs[r].createdAt
  }

  function Claims(es: seq<Event>): nat {
    if es == [] then 0 else Claims(es[..|es| - 1]) + if es[|es| - 1].Claim? then 1 else 0
  }

  /** While r waits: every claim finds a free slot for r's action, and arrivals are strictly later. */
  predicate FairTo(w: World, e: Event, r: string)
    requires r in w.db.runs
  {
    && (e.Claim? ==> HasFreeSlot(w.db, w.db.runs[r].action))
    && (e.StoreRun? && e.ok && e.op in w.ops && w.ops[e.op].Inserting? ==>
          w.ops[e.op].prepared.createdAt > w.db.runs[r].createdAt)
  }

  lemma AheadBefore(w: World, e: Event, q: string, r: string)
    requires OpsOk(w) && ActorOk(w, e) && Enabled(w, e) && IsQueued(w.db, r) && IsQueued(Apply(w, e).db, r)
    requires FairTo(w, e, r) && q in Ahead(Apply(w, e).db, r)
    ensures q in Ahead(w.db, r)
  {
    RunFrame(w, e, q);
    RunFrame(w, e, r);
  }

  lemma AheadShrinks(w: World, e: Event, w': World, r: string)
    requires Inv(w) && Step(w, e, w') && IsQueued(w.db, r) && IsQueued(w'.db, r) && FairTo(w, e, r)
    ensures |Ahead(w'.db, r)| + (if e.Claim? then 1 else 0) <= |Ahead(w.db, r)|
  {
    ActorIsOk(w, e);
    forall q | q in Ahead(w'.db, r) ensures q in Ahead(w.db, r) { AheadBefore(w, e, q, r); }
    if e.Claim? {
      assert Claimable(w.db, r);
      assert e.id in Ahead(w.db, r) && e.id !in Ahead(w'.db, r);
      SubsetCardinality(Ahead(w'.db, r), Ahead(w.db, r) - {e.id});
    } else {
      SubsetCardinality(Ahead(w'.db, r), Ahead(w.db, r));
    }
  }

  lemma QueueStep(ws: seq<World>, es: seq<Event>, k: nat, r: string)
    requires Behaviour(ws, es) && k < |es| && IsQueued(ws[k].db, r) && IsQueued(ws[k + 1].db, r)
    requires FairTo(ws[k], es[k], r)
    ensures |Ahead(ws[k + 1].db, r)| + (if es[k].Claim? then 1 else 0) <= |Ahead(ws[k].db, r)|
  {
    Steps(ws, es, k);
    AheadShrinks(ws[k], es[k], ws[k + 1], r);
  }

  /** A run queued now was queued ever since it was stored. */
  lemma StillQueued(ws: seq<World>, es: seq<Event>, i: nat, j: nat, r: string)
    requires Behaviour(ws, es) && i < j <= |es| && r in ws[i].db.runs && IsQueued(ws[j].db, r)
    ensures IsQueued(ws[j - 1].db, r)
  {
    StatusOnlyAdvances(ws, es, i, j - 1, r);
    Steps(ws, es, j - 1);
    StepStatus(ws[j - 1], es[j - 1], ws[j], r);
  }

  lemma {:induction false} ClaimsConsumeTheQueue(ws: seq<World>, es: seq<Event>, i: nat, j: nat, r: string)
    requires Behaviour(ws, es) && i <= j <= |es| && IsQueued(ws[i].db, r) && IsQueued(ws[j].db, r)
    requires forall k | i <= k < j :: r in ws[k].db.runs && FairTo(ws[k], es[k], r)
    ensures 1 <= |Ahead(ws[j].db, r)| <= |Ahead(ws[i].db, r)| - Claims(es[i..j])
    decreases j - i
  {
    SubsetCardinality({r}, Ahead(ws[j].db, r));
    if i < j {
      StillQueued(ws, es, i, j, r);
      ClaimsConsumeTheQueue(ws, es, i, j - 1, r);
      QueueStep(ws, es, j - 1, r);
      assert es[i..j][..|es[i..j]| - 1] == es[i..j - 1];
    }
  }

  /** A waiting run whose action keeps a free slot is claimed within as many successful claims as
      there are queued runs created no later than it. */
  lemma BoundedWaiting(ws: seq<World>, es: seq<Event>, i: nat, j: nat, r: string)
    requires Behaviour(ws, es) && i <= j <= |es| && IsQueued(ws[i].db, r)
    requires forall k | i <= k < j :: r in ws[k].db.runs && FairTo(ws[k], es[k], r)
    requires Claims(es[i..j]) >= |Ahead(ws[i].db, r)|
    ensures !IsQueued(ws[j].db, r)
  {
    if IsQueued(ws[j].db, r) {
      ClaimsConsumeTheQueue(ws, es, i, j, r);
    }
  }

  // ---- Runs and their builds -----------------------------------------------------------------------

  /** Every stored run names a build made for exactly its action and version, and that build still exists. */
  lemma RunsNameTheirOwnBuild(ws: seq<World>, es: seq<Event>, j: nat, r: string)
    requires Behaviour(ws, es) && j <= |es| && r in ws[j].db.runs
    ensures var row := ws[j].db.runs[r];
            && row.build in ws[j].db.builds
            && ws[j].db.builds[row.build].action == row.action
            && ws[j].db.builds[row.build].version == row.version
  {
    InvAlways(ws, es, j);
    assert NamesBuild(ws[j].buildLog, ws[j].db.runs[r]);
  }

  /** Step k neither crashes the process nor takes this request further. */
  predicate LeavesOp(e: Event, op: nat) {
    && !e.Crash?
    && !((e.EndUpdate? || e.EndActivate? || e.FetchBuild? || e.StoreRun?) && e.op == op)
  }

  lemma OpStep(w: World, e: Event, op: nat)
    requires Enabled(w, e) && op in w.ops && LeavesOp(e, op)
    ensures op in Apply(w, e).ops && Apply(w, e).ops[op] == w.ops[op]
  {
    match e {
      case BeginUpdate(_, _) =>
      case EndUpdate(_, _, _, _) =>
      case CheckBuild(_, _, _, _) =>
      case EndActivate(_, _) =>
      case ReadActive(_, _) =>
      case FetchBuild(_, _, _) =>
      case StoreRun(_, _, _) =>
      case Crash =>
      case _ => assert Apply(w, e).ops == w.ops;
    }
  }

  /** Between its statements a request holds what it has read, whatever others do. */
  lemma {:induction false} RequestHolds(ws: seq<World>, es: seq<Event>, i: nat, j: nat, op: nat)
    requires Behaviour(ws, es) && i <= j <= |es| && op in ws[i].ops
    requires forall k | i <= k < j :: LeavesOp(es[k], op)
    ensures op in ws[j].ops && ws[j].ops[op] == ws[i].ops[op]
    decreases j
  {
    if i < j {
      RequestHolds(ws, es, i, j - 1, op);
      assert StepAt(ws, es, j - 1);
      OpStep(ws[j - 1], es[j - 1], op);
    }
  }

  /** A run is queued for the pair that was active when its preparation read the action, which was enabled
      then, and whose build was seen to have succeeded; neither changes to the action since then nor the
      trigger can give it another. */
  lemma RunsTakeTheActivePair(
      ws: seq<World>, es: seq<Event>, i: nat, k: nat, j: nat, op: nat,
      a: string, trigger: TriggerType, now: int, id: string)
    requires Behaviour(ws, es) && i < k < j < |es|
    requires es[i] == ReadActive(op, a) && es[k] == FetchBuild(op, trigger, now) && es[j] == StoreRun(op, id, true)
    requires forall m | i < m < j && m != k :: LeavesOp(es[m], op)
    ensures a in ws[i].db.actions && id !in ws[j].db.runs && id in ws[j + 1].db.runs
    ensures var read := ws[i].db.actions[a];
            && read.enabled && read.activeVersion != "" && read.activeBuild != ""
            && read.activeVersion in ws[k].db.versions && read.activeBuild in ws[k].db.builds
            && ws[k].db.builds[read.activeBuild].status == BuildSucceeded
            && ws[j + 1].db.runs[id]
               == RunRow(a, read.activeVersion, read.activeBuild, trigger, Queued, now, None, None)
  {
    assert StepAt(ws, es, i) && StepAt(ws, es, k) && StepAt(ws, es, j);
    RequestHolds(ws, es, i + 1, k, op);
    RequestHolds(ws, es, k + 1, j, op);
  }

  // ---- Activations and updates of one action ---------------------------------------------------------

  /** The pair (active version, active build) of an action. */
  function Pair(w: World, a: string): (string, string)
    requires a in w.db.actions
  {
    (w.db.actions[a].activeVersion, w.db.actions[a].activeBuild)
  }

  /** No crash and no end of this very request at step k. */
  predicate LeavesRequest(es: seq<Event>, k: nat, op: nat)
    requires k < |es|
  {
    !es[k].Crash? && !(es[k].EndUpdate? && es[k].op == op)
  }

  lemma RequestStep(w: World, e: Event, op: nat)
    requires Enabled(w, e) && op in w.ops && w.ops[op].Updating? && !e.Crash? && !(e.EndUpdate? && e.op == op)
    ensures op in Apply(w, e).ops && Apply(w, e).ops[op] == w.ops[op]
  {
  }

  /** Between its two statements an update holds the row it read, whatever others do. */
  lemma {:induction false} UpdateHoldsItsRow(ws: seq<World>, es: seq<Event>, i: nat, j: nat, op: nat, a: string)
    requires Behaviour(ws, es) && i < j <= |es| && es[i] == BeginUpdate(op, a)
    requires forall k | i < k < j :: LeavesRequest(es, k, op)
    ensures a in ws[i].db.actions && op in ws[j].ops && ws[j].ops[op] == Updating(a, ws[i].db.actions[a])
    decreases j
  {
    assert StepAt(ws, es, i) && StepAt(ws, es, j - 1);
    if i + 1 < j {
      UpdateHoldsItsRow(ws, es, i, j - 1, op, a);
      assert LeavesRequest(es, j - 1, op);
      RequestStep(ws[j - 1], es[j - 1], op);
    }
  }

  /** UpdateAction writes back the pair it read: it changes the active pair exactly when the pair has
      changed since it read it, and then undoes that change. */
  lemma UpdateUndoesIff(ws: seq<World>, es: seq<Event>, i: nat, j: nat, op: nat, a: string, limit: int, enabled: bool)
    requires Behaviour(ws, es) && i < j < |es|
    requires es[i] == BeginUpdate(op, a) && es[j] == EndUpdate(op, limit, enabled, true)
    requires forall k | i < k < j :: LeavesRequest(es, k, op)
    ensures a in ws[i].db.actions && a in ws[j].db.actions && a in ws[j + 1].db.actions
    ensures Pair(ws[j + 1], a) == Pair(ws[i], a)
    ensures Pair(ws[j + 1], a) == Pair(ws[j], a) <==> Pair(ws[j], a) == Pair(ws[i], a)
    ensures var read := ws[i].db.actions[a];
            ws[j + 1].db.actions[a] == ActionRow(read.activeVersion, read.activeBuild,
                                                 if limit > 0 then limit else read.maxConcurrency, enabled)
  {
    UpdateHoldsItsRow(ws, es, i, j, op, a);
    assert StepAt(ws, es, j);
  }

  /** The step that stores an activation of the pair (v, b). */
  predicate Activates(w: World, e: Event, a: string, v: string, b: string) {
    e.EndActivate? && e.ok && e.op in w.ops && w.ops[e.op] == Activating(a, v, b)
  }

  /** No other step sets the action's pair: it is not activated, updated, or deleted. */
  predicate LeavesPair(w: World, e: Event, a: string) {
    && !(e.EndActivate? && e.ok && e.op in w.ops && w.ops[e.op].Activating? && w.ops[e.op].action == a)
    && !(e.EndUpdate? && e.ok && e.op in w.ops && w.ops[e.op].Updating? && w.ops[e.op].action == a)
    && e != DeleteAction(a)
  }

  lemma {:induction false} PairStays(ws: seq<World>, es: seq<Event>, i: nat, j: nat, a: string)
    requires Behaviour(ws, es) && i <= j <= |es| && a in ws[i].db.actions
    requires forall k | i <= k < j :: LeavesPair(ws[k], es[k], a)
    ensures a in ws[j].db.actions && Pair(ws[j], a) == Pair(ws[i], a)
    decreases j
  {
    if i < j {
      PairStays(ws, es, i, j - 1, a);
      assert StepAt(ws, es, j - 1) && LeavesPair(ws[j - 1], es[j - 1], a);
    }
  }

  /** An activation stored after an update read its row survives the update's write if and only if it
      stored the very pair that was already active; otherwise it is lost. */
  lemma ActivationSurvivesIff(
      ws: seq<World>, es: seq<Event>, i: nat, k: nat, j: nat, op: nat,
      a: string, v: string, b: string, limit: int, enabled: bool)
    requires Behaviour(ws, es) && i < k < j < |es|
    requires es[i] == BeginUpdate(op, a) && es[j] == EndUpdate(op, limit, enabled, true)
    requires forall n | i < n < j :: LeavesRequest(es, n, op)
    requires Activates(ws[k], es[k], a, v, b) && forall n | k < n < j :: LeavesPair(ws[n], es[n], a)
    ensures a in ws[i].db.actions && a in ws[k + 1].db.actions && a in ws[j + 1].db.actions
    ensures Pair(ws[k + 1], a) == (v, b)
    ensures Pair(ws[j + 1], a) == (v, b) <==> Pair(ws[i], a) == (v, b)
  {
    assert StepAt(ws, es, k);
    PairStays(ws, es, k + 1, j, a);
    UpdateUndoesIff(ws, es, i, j, op, a, limit, enabled);
  }

  lemma OneMoreStep(ws: seq<World>, es: seq<Event>, e: Event) returns (ws': seq<World>, es': seq<Event>)
    requires Behaviour(ws, es) && Enabled(ws[|es|], e)
    ensures ws' == ws + [Apply(ws[|es|], e)] && es' == es + [e] && Behaviour(ws', es')
  {
    ws', es' := ws + [Apply(ws[|es|], e)], es + [e];
    forall k | 0 <= k < |es'| ensures StepAt(ws', es', k) {
      if k < |es| { assert StepAt(ws, es, k); }
    }
  }

  /** An action with a version and a finished build, and nothing active yet. */
  predicate ReadyToActivate(w: World, a: string, v: string, b: string) {
    && w.up && w.ops == map[] && a in w.db.actions && Pair(w, a) == ("", "")
    && b in w.db.builds && w.db.builds[b] == BuildRow(a, v, BuildSucceeded)
  }

  lemma BuiltAction(a: string, v: string, b: string, version: VersionRow) returns (ws: seq<World>, es: seq<Event>)
    requires version.action == a
    ensures Behaviour(ws, es) && |es| == 5 && ReadyToActivate(ws[5], a, v, b)
    ensures var w := ws[5];
            && w.workers == map[0 := Idle] && w.db.versions == map[v := version]
            && w.db.runs == map[] && w.db.tokens == map[] && w.db.actions == map[a := ActionRow("", "", 1, true)]
  {
    ws, es := [Fresh], [];
    ws, es := OneMoreStep(ws, es, Start({0}, 0));
    ws, es := OneMoreStep(ws, es, CreateAction(a, 1));
    ws, es := OneMoreStep(ws, es, CreateVersion(v, version));
    ws, es := OneMoreStep(ws, es, CreateBuild(b, BuildRow(a, v, BuildPending)));
    ws, es := OneMoreStep(ws, es, UpdateBuild(b, BuildSucceeded));
  }

  /** It happens: from an empty installation, an action's first activation is checked and stored between
      the two statements of an update, and the update clears it again. */
  lemma UpdateLosesAnActivation(a: string, v: string, b: string, version: VersionRow, limit: int)
    returns (ws: seq<World>, es: seq<Event>)
    requires v != "" && b != "" && version.action == a
    ensures Behaviour(ws, es) && |es| == 9
    ensures es[5] == BeginUpdate(0, a) && Activates(ws[7], es[7], a, v, b) && es[8] == EndUpdate(0, limit, true, true)
    ensures a in ws[8].db.actions && Pair(ws[8], a) == (v, b)
    ensures a in ws[9].db.actions && Pair(ws[9], a) == ("", "")
  {
    ws, es := BuiltAction(a, v, b, version);
    ws, es := OneMoreStep(ws, es, BeginUpdate(0, a));
    ws, es := OneMoreStep(ws, es, CheckBuild(1, a, v, b));
    ws, es := OneMoreStep(ws, es, EndActivate(1, true));
    ws, es := OneMoreStep(ws, es, EndUpdate(0, limit, true, true));
  }

  // ---- A request that straddles a revocation -----------------------------------------------------------

  /** One queued run of an action with a free slot, and an idle worker. */
  predicate ReadyToRun(w: World, a: string, v: string, r: string) {
    && w.up && w.workers == map[0 := Idle] && w.db.tokens == map[] && v in w.db.versions
    && a in w.db.actions && w.db.actions[a].maxConcurrency == 1
    && w.db.runs.Keys == {r} && w.db.runs[r].status == Queued && w.db.runs[r].action == a && w.db.runs[r].version == v
  }

  lemma QueuedRun(a: string, v: string, b: string, version: VersionRow, r: string)
    returns (ws: seq<World>, es: seq<Event>)
    requires v != "" && b != "" && version.action == a
    ensures Behaviour(ws, es) && |es| == 10 && ReadyToRun(ws[10], a, v, r)
  {
    ws, es := BuiltAction(a, v, b, version);
    ws, es := OneMoreStep(ws, es, CheckBuild(0, a, v, b));
    ws, es := OneMoreStep(ws, es, EndActivate(0, true));
    ws, es := OneMoreStep(ws, es, ReadActive(0, a));
    ws, es := OneMoreStep(ws, es, FetchBuild(0, Manual, 0));
    ws, es := OneMoreStep(ws, es, StoreRun(0, r, true));
  }

  lemma OnlyRunIsNext(w: World, a: string, v: string, r: string)
    requires ReadyToRun(w, a, v, r)
    ensures IsNext(w.db, r)
  {
    assert RunningSet(w.db.runs, a) == {};
  }

  /** The run's worker has decided on success, and its token is good until `expiresAt`. */
  predicate AboutToRevoke(w: World, r: string, hash: string, expiresAt: int) {
    && At(w, 0) == Revoking(r, true, Succeeded) && IsRunning(w.db.runs, r)
    && TokenId(r) in w.db.tokens && w.db.tokens[TokenId(r)].run == r && w.db.tokens[TokenId(r)].hash == hash
    && w.db.tokens[TokenId(r)].expiresAt == expiresAt && w.db.tokens[TokenId(r)].revokedAt.None?
  }

  lemma DecidedRun(
      a: string, v: string, b: string, version: VersionRow, r: string, hash: string, expiresAt: int)
    returns (ws: seq<World>, es: seq<Event>)
    requires v != "" && b != "" && version.action == a
    ensures Behaviour(ws, es) && |es| == 13 && AboutToRevoke(ws[13], r, hash, expiresAt)
  {
    ws, es := QueuedRun(a, v, b, version, r);
    OnlyRunIsNext(ws[10], a, v, r);
    ws, es := OneMoreStep(ws, es, Claim(0, r, 0));
    ws, es := OneMoreStep(ws, es, Mint(0, hash, expiresAt, true));
    ws, es := OneMoreStep(ws, es, Decide(0, Succeeded));
  }

  lemma RevokingStep(w: World, r: string, hash: string, expiresAt: int)
    requires AboutToRevoke(w, r, hash, expiresAt)
    ensures var e := RevokeFirst(0, 0, true);
            && Enabled(w, e) && IsRunning(Apply(w, e).db.runs, r)
            && TokenId(r) in Apply(w, e).db.tokens && Apply(w, e).db.tokens[TokenId(r)].run == r
            && Apply(w, e).db.tokens[TokenId(r)].revokedAt.Some?
  {
  }

  /** It happens: the token is read, the worker stores its revocation, and then the run is read, which is
      running until the worker stores its verdict. */
  lemma StraddlingRequestIsAccepted(
      a: string, v: string, b: string, version: VersionRow, r: string, hash: string, expiresAt: int, now: int)
    returns (ws: seq<World>, es: seq<Event>)
    requires v != "" && b != "" && version.action == a && now < expiresAt
    ensures Behaviour(ws, es) && |es| == 14 && RevokedAt(ws, 13, TokenId(r)) && Dead(ws[14].db, r)
    ensures Accepts(ws[13].db, ws[14].db, TokenId(r), hash, now)
  {
    ws, es := DecidedRun(a, v, b, version, r, hash, expiresAt);
    RevokingStep(ws[13], r, hash, expiresAt);
    ws, es := OneMoreStep(ws, es, RevokeFirst(0, 0, true));
  }
}
