/** internal/runner/runner.go: executeRun and its two retry helpers, startup recovery and the drain loop.
    What the sandbox, the random source and each database attempt answer comes in a `Env`. */
module Runner {
  import opened Domain
  import opened Store
  import opened Protocol
  import opened Text

  /** Five attempts at a database write; true means that attempt succeeds. */
  type Attempts = s: seq<bool> | |s| == 5 witness [true, true, true, true, true]

  datatype Artifact = Unreadable | Files(count: nat)

  datatype Reply = TransportError | Exited(timedOut: bool, exitCode: Option<int>)

  datatype Env = Env(
    startTime: int, finishTime: int, closeTime: int,
    versionLoads: bool, tokenHash: Option<string>, mintFails: bool,
    advertised: string, endpoint: string,
    sessionOpens: bool, artifact: Artifact, uploads: bool, reply: Reply,
    revoke: Attempts, write: Attempts, close: Attempts)

  const SECOND := 1_000_000_000

  /** The token outlives the run's timeout (60 seconds by default) by five minutes. */
  function ExpiresAt(db: Db, run: string, startTime: int): int
    requires run in db.runs && db.runs[run].version in db.versions
  {
    var t := db.versions[db.runs[run].version].timeoutSeconds;
    startTime + (if t <= 0 then 60 else t) * SECOND + 300 * SECOND
  }

  predicate Loads(db: Db, run: string, env: Env) {
    env.versionLoads && run in db.runs && db.runs[run].version in db.versions && env.tokenHash.Some?
  }

  function NewToken(db: Db, run: string, env: Env): RunToken
    requires Loads(db, run, env)
  {
    Token(db, run, env.tokenHash.value, ExpiresAt(db, run, env.startTime))
  }

  predicate Mints(db: Db, run: string, env: Env) {
    Loads(db, run, env) && !env.mintFails && CanInsertToken(db, TokenId(run), NewToken(db, run, env))
  }

  function Endpoint(env: Env): string { if env.advertised == "" then env.endpoint else env.advertised }

  /** A version with capabilities needs an endpoint the sandbox can reach. */
  predicate CallbackUsable(capabilities: seq<string>, env: Env) {
    capabilities != [] ==>
      && TrimSpace(Endpoint(env)) != ""
      && (env.advertised == "" ==> !Contains(Endpoint(env), "127.0.0.1") && !Contains(Endpoint(env), "localhost"))
  }

  datatype Verdict = Panics | Ends(status: RunStatus)

  /** How an execution with a stored token ends. An artifact bundle that is read but empty
      dereferences a nil error, which takes the process down. */
  function Judge(capabilities: seq<string>, env: Env): Verdict {
    if !CallbackUsable(capabilities, env) || !env.sessionOpens then Ends(Failed)
    else match env.artifact
      case Unreadable => Ends(Failed)
      case Files(n) =>
        if n == 0 then Panics
        else if !env.uploads then Ends(Failed)
        else match env.reply
          case TransportError => Ends(Failed)
          case Exited(timedOut, exitCode) =>
            if timedOut then Ends(TimedOut)
            else if exitCode.Some? && exitCode.value != 0 then Ends(Failed)
            else Ends(Succeeded)
  }

  function FinishSpec(db: Db, run: string, status: RunStatus, env: Env): Db {
    var d := if true in env.revoke then RevokeTokens(db, run, env.finishTime) else db;
    if true in env.write then SetRunStatus(d, run, status, env.finishTime) else d
  }

  function CloseSpec(db: Db, run: string, env: Env): Db {
    if true in env.close then RevokeTokens(db, run, env.closeTime) else db
  }

  function JudgeRun(db: Db, run: string, env: Env): Verdict
    requires Loads(db, run, env)
  {
    Judge(db.versions[db.runs[run].version].capabilities, env)
  }

  /** What a whole execution does to the tables. */
  function ExecuteSpec(db: Db, run: string, env: Env): Db {
    if !Mints(db, run, env) then FinishSpec(db, run, Failed, env)
    else
      var d := InsertToken(db, TokenId(run), NewToken(db, run, env));
      match JudgeRun(db, run, env)
      case Panics => CloseSpec(d, run, env)
      case Ends(status) => CloseSpec(FinishSpec(d, run, status, env), run, env)
  }

  function MintEvent(db: Db, run: string, env: Env, i: nat): Event
    requires Loads(db, run, env)
  {
    Mint(i, env.tokenHash.value, ExpiresAt(db, run, env.startTime), Mints(db, run, env))
  }

  /** The same execution as protocol events of worker i. */
  function Script(db: Db, run: string, env: Env, i: nat): seq<Event> {
    if !Loads(db, run, env) then [Abort(i)] + Finish(env, i)
    else if !Mints(db, run, env) then [MintEvent(db, run, env, i)] + Finish(env, i)
    else [MintEvent(db, run, env, i)] + Ending(JudgeRun(db, run, env), env, i)
  }

  /** The steps once a token is stored. */
  function Ending(verdict: Verdict, env: Env, i: nat): seq<Event> {
    match verdict
    case Panics => [Panic(i)] + Close(env, i)
    case Ends(status) => [Decide(i, status)] + (Finish(env, i) + Close(env, i))
  }

  predicate Plays(w: World, es: seq<Event>, w': World)
    decreases |es|
  {
    if es == [] then w' == w
    else Enabled(w, es[0]) && Plays(Apply(w, es[0]), es[1..], w')
  }

  lemma {:induction false} PlaysThrough(w: World, a: seq<Event>, mid: World, b: seq<Event>, w': World)
    requires Plays(w, a, mid) && Plays(mid, b, w')
    ensures Plays(w, a + b, w')
    decreases |a|
  {
    if a == [] {
      assert a + b == b;
    } else {
      PlaysThrough(Apply(w, a[0]), a[1..], mid, b, w');
      assert (a + b)[1..] == a[1..] + b;
    }
  }

  lemma PlaysOne(w: World, e: Event)
    requires Enabled(w, e)
    ensures Plays(w, [e], Apply(w, e))
  {
    assert [e][1..] == [];
  }

  function Finish(env: Env, i: nat): seq<Event> {
    [RevokeFirst(i, env.finishTime, true in env.revoke)] + [WriteStatus(i, env.finishTime, true in env.write)]
  }

  function Close(env: Env, i: nat): seq<Event> { [RevokeLast(i, env.closeTime, true in env.close)] }

  lemma FinishFollowsProtocol(w: World, i: nat, run: string, minted: bool, status: RunStatus, env: Env)
    returns (w': World)
    requires At(w, i) == Revoking(run, minted, status)
    ensures Plays(w, Finish(env, i), w')
    ensures w'.db == FinishSpec(w.db, run, status, env)
    ensures At(w', i) == if minted then Closing(run) else Idle
  {
    var first := RevokeFirst(i, env.finishTime, true in env.revoke);
    var second := WriteStatus(i, env.finishTime, true in env.write);
    var mid := Apply(w, first);
    w' := Apply(mid, second);
    PlaysOne(w, first);
    PlaysOne(mid, second);
    PlaysThrough(w, [first], mid, [second], w');
  }

  lemma CloseFollowsProtocol(w: World, i: nat, run: string, env: Env) returns (w': World)
    requires At(w, i) == Closing(run) || At(w, i) == Unwinding(run)
    ensures Plays(w, Close(env, i), w')
    ensures w'.db == CloseSpec(w.db, run, env)
    ensures At(w', i) == if At(w, i).Closing? then Idle else Doomed(run)
  {
    var e := RevokeLast(i, env.closeTime, true in env.close);
    w' := Apply(w, e);
    PlaysOne(w, e);
  }

  lemma EndingFollowsProtocol(w: World, i: nat, run: string, verdict: Verdict, env: Env) returns (w': World)
    requires At(w, i) == Executing(run) && (verdict.Ends? ==> IsVerdict(verdict.status))
    ensures Plays(w, Ending(verdict, env, i), w')
    ensures w'.db == match verdict
                     case Panics => CloseSpec(w.db, run, env)
                     case Ends(status) => CloseSpec(FinishSpec(w.db, run, status, env), run, env)
    ensures At(w', i) == if verdict.Panics? then Doomed(run) else Idle
  {
    match verdict {
      case Panics =>
        var mid := Apply(w, Panic(i));
        PlaysOne(w, Panic(i));
        w' := CloseFollowsProtocol(mid, i, run, env);
        PlaysThrough(w, [Panic(i)], mid, Close(env, i), w');
      case Ends(status) =>
        var mid := Apply(w, Decide(i, status));
        PlaysOne(w, Decide(i, status));
        var end := FinishFollowsProtocol(mid, i, run, true, status, env);
        w' := CloseFollowsProtocol(end, i, run, env);
        PlaysThrough(mid, Finish(env, i), end, Close(env, i), w');
        PlaysThrough(w, [Decide(i, status)], mid, Finish(env, i) + Close(env, i), w');
    }
  }

  /** executeRun is a run of the worker protocol: for the worker that claimed the run, its database
      writes are exactly the enabled steps of Script, and it ends idle or takes the process down. */
  lemma ExecuteFollowsProtocol(w: World, i: nat, run: string, env: Env) returns (w': World)
    requires At(w, i) == Loading(run) && run in w.db.runs
    ensures Plays(w, Script(w.db, run, env, i), w')
    ensures w'.db == ExecuteSpec(w.db, run, env)
    ensures At(w', i) == if Mints(w.db, run, env) && JudgeRun(w.db, run, env).Panics? then Doomed(run) else Idle
  {
    var first := if Loads(w.db, run, env) then MintEvent(w.db, run, env, i) else Abort(i);
    var a := Apply(w, first);
    PlaysOne(w, first);
    if !Mints(w.db, run, env) {
      w' := FinishFollowsProtocol(a, i, run, false, Failed, env);
      PlaysThrough(w, [first], a, Finish(env, i), w');
    } else {
      var verdict := JudgeRun(w.db, run, env);
      w' := EndingFollowsProtocol(a, i, run, verdict, env);
      PlaysThrough(w, [first], a, Ending(verdict, env, i), w');
    }
  }

  /** Only the run's own row and the tokens of the run can differ. */
  predicate Touches(db: Db, d: Db, run: string) {
    && d.actions == db.actions && d.versions == db.versions && d.builds == db.builds
    && d.runs.Keys == db.runs.Keys
    && (forall r | r in db.runs && r != run :: d.runs[r] == db.runs[r])
    && (forall k | k in db.tokens ::
          && k in d.tokens && d.tokens[k].run == db.tokens[k].run
          && (db.tokens[k].run != run ==> d.tokens[k] == db.tokens[k]))
    && (forall k | k in d.tokens && k !in db.tokens :: d.tokens[k].run == run)
  }

  lemma TouchesThrough(db: Db, mid: Db, d: Db, run: string)
    requires Touches(db, mid, run) && Touches(mid, d, run)
    ensures Touches(db, d, run)
  {
  }

  lemma StatementsTouch(db: Db, run: string, status: RunStatus, now: int)
    ensures Touches(db, RevokeTokens(db, run, now), run)
    ensures Touches(db, SetRunStatus(db, run, status, now), run)
  {
  }

  lemma FinishTouches(db: Db, run: string, status: RunStatus, env: Env)
    ensures Touches(db, FinishSpec(db, run, status, env), run)
  {
    var d := if true in env.revoke then RevokeTokens(db, run, env.finishTime) else db;
    StatementsTouch(db, run, status, env.finishTime);
    StatementsTouch(d, run, status, env.finishTime);
    TouchesThrough(db, d, FinishSpec(db, run, status, env), run);
  }

  /** An execution changes no other run and no other run's token. */
  lemma ExecuteTouches(db: Db, run: string, env: Env)
    ensures Touches(db, ExecuteSpec(db, run, env), run)
  {
    if Mints(db, run, env) {
      var d := InsertToken(db, TokenId(run), NewToken(db, run, env));
      var verdict := JudgeRun(db, run, env);
      assert Touches(db, d, run);
      if verdict.Ends? {
        FinishTouches(d, run, verdict.status, env);
        TouchesThrough(db, d, FinishSpec(d, run, verdict.status, env), run);
        d := FinishSpec(d, run, verdict.status, env);
      }
      StatementsTouch(d, run, Failed, env.closeTime);
      TouchesThrough(db, d, ExecuteSpec(db, run, env), run);
    } else {
      FinishTouches(db, run, Failed, env);
    }
  }

  // ---- What an execution comes to ------------------------------------------------------------------

  /** The version is loaded and the token's insert meets its keys: id and hash new, run and action there. */
  predicate TokenStored(db: Db, run: string, env: Env) {
    && env.versionLoads && env.tokenHash.Some? && !env.mintFails
    && run in db.runs && db.runs[run].version in db.versions && db.runs[run].action in db.actions
    && "tok_" + run !in db.tokens && forall k | k in db.tokens :: db.tokens[k].hash != env.tokenHash.value
  }

  /** A sandbox whose version has capabilities must be able to call back. */
  predicate CanCallBack(capabilities: seq<string>, env: Env) {
    || capabilities == []
    || (env.advertised != "" && TrimSpace(env.advertised) != "")
    || (env.advertised == "" && TrimSpace(env.endpoint) != ""
        && !Contains(env.endpoint, "127.0.0.1") && !Contains(env.endpoint, "localhost"))
  }

  /** With the token stored the session is open, and the artifact can be read. */
  predicate SandboxReady(db: Db, run: string, env: Env) {
    && TokenStored(db, run, env) && CanCallBack(db.versions[db.runs[run].version].capabilities, env)
    && env.sessionOpens && env.artifact.Files?
  }

  /** The entrypoint was started and came to an end. */
  predicate EntrypointEnded(db: Db, run: string, env: Env) {
    SandboxReady(db, run, env) && env.artifact.count > 0 && env.uploads && env.reply.Exited?
  }

  /** In time, with no exit code or with zero. */
  predicate CleanExit(reply: Reply) {
    reply.Exited? && !reply.timedOut && (reply.exitCode.None? || reply.exitCode.value == 0)
  }

  /** The status an execution without panic ends with: one of these three, and only for these reasons. */
  predicate EndsAs(db: Db, run: string, env: Env, status: RunStatus) {
    && (status == Succeeded || status == TimedOut || status == Failed)
    && (status == Succeeded <==> EntrypointEnded(db, run, env) && CleanExit(env.reply))
    && (status == TimedOut <==> EntrypointEnded(db, run, env) && env.reply.timedOut)
  }

  /** The record minted for a run: its own hash, run and action, the version's capabilities as scopes, and
      an expiry five minutes past the run's timeout, or past 60 seconds when that is not positive. */
  predicate MintedRecord(db: Db, run: string, env: Env, t: RunToken)
    requires TokenStored(db, run, env)
  {
    var version := db.versions[db.runs[run].version];
    && t.hash == env.tokenHash.value && t.run == run && t.action == db.runs[run].action
    && t.scopes == version.capabilities
    && t.expiresAt == if version.timeoutSeconds > 0
                      then env.startTime + (version.timeoutSeconds + 300) * 1_000_000_000
                      else env.startTime + 360 * 1_000_000_000
  }

  /** The empty bundle dereferences a nil error. */
  predicate PanicsOnEmpty(db: Db, run: string, env: Env) {
    SandboxReady(db, run, env) && env.artifact.count == 0
  }

  /** The verdict is stored iff there is one and one of five writes works. */
  predicate StoredVerdict(db: Db, d: Db, run: string, env: Env) {
    && run in db.runs && run in d.runs
    && if PanicsOnEmpty(db, run, env) || true !in env.write then d.runs[run] == db.runs[run]
       else && EndsAs(db, run, env, d.runs[run].status)
            && d.runs[run] == db.runs[run].(status := d.runs[run].status, completedAt := Some(env.finishTime))
  }

  /** The token carries the time of the first revocation that works: before the verdict, or deferred. */
  predicate StoredToken(db: Db, d: Db, run: string, env: Env) {
    if TokenStored(db, run, env) then
      && d.tokens.Keys == db.tokens.Keys + {"tok_" + run}
      && MintedRecord(db, run, env, d.tokens["tok_" + run])
      && d.tokens["tok_" + run].revokedAt
         == if !PanicsOnEmpty(db, run, env) && true in env.revoke then Some(env.finishTime)
            else if true in env.close then Some(env.closeTime) else None
    else d.tokens.Keys == db.tokens.Keys
  }

  /** The first protocol step of such an execution stores that record's hash and expiry. */
  lemma ExecutionMints(db: Db, run: string, env: Env, i: nat)
    requires TokenStored(db, run, env)
    ensures var timeout := db.versions[db.runs[run].version].timeoutSeconds;
            var es := Script(db, run, env, i);
            && |es| > 0
            && es[0] == Mint(i, env.tokenHash.value,
                             env.startTime + ((if timeout > 0 then timeout else 60) + 300) * 1_000_000_000, true)
  {
    MintsIffStored(db, run, env);
  }

  lemma MintsIffStored(db: Db, run: string, env: Env)
    ensures Mints(db, run, env) <==> TokenStored(db, run, env)
    ensures Mints(db, run, env) ==> MintedRecord(db, run, env, NewToken(db, run, env))
  {
  }

  lemma JudgedIs(db: Db, run: string, env: Env)
    requires Mints(db, run, env)
    ensures var verdict := JudgeRun(db, run, env);
            && (verdict.Panics? <==> PanicsOnEmpty(db, run, env))
            && (verdict.Ends? ==> EndsAs(db, run, env, verdict.status))
  {
    MintsIffStored(db, run, env);
    var capabilities := db.versions[db.runs[run].version].capabilities;
    assert CallbackUsable(capabilities, env) <==> CanCallBack(capabilities, env);
  }

  lemma FinishSpecIs(db: Db, run: string, status: RunStatus, env: Env)
    requires run in db.runs
    ensures var f := FinishSpec(db, run, status, env);
            && f.runs == (if true in env.write
                          then db.runs[run := db.runs[run].(status := status, completedAt := Some(env.finishTime))]
                          else db.runs)
            && f.tokens == (if true in env.revoke then RevokeTokens(db, run, env.finishTime).tokens else db.tokens)
  {
  }

  lemma RevokedOnce(db: Db, run: string, k: string, now: int)
    requires k in db.tokens && db.tokens[k].run == run
    ensures var t := RevokeTokens(db, run, now).tokens;
            && t.Keys == db.tokens.Keys
            && t[k] == if db.tokens[k].revokedAt.None? then db.tokens[k].(revokedAt := Some(now)) else db.tokens[k]
  {
  }

  lemma VerdictIsStored(db: Db, run: string, env: Env)
    requires run in db.runs
    ensures StoredVerdict(db, ExecuteSpec(db, run, env), run, env)
  {
    MintsIffStored(db, run, env);
    if Mints(db, run, env) {
      var d := InsertToken(db, TokenId(run), NewToken(db, run, env));
      JudgedIs(db, run, env);
      var verdict := JudgeRun(db, run, env);
      if verdict.Ends? { FinishSpecIs(d, run, verdict.status, env); }
    } else {
      FinishSpecIs(db, run, Failed, env);
    }
  }

  /** A live token of the run after the revocations that are made, with or without a verdict. */
  lemma TokenAfter(d: Db, run: string, k: string, status: RunStatus, env: Env)
    requires k in d.tokens && d.tokens[k].run == run && d.tokens[k].revokedAt.None? && run in d.runs
    ensures var closed := CloseSpec(d, run, env).tokens;
            var ended := CloseSpec(FinishSpec(d, run, status, env), run, env).tokens;
            && closed.Keys == ended.Keys == d.tokens.Keys
            && closed[k] == d.tokens[k].(revokedAt := if true in env.close then Some(env.closeTime) else None)
            && ended[k] == d.tokens[k].(revokedAt := if true in env.revoke then Some(env.finishTime)
                                                     else if true in env.close then Some(env.closeTime) else None)
  {
    var f := FinishSpec(d, run, status, env);
    FinishSpecIs(d, run, status, env);
    RevokedOnce(d, run, k, env.closeTime);
    RevokedOnce(d, run, k, env.finishTime);
    RevokedOnce(f, run, k, env.closeTime);
  }

  lemma TokenIsStored(db: Db, run: string, env: Env)
    requires run in db.runs
    ensures StoredToken(db, ExecuteSpec(db, run, env), run, env)
  {
    MintsIffStored(db, run, env);
    if Mints(db, run, env) {
      var k := TokenId(run);
      var d := InsertToken(db, k, NewToken(db, run, env));
      JudgedIs(db, run, env);
      TokenAfter(d, run, k, if JudgeRun(db, run, env).Ends? then JudgeRun(db, run, env).status else Failed, env);
    } else {
      FinishSpecIs(db, run, Failed, env);
    }
  }

  /** The fate of an executed run, from the tables and what the environment answers alone. */
  lemma FateOfRun(db: Db, run: string, env: Env)
    requires run in db.runs
    ensures StoredVerdict(db, ExecuteSpec(db, run, env), run, env)
    ensures StoredToken(db, ExecuteSpec(db, run, env), run, env)
  {
    VerdictIsStored(db, run, env);
    TokenIsStored(db, run, env);
  }

  lemma StatusIsSet(db: Db, run: string, status: RunStatus, now: int)
    requires run in db.runs
    ensures var d := SetRunStatus(db, run, status, now); run in d.runs && d.runs[run].status == status
  {
  }

  // ---- Draining ------------------------------------------------------------------------------------

  datatype DrainEnd = Drained | ClaimFailed | Panicked(run: string)

  function EnvFor(envs: map<string, Env>, default: Env, run: string): Env { if run in envs then envs[run] else default }

  /** How a run that was executed without panic ends. */
  predicate Fate(row: RunRow, env: Env) {
    if true in env.write then row.status.IsTerminal() else row.status == Running
  }

  lemma StatusFate(db: Db, run: string, env: Env)
    requires IsRunning(db.runs, run)
    ensures var row := ExecuteSpec(db, run, env).runs;
            && run in row
            && if Mints(db, run, env) && JudgeRun(db, run, env).Panics? then row[run].status == Running
               else Fate(row[run], env)
  {
    if Mints(db, run, env) {
      var d := InsertToken(db, TokenId(run), NewToken(db, run, env));
      assert d.runs == db.runs;
      match JudgeRun(db, run, env) {
        case Panics =>
        case Ends(status) => FinishedFate(d, run, status, env);
      }
    } else {
      FinishedFate(db, run, Failed, env);
    }
  }

  lemma FinishedFate(db: Db, run: string, status: RunStatus, env: Env)
    requires IsRunning(db.runs, run) && status.IsTerminal()
    ensures run in FinishSpec(db, run, status, env).runs && Fate(FinishSpec(db, run, status, env).runs[run], env)
  {
    var d := if true in env.revoke then RevokeTokens(db, run, env.finishTime) else db;
    assert d.runs == db.runs;
    StatusIsSet(d, run, status, env.finishTime);
  }

  lemma OnlyItsRowChanges(db: Db, run: string, now: int, env: Env)
    requires IsQueued(db, run)
    ensures var d := ExecuteSpec(ClaimRun(db, run, now), run, env);
            run in d.runs && d.actions == db.actions && d.runs == db.runs[run := d.runs[run]]
  {
    var mid := ClaimRun(db, run, now);
    ExecuteTouches(mid, run, env);
    assert forall r | r in db.runs && r != run :: mid.runs[r] == db.runs[r];
  }

  /** A claim followed by an execution changes one queued run's row, and leaves it with its fate. */
  lemma ClaimedThenExecuted(db: Db, run: string, now: int, env: Env)
    requires IsQueued(db, run)
    ensures var mid := ClaimRun(db, run, now);
            var d := ExecuteSpec(mid, run, env);
            && run in Waiting(db.runs) && run in d.runs && d.actions == db.actions
            && d.runs == db.runs[run := d.runs[run]]
            && if Mints(mid, run, env) && JudgeRun(mid, run, env).Panics? then d.runs[run].status == Running
               else Fate(d.runs[run], env)
  {
    var mid := ClaimRun(db, run, now);
    StatusFate(mid, run, env);
    OnlyItsRowChanges(db, run, now, env);
  }

  /** What a drain has made of a run. */
  predicate DrainedTo(row: RunRow, row': RunRow, env: Env, panicked: bool) {
    if panicked then row.status == Queued && row'.status == Running
    else row' == row || (row.status == Queued && Fate(row', env))
  }

  predicate Progress(first: map<string, RunRow>, runs: map<string, RunRow>, envs: map<string, Env>, default: Env,
                     end: Option<DrainEnd>)
  {
    && runs.Keys == first.Keys
    && forall r | r in runs :: DrainedTo(first[r], runs[r], EnvFor(envs, default, r), end == Some(Panicked(r)))
  }

  /** The queue of some runs. */
  function Waiting(runs: map<string, RunRow>): set<string> { set r | r in runs && runs[r].status == Queued }

  /** One executed run: where every other run stands is unchanged. */
  lemma ProgressOne(first: map<string, RunRow>, before: map<string, RunRow>, after: map<string, RunRow>,
                    envs: map<string, Env>, default: Env, stop: Option<DrainEnd>, run: string)
    requires Progress(first, before, envs, default, None) && run in Waiting(before)
    requires run in after && after == before[run := after[run]]
    requires if stop.None? then Fate(after[run], EnvFor(envs, default, run))
             else stop == Some(Panicked(run)) && after[run].status == Running
    ensures Progress(first, after, envs, default, stop) && Waiting(after) < Waiting(before)
  {
    forall r | r in after
      ensures DrainedTo(first[r], after[r], EnvFor(envs, default, r), stop == Some(Panicked(r)))
    {
      assert DrainedTo(first[r], before[r], EnvFor(envs, default, r), false);
    }
    assert run !in Waiting(after) && Waiting(after) <= Waiting(before);
  }

  lemma DrainStep(first: map<string, RunRow>, before: map<string, RunRow>, after: map<string, RunRow>,
                  envs: map<string, Env>, default: Env, stop: Option<DrainEnd>)
    requires Progress(first, before, envs, default, None)
    requires stop == Some(Drained) || stop == Some(ClaimFailed) ==> after == before
    requires stop.None? || stop.value.Panicked? ==>
               exists run | run in Waiting(before) ::
                 && run in after && after == before[run := after[run]]
                 && if stop.None? then Fate(after[run], EnvFor(envs, default, run))
                    else stop.value.run == run && after[run].status == Running
    ensures Progress(first, after, envs, default, stop)
    ensures stop.None? ==> Waiting(after) < Waiting(before)
  {
    if stop.None? || stop.value.Panicked? {
      var run :| run in Waiting(before) && run in after && after == before[run := after[run]]
                 && if stop.None? then Fate(after[run], EnvFor(envs, default, run))
                    else stop.value.run == run && after[run].status == Running;
      ProgressOne(first, before, after, envs, default, stop, run);
    }
  }

  lemma ProgressQueue(first: map<string, RunRow>, runs: map<string, RunRow>, envs: map<string, Env>, default: Env,
                      end: Option<DrainEnd>)
    requires Progress(first, runs, envs, default, end)
    ensures Waiting(runs) <= Waiting(first)
  {
    forall r | r in Waiting(runs) ensures r in Waiting(first) {
      assert DrainedTo(first[r], runs[r], EnvFor(envs, default, r), end == Some(Panicked(r)));
    }
  }

  class Runner {
    const store: SQLiteStore

    constructor (store: SQLiteStore)
      ensures this.store == store
    {
      this.store := store;
    }

    method RevokeTokensWithRetry(run: string, now: int, tries: Attempts) returns (ok: bool)
      modifies store
      ensures ok <==> true in tries
      ensures store.Tables() == if ok then RevokeTokens(old(store.Tables()), run, now) else old(store.Tables())
    {
      for attempt := 0 to 5
        invariant store.Tables() == old(store.Tables()) && true !in tries[..attempt]
      {
        var err := store.RevokeTokensForRun(run, now, !tries[attempt]);
        if err.None? { return true; }
      }
      assert tries[..5] == tries;
      return false;
    }

    method UpdateRunStatusWithRetry(run: string, status: RunStatus, now: int, tries: Attempts) returns (ok: bool)
      modifies store
      ensures ok <==> true in tries && run in old(store.runs)
      ensures store.Tables() == if ok then SetRunStatus(old(store.Tables()), run, status, now) else old(store.Tables())
    {
      for attempt := 0 to 5
        invariant store.Tables() == old(store.Tables()) && (true !in tries[..attempt] || run !in store.runs)
      {
        var err := store.UpdateRunStatus(run, status, now, !tries[attempt]);
        if err.None? { return true; }
      }
      assert tries[..5] == tries;
      return false;
    }

    method FinishRun(run: string, status: RunStatus, env: Env)
      modifies store
      ensures store.Tables() == FinishSpec(old(store.Tables()), run, status, env)
    {
      var _ := RevokeTokensWithRetry(run, env.finishTime, env.revoke);
      var _ := UpdateRunStatusWithRetry(run, status, env.finishTime, env.write);
    }

    /** Returns false when the goroutine panics, after its deferred revocation. */
    method ExecuteRun(run: string, env: Env) returns (survives: bool)
      modifies store
      ensures store.Tables() == ExecuteSpec(old(store.Tables()), run, env)
      ensures !survives <==> Mints(old(store.Tables()), run, env) && JudgeRun(old(store.Tables()), run, env).Panics?
      ensures !survives <==> PanicsOnEmpty(old(store.Tables()), run, env)
      ensures run in old(store.runs) ==>
                && StoredVerdict(old(store.Tables()), store.Tables(), run, env)
                && StoredToken(old(store.Tables()), store.Tables(), run, env)
    {
      if Mints(store.Tables(), run, env) { JudgedIs(store.Tables(), run, env); }
      MintsIffStored(store.Tables(), run, env);
      if run in store.runs { FateOfRun(store.Tables(), run, env); }
      if !env.versionLoads || run !in store.runs || store.runs[run].version !in store.versions {
        FinishRun(run, Failed, env);
        return true;
      }
      var version := store.versions[store.runs[run].version];
      if env.tokenHash.None? {
        FinishRun(run, Failed, env);
        return true;
      }
      var timeout := if version.timeoutSeconds <= 0 then 60 else version.timeoutSeconds;
      var token := RunToken(env.tokenHash.value, run, store.runs[run].action, version.capabilities,
                            env.startTime + timeout * SECOND + 300 * SECOND, None);
      var err := store.CreateRunToken(TokenId(run), token, env.mintFails);
      if err.Some? {
        FinishRun(run, Failed, env);
        return true;
      }
      survives := Attempt(run, version.capabilities, env);
      var _ := RevokeTokensWithRetry(run, env.closeTime, env.close);
    }

    /** The body of executeRun below the deferred revocation. */
    method Attempt(run: string, capabilities: seq<string>, env: Env) returns (survives: bool)
      modifies store
      ensures survives <==> Judge(capabilities, env).Ends?
      ensures store.Tables()
           == if survives then FinishSpec(old(store.Tables()), run, Judge(capabilities, env).status, env)
              else old(store.Tables())
    {
      var endpoint := if env.advertised == "" then env.endpoint else env.advertised;
      if |capabilities| > 0 {
        if TrimSpace(endpoint) == "" {
          FinishRun(run, Failed, env);
          return true;
        }
        if env.advertised == "" && (Contains(endpoint, "127.0.0.1") || Contains(endpoint, "localhost")) {
          FinishRun(run, Failed, env);
          return true;
        }
      }
      if !env.sessionOpens || env.artifact.Unreadable? {
        FinishRun(run, Failed, env);
        return true;
      }
      if env.artifact.count == 0 {
        return false;
      }
      if !env.uploads || env.reply.TransportError? {
        FinishRun(run, Failed, env);
        return true;
      }
      var status := Succeeded;
      if env.reply.timedOut {
        status := TimedOut;
      } else if env.reply.exitCode.Some? && env.reply.exitCode.value != 0 {
        status := Failed;
      }
      FinishRun(run, status, env);
      return true;
    }

    /** Up to three recoveries; the worker pool starts only if one succeeds. */
    method Start(now: int, failAt: seq<nat>) returns (ok: bool)
      requires |failAt| == 3
      modifies store
      ensures ok <==> exists k :: 0 <= k < 3 && failAt[k] > 4
      ensures store.Tables() == if ok then Recover(old(store.Tables()), now) else old(store.Tables())
    {
      for attempt := 0 to 3
        invariant store.Tables() == old(store.Tables()) && forall k :: 0 <= k < attempt ==> failAt[k] <= 4
      {
        var res := store.RecoverOrphanRuns(now, failAt[attempt]);
        if res.Ok? { return true; }
      }
      return false;
    }

    function QueuedRuns(): set<string>
      reads store
    {
      Waiting(store.runs)
    }

    /** One claim and one execution. */
    method DrainOne(now: int, envs: map<string, Env>, default: Env, failAt: nat) returns (end: Option<DrainEnd>)
      modifies store
      ensures store.actions == old(store.actions)
      ensures end == Some(Drained) ==> Saturated(store.Tables())
      ensures end == Some(Drained) || end == Some(ClaimFailed) ==> store.runs == old(store.runs)
      ensures end.None? || end.value.Panicked? ==>
                exists run | run in old(QueuedRuns()) ::
                  && run in store.runs && store.runs == old(store.runs)[run := store.runs[run]]
                  && if end.None? then Fate(store.runs[run], EnvFor(envs, default, run))
                     else end.value.run == run && store.runs[run].status == Running
    {
      var res := store.ClaimNextQueuedRun(now, failAt);
      if res.Err? { return Some(ClaimFailed); }
      if res.value.None? { return Some(Drained); }
      var run := res.value.value;
      var env := if run in envs then envs[run] else default;
      ClaimedThenExecuted(old(store.Tables()), run, now, env);
      var survives := ExecuteRun(run, env);
      return if survives then None else Some(Panicked(run));
    }

    /** One worker draining the queue alone. It stops by itself only with every waiting action saturated.
        Every run it executed has a terminal status if one of its status writes succeeded and is running
        otherwise, as is the run it panicked on; every other run is untouched. `envs` answers for each run,
        `claims` for each claim. */
    method DrainQueue(now: int, envs: map<string, Env>, default: Env, claims: nat -> nat) returns (end: DrainEnd)
      modifies store
      ensures end.Drained? ==> Saturated(store.Tables())
      ensures store.actions == old(store.actions) && store.runs.Keys == old(store.runs.Keys)
      ensures forall r | r in store.runs ::
                DrainedTo(old(store.runs)[r], store.runs[r], EnvFor(envs, default, r), end == Panicked(r))
      ensures QueuedRuns() <= old(QueuedRuns())
    {
      ghost var first := store.runs;
      var n := 0;
      while true
        invariant store.actions == old(store.actions)
        invariant Progress(first, store.runs, envs, default, None)
        decreases QueuedRuns()
      {
        label before:
        var stop := DrainOne(now, envs, default, claims(n));
        n := n + 1;
        DrainStep(first, old@before(store.runs), store.runs, envs, default, stop);
        if stop.Some? {
          ProgressQueue(first, store.runs, envs, default, stop);
          return stop.value;
        }
      }
    }
  }
}
