/** internal/runtime/api.go: who may act with a capability token, and on what. */
module Runtime {
  import opened Base64
  import opened Domain
  import opened History
  import opened Protocol
  import opened Store
  import opened Text
  import Delivery
  import Planning
  import Routing
  import StatePath

  const MAX_STATE_WRITE := 5 * 1024 * 1024

  // ---- Authentication --------------------------------------------------------------------------------

  /** The token text of a request: a bearer header, else the header of its own. */
  function PresentedToken(authorization: string, header: string): string {
    TrimSpace(if HasPrefix(authorization, "Bearer ") then authorization[7..] else header)
  }

  /** The request carries this text as its token: behind "Bearer ", or without that in the header of its own. */
  predicate Carries(authorization: string, header: string, raw: string) {
    raw != "" && Trimmed(raw)
    && (authorization == "Bearer " + raw || (!("Bearer " <= authorization) && header == raw))
  }

  lemma CarriedIsPresented(authorization: string, header: string)
    ensures forall raw | Carries(authorization, header, raw) :: PresentedToken(authorization, header) == raw
    ensures !("Bearer " <= authorization) && header == "" ==> PresentedToken(authorization, header) == ""
    ensures authorization == "Bearer " ==> PresentedToken(authorization, header) == ""
  {
    forall raw | Carries(authorization, header, raw) ensures PresentedToken(authorization, header) == raw {
      assert ("Bearer " + raw)[7..] == raw;
    }
  }

  /** The middleware: the lookup by hash in the tables as they are at the first read, then validity, then
      the run's status in the tables as they are at the second read. `hash` is HashToken; either read may
      fail, which rejects the request. */
  method Authenticate(first: Db, second: Db, hash: string -> string, authorization: string, header: string, now: int,
                      tokenFails: bool, runFails: bool) returns (token: Option<string>)
    requires forall k, l | k in first.tokens && l in first.tokens :: SameHashSameToken(first, k, l)
    ensures var raw := PresentedToken(authorization, header);
            && (token.Some? ==> raw != "" && !tokenFails && !runFails
                                && Accepts(first, second, token.value, hash(raw), now))
            && (token.None? ==> raw == "" || tokenFails || runFails
                                || forall k :: !Accepts(first, second, k, hash(raw), now))
    ensures forall raw | Carries(authorization, header, raw) :: !tokenFails && !runFails ==>
              forall k :: token == Some(k) <==> Accepts(first, second, k, hash(raw), now)
    ensures tokenFails || runFails || authorization == "Bearer " ==> token.None?
    ensures !("Bearer " <= authorization) && header == "" ==> token.None?
  {
    CarriedIsPresented(authorization, header);
    var raw := PresentedToken(authorization, header);
    if raw == "" || tokenFails { return None; }
    var h := hash(raw);
    var todo := first.tokens.Keys;
    while todo != {}
      invariant todo <= first.tokens.Keys
      invariant forall k | k in first.tokens && k !in todo :: first.tokens[k].hash != h
      decreases todo
    {
      var k :| k in todo;
      if first.tokens[k].hash == h {
        forall l | l in first.tokens && l != k ensures first.tokens[l].hash != h {
          assert SameHashSameToken(first, k, l);
        }
        if !first.tokens[k].IsValid(now) { return None; }
        return if !runFails && IsRunning(second.runs, first.tokens[k].run) then Some(k) else None;
      }
      todo := todo - {k};
    }
    return None;
  }

  /** Once a run's terminal status or its token's revocation is stored, its secret opens nothing: no
      record at all is accepted for it by any request that starts later, under any clock. */
  lemma DeadSecretsOpenNothing(
      ws: seq<World>, es: seq<Event>, i: nat, j1: nat, j2: nat, r: string, k: string, l: string, now: int)
    requires Behaviour(ws, es) && i <= j1 <= j2 <= |es| && Dead(ws[i].db, r)
    requires k in ws[j1].db.tokens && ws[j1].db.tokens[k].run == r
    ensures !Accepts(ws[j1].db, ws[j2].db, l, ws[j1].db.tokens[k].hash, now)
  {
    DeadRunsAreNeverAuthenticated(ws, es, i, j1, j2, r, k, ws[j1].db.tokens[k].hash, now);
    if l in ws[j1].db.tokens && l != k {
      InvAlways(ws, es, j1);
      assert SameHashSameToken(ws[j1].db, k, l);
    }
  }

  /** The SDK's authorised call, from the run's own environment: it sends the token behind "Bearer " and no
      header of its own, so it is the token's own text that the Core looks up. */
  method CallCore(planned: map<string, string>, run: string, endpoint: string, raw: string,
                  first: Db, second: Db, hash: string -> string, now: int) returns (token: Option<string>)
    requires forall k, l | k in first.tokens && l in first.tokens :: SameHashSameToken(first, k, l)
    requires raw != "" && Trimmed(raw) && Routing.TrimSlashes(endpoint) != ""
    ensures forall k :: token == Some(k) <==> Accepts(first, second, k, hash(raw), now)
  {
    Routing.SandboxOwnVariables(planned, run, endpoint, raw);
    var c := Routing.GetContext(Planning.SandboxEnv(planned, run, endpoint, raw));
    assert c.token == raw && c.endpoint == Routing.TrimSlashes(endpoint);
    if c.endpoint == "" || c.token == "" { return None; }
    assert Carries("Bearer " + c.token, "", raw);
    token := Authenticate(first, second, hash, "Bearer " + c.token, "", now, false, false);
  }

  /** Whoever looks up the hash of a minted token gets that run's record and no other: exactly while it is
      neither revoked nor expired and the run is running. */
  lemma RunsTokenOpensIff(
      ws: seq<World>, es: seq<Event>, n: nat, j1: nat, j2: nat, now: int, k: string)
    requires Behaviour(ws, es) && n < j1 <= j2 <= |es| && es[n].Mint? && es[n].ok
    ensures At(ws[n], es[n].worker).Loading?
    ensures var run := At(ws[n], es[n].worker).run;
            Accepts(ws[j1].db, ws[j2].db, k, es[n].hash, now) <==>
              && k == "tok_" + run && k in ws[j1].db.tokens && run in ws[j2].db.runs
              && ws[j1].db.tokens[k].revokedAt == None && now < es[n].expiresAt
              && ws[j2].db.runs[run].status == Running
  {
    MintedTokenIsAcceptedIff(ws, es, n, j1, j2, now);
    MintedHash(ws, es, n, j1);
    var own := "tok_" + At(ws[n], es[n].worker).run;
    if Accepts(ws[j1].db, ws[j2].db, k, es[n].hash, now) {
      InvAlways(ws, es, j1);
      assert SameHashSameToken(ws[j1].db, k, own);
    }
  }

  lemma MintedHash(ws: seq<World>, es: seq<Event>, n: nat, j: nat)
    requires Behaviour(ws, es) && n < j <= |es| && es[n].Mint? && es[n].ok
    ensures At(ws[n], es[n].worker).Loading?
    ensures var k := "tok_" + At(ws[n], es[n].worker).run;
            k in ws[j].db.tokens && ws[j].db.tokens[k].hash == es[n].hash
  {
    Steps(ws, es, n);
    TokensPersist(ws, es, n + 1, j, "tok_" + At(ws[n], es[n].worker).run);
  }

  // ---- The state write handler -------------------------------------------------------------------------

  /** `action` is what the body claims; nothing reads it. */
  datatype WriteRequest = WriteRequest(action: string, path: string, data: string, isBase64: bool)

  datatype Status = Fine | Unauthorized | Forbidden | BadRequest | TooLarge | Broken

  function Chars(b: Bytes): string { seq(|b|, i requires 0 <= i < |b| => b[i] as char) }

  /** The bytes to store; None for invalid base64. */
  function Payload(req: WriteRequest): Option<string> {
    if !req.isBase64 then Some(req.data)
    else match Decode(DropNewlines(req.data))
      case Some(b) => Some(Chars(b))
      case None => None
  }

  /** What the guards decide before the store is touched. */
  function Gate(token: Option<RunToken>, req: WriteRequest): Status {
    if token.None? then Unauthorized
    else if !token.value.HasScope(SCOPE_STATE_WRITE) then Forbidden
    else if TrimSpace(req.path) == "" || Payload(req).None? then BadRequest
    else if |Payload(req).value| > MAX_STATE_WRITE then TooLarge
    else Fine
  }

  /** Plain data are the bytes themselves; base64 data are what they decode to, line breaks ignored, and are
      refused exactly when they are not well-formed. */
  lemma PayloadIs(req: WriteRequest, b: Bytes)
    ensures !req.isBase64 ==> Payload(req) == Some(req.data)
    ensures req.isBase64 ==> (Payload(req).None? <==> !WellFormed(DropNewlines(req.data)))
    ensures req.isBase64 && DropNewlines(req.data) == Encode(b) ==>
              && Payload(req).Some? && |Payload(req).value| == |b|
              && forall i | 0 <= i < |b| :: Payload(req).value[i] as int == b[i]
  {
    DecodesIff(DropNewlines(req.data));
    DecodeEncode(b);
  }

  /** The token lets its bearer write state. */
  predicate MayWrite(token: Option<RunToken>) { token.Some? && "state.write" in token.value.scopes }

  /** A request with a path and a payload of at most 5 MiB. */
  predicate Sized(req: WriteRequest) {
    TrimSpace(req.path) != "" && Payload(req).Some? && |Payload(req).value| <= 5 * 1024 * 1024
  }

  /** A stored file is in the way as a directory, or a directory as the file. */
  predicate InTheWay(files: map<StatePath.Path, string>, dirs: set<StatePath.Path>, target: StatePath.Path) {
    target in dirs || exists f | f in files :: f < target
  }

  method HandleWriteState(token: Option<RunToken>, req: WriteRequest, store: StatePath.StateStore,
                          tmp: string, failAt: nat, cleans: bool, partial: string) returns (status: Status)
    requires store.Valid()
    requires token.Some? && StatePath.Resolve(store.base, token.value.action, req.path).Ok? ==>
               StatePath.TempPath(store.base, token.value.action, req.path, tmp) !in store.files.Keys + store.dirs
    modifies store`files, store`dirs
    ensures store.Valid()
    ensures status == Fine <==>
              Gate(token, req) == Fine && failAt > 5
              && StatePath.CanWrite(old(store.files), old(store.dirs), store.base, token.value.action, req.path)
    ensures Gate(token, req) != Fine ==> status == Gate(token, req) && store.files == old(store.files)
    ensures Gate(token, req) == Fine ==>
              && StatePath.Written(old(store.files), store.files, store.base, token.value.action, req.path,
                                   Payload(req).value, tmp, partial, status == Fine)
              && var p := StatePath.Resolve(store.base, token.value.action, req.path);
                 && status in {Fine, BadRequest, Broken}
                 && (status == BadRequest <==> p.Err? && p.error != StatePath.InvalidActionId)
    // The same, answer by answer.
    ensures status == Unauthorized <==> token.None?
    ensures status == Forbidden <==> token.Some? && "state.write" !in token.value.scopes
    ensures status == TooLarge <==>
              && MayWrite(token) && TrimSpace(req.path) != ""
              && Payload(req).Some? && |Payload(req).value| > 5 * 1024 * 1024
    ensures status == BadRequest <==>
              && MayWrite(token)
              && (TrimSpace(req.path) == "" || Payload(req).None?
                  || (Sized(req) && StatePath.ActionIdOk(token.value.action)
                      && StatePath.Resolve(store.base, token.value.action, req.path).Err?))
    ensures status == Fine <==>
              && MayWrite(token) && Sized(req) && failAt > 5
              && var p := StatePath.Resolve(store.base, token.value.action, req.path);
                 p.Ok? && !InTheWay(old(store.files), old(store.dirs), p.value)
    ensures status == Fine ==>
              var p := StatePath.Resolve(store.base, token.value.action, req.path);
              p.Ok? && store.files == old(store.files)[p.value := Payload(req).value]
  {
    if token.Some? {
      StatePath.CanWriteIff(store.files, store.dirs, store.base, token.value.action, req.path);
      StatePath.ActionErrorIff(store.base, token.value.action, req.path);
    }
    if token.None? { return Unauthorized; }
    if !token.value.HasScope(SCOPE_STATE_WRITE) { return Forbidden; }
    if TrimSpace(req.path) == "" { return BadRequest; }
    var data := req.data;
    if req.isBase64 {
      var decoded := Decode(DropNewlines(req.data));
      if decoded.None? { return BadRequest; }
      data := Chars(decoded.value);
    }
    if |data| > MAX_STATE_WRITE { return TooLarge; }
    var ok := store.WriteState(token.value.action, req.path, data, tmp, failAt, cleans, partial);
    if ok { return Fine; }
    var p := StatePath.Resolve(store.base, token.value.action, req.path);
    return if p.Err? && p.error != StatePath.InvalidActionId then BadRequest else Broken;
  }

  /** In any history, a request accepted with a token writes only below the action of that token's own
      run: no read for another action changes, whatever the body names. */
  lemma WritesBelongToTheRunsAction(
      ws: seq<World>, es: seq<Event>, j1: nat, j2: nat, k: string, hash: string, now: int, req: WriteRequest,
      before: map<StatePath.Path, string>, after: map<StatePath.Path, string>, base: StatePath.Path,
      tmp: string, partial: string, ok: bool, other: string, q: string)
    requires Behaviour(ws, es) && j1 <= j2 <= |es| && Accepts(ws[j1].db, ws[j2].db, k, hash, now)
    requires var t := ws[j1].db.tokens[k];
             && Gate(Some(t), req) == Fine && other != ws[j2].db.runs[t.run].action
             && StatePath.Written(before, after, base, t.action, req.path, Payload(req).value, tmp, partial, ok)
    ensures StatePath.Read(after, base, other, q) == StatePath.Read(before, base, other, q)
  {
    AcceptedTokensAreOwned(ws, es, j1, j2, k, hash, now);
    var t := ws[j1].db.tokens[k];
    StatePath.WritesStayInside(
      before, after, base, t.action, req.path, Payload(req).value, tmp, partial, ok, other, q);
  }

  // ---- From one run's write to the next run's environment ----------------------------------------------

  /** ReadState as PrepareRun uses it: the two path errors are told apart from everything else. */
  function StateReader(files: map<StatePath.Path, string>, base: StatePath.Path, action: string):
    string -> Planning.StateRead
  {
    path =>
      match StatePath.Resolve(base, action, path)
      case Err(e) => if e == StatePath.InvalidActionId then Planning.Missing else Planning.BadPath
      case Ok(p) => if p in files then Planning.Found(files[p]) else Planning.Missing
  }

  /** What an accepted request writes reaches the action's next run: planned from the files after the
      write, an injection of any path that cleans to the written one puts exactly the written bytes into
      its variable, unless a later injection or the delivery context names that variable too. */
  lemma WrittenStateIsInjected(
      ws: seq<World>, es: seq<Event>, j1: nat, j2: nat, k: string, hash: string, now: int, req: WriteRequest,
      before: map<StatePath.Path, string>, after: map<StatePath.Path, string>, base: StatePath.Path,
      tmp: string, partial: string, s: Planning.Subject, extra: map<string, string>,
      injs: seq<Planning.Injection>, i: nat, delivery: Option<Delivery.DeliveryContext>)
    requires Behaviour(ws, es) && j1 <= j2 <= |es| && Accepts(ws[j1].db, ws[j2].db, k, hash, now)
    requires var t := ws[j1].db.tokens[k];
             && Gate(Some(t), req) == Fine && s.action == ws[j2].db.runs[t.run].action
             && StatePath.Written(before, after, base, t.action, req.path, Payload(req).value, tmp, partial, true)
    requires i < |injs| && (forall n :: i < n < |injs| ==> injs[n].envVar != injs[i].envVar)
    requires injs[i].envVar !in Delivery.Environment(delivery)
    requires StatePath.Sanitize(injs[i].path) == StatePath.Sanitize(req.path)
    requires Planning.Plan(s, extra, injs, StateReader(after, base, s.action), delivery).Ok?
    ensures var env := Planning.Plan(s, extra, injs, StateReader(after, base, s.action), delivery).value;
            injs[i].envVar in env && env[injs[i].envVar] == Payload(req).value
  {
    AcceptedTokensAreOwned(ws, es, j1, j2, k, hash, now);
    WrittenIsRead(before, after, base, s.action, req.path, Payload(req).value, tmp, partial, injs[i].path);
    Planning.InjectedValue(
      s, extra, injs, StateReader(after, base, s.action), delivery, i, Payload(req).value);
  }

  lemma WrittenIsRead(before: map<StatePath.Path, string>, after: map<StatePath.Path, string>, base: StatePath.Path,
                      action: string, path: string, data: string, tmp: string, partial: string, q: string)
    requires StatePath.Written(before, after, base, action, path, data, tmp, partial, true)
    requires StatePath.Sanitize(q) == StatePath.Sanitize(path)
    ensures StateReader(after, base, action)(q) == Planning.Found(data)
  {
    StatePath.ReadAfterWrite(before, after, base, action, path, data, tmp, partial, q);
  }
}
