/** The environment of a run: internal/runner/runner.go, PrepareRun and executeRun. */
module Planning {
  import opened Domain
  import opened Sums
  import Delivery

  const MAX_VAR_BYTES := 1024 * 1024
  const MAX_TOTAL_BYTES := 2 * 1024 * 1024

  datatype Injection = Injection(path: string, envVar: string, optional: bool)

  /** What reading an injected state file answers. */
  datatype StateRead = Found(data: string) | Missing | BadPath

  datatype PlanError = EnvTooLarge | InvalidInjectionPath | MissingState

  /** The size of each variable, name included. */
  function Sizes(m: map<string, string>): map<string, nat> { map k | k in m :: |k| + |m[k]| }

  ghost function TotalBytes(m: map<string, string>): nat { Sum(Sizes(m)) }

  // ---- The layers -----------------------------------------------------------------------------

  datatype Subject = Subject(action: string, version: string, build: string, trigger: string)

  function Base(s: Subject): map<string, string> {
    map["ACTIONSCAT_ACTION_ID" := s.action, "ACTIONSCAT_ACTION_VERSION" := s.version,
        "ACTIONSCAT_BUILD_ID" := s.build, "ACTIONSCAT_TRIGGER_TYPE" := s.trigger]
  }

  predicate ExtraFits(extra: map<string, string>) { forall k | k in extra :: |extra[k]| <= MAX_VAR_BYTES }

  function Inject(inj: Injection, read: string -> StateRead): Result<string, PlanError> {
    match read(inj.path)
    case BadPath => Err(InvalidInjectionPath)
    case Missing => if inj.optional then Ok("") else Err(MissingState)
    case Found(data) => if |data| > MAX_VAR_BYTES then Err(EnvTooLarge) else Ok(data)
  }

  /** The injections in order, later ones overriding earlier ones, up to the first that fails. */
  function Injected(injs: seq<Injection>, read: string -> StateRead): Result<map<string, string>, PlanError> {
    if injs == [] then Ok(map[])
    else
      var before := Injected(injs[..|injs| - 1], read);
      if before.Err? then before
      else
        var inj := injs[|injs| - 1];
        match Inject(inj, read)
        case Err(e) => Err(e)
        case Ok(value) => Ok(before.value[inj.envVar := value])
  }

  ghost function Plan(s: Subject, extra: map<string, string>, injs: seq<Injection>, read: string -> StateRead,
                      delivery: Option<Delivery.DeliveryContext>): Result<map<string, string>, PlanError>
  {
    if !ExtraFits(extra) then Err(EnvTooLarge)
    else match Injected(injs, read)
      case Err(e) => Err(e)
      case Ok(injected) =>
        var env := Base(s) + extra + injected + Delivery.Environment(delivery);
        if TotalBytes(env) > MAX_TOTAL_BYTES then Err(EnvTooLarge) else Ok(env)
  }

  /** Copies a layer over an environment, one variable at a time, in an arbitrary order. */
  method Overlay(env: map<string, string>, layer: map<string, string>) returns (out: map<string, string>)
    ensures out == env + layer
  {
    out := env;
    var todo := layer.Keys;
    while todo != {}
      invariant todo <= layer.Keys
      invariant out == env + map k | k in layer && k !in todo :: layer[k]
      decreases todo
    {
      var k :| k in todo;
      out := out[k := layer[k]];
      todo := todo - {k};
    }
    assert (map k | k in layer && k !in todo :: layer[k]) == layer;
  }

  /** The extra variables, each checked against the size limit before it is copied. */
  method AddExtra(env: map<string, string>, extra: map<string, string>)
    returns (r: Result<map<string, string>, PlanError>)
    ensures r == if ExtraFits(extra) then Ok(env + extra) else Err(EnvTooLarge)
  {
    var out := env;
    var todo := extra.Keys;
    while todo != {}
      invariant todo <= extra.Keys
      invariant out == env + map k | k in extra && k !in todo :: extra[k]
      invariant forall k | k in extra && k !in todo :: |extra[k]| <= MAX_VAR_BYTES
      decreases todo
    {
      var k :| k in todo;
      if |extra[k]| > MAX_VAR_BYTES { return Err(EnvTooLarge); }
      out := out[k := extra[k]];
      todo := todo - {k};
    }
    assert (map k | k in extra && k !in todo :: extra[k]) == extra;
    return Ok(out);
  }

  /** The state injections, in their declared order. */
  method AddInjections(env: map<string, string>, injs: seq<Injection>, read: string -> StateRead)
    returns (r: Result<map<string, string>, PlanError>)
    ensures r == match Injected(injs, read)
                 case Ok(injected) => Ok(env + injected)
                 case Err(e) => Err(e)
  {
    var out := env;
    var i := 0;
    while i < |injs|
      invariant 0 <= i <= |injs|
      invariant Injected(injs[..i], read).Ok? && out == env + Injected(injs[..i], read).value
      decreases |injs| - i
    {
      assert injs[..i + 1][..i] == injs[..i] && injs[..i + 1][i] == injs[i];
      var value := "";
      match read(injs[i].path) {
        case BadPath =>
          InjectedFails(injs, read, i);
          return Err(InvalidInjectionPath);
        case Missing =>
          if !injs[i].optional {
            InjectedFails(injs, read, i);
            return Err(MissingState);
          }
        case Found(data) =>
          if |data| > MAX_VAR_BYTES {
            InjectedFails(injs, read, i);
            return Err(EnvTooLarge);
          }
          value := data;
      }
      out := out[injs[i].envVar := value];
      i := i + 1;
    }
    assert injs[..i] == injs;
    return Ok(out);
  }

  /** PrepareRun's environment: the loops visit the maps in an arbitrary order and still compute Plan. */
  method PlanEnvironment(s: Subject, extra: map<string, string>, injs: seq<Injection>, read: string -> StateRead,
                         delivery: Option<Delivery.DeliveryContext>) returns (r: Result<map<string, string>, PlanError>)
    ensures r == Plan(s, extra, injs, read, delivery)
  {
    var withExtra := AddExtra(Base(s), extra);
    if withExtra.Err? { return Err(withExtra.error); }
    var withState := AddInjections(withExtra.value, injs, read);
    if withState.Err? { return Err(withState.error); }
    var env := Overlay(withState.value, Delivery.Environment(delivery));
    var total := Total(Sizes(env));
    if total > MAX_TOTAL_BYTES { return Err(EnvTooLarge); }
    return Ok(env);
  }

  /** The first failing injection decides the outcome. */
  lemma {:induction false} InjectedFails(injs: seq<Injection>, read: string -> StateRead, i: nat)
    requires i < |injs| && Injected(injs[..i], read).Ok? && Inject(injs[i], read).Err?
    ensures Injected(injs, read) == Err(Inject(injs[i], read).error)
    decreases |injs|
  {
    var n := |injs| - 1;
    if i < n {
      assert injs[..n][..i] == injs[..i];
      InjectedFails(injs[..n], read, i);
    }
  }

  /** In a successful plan, an injected variable holds what its last injection read. */
  lemma {:induction false} LastInjectionWins(injs: seq<Injection>, read: string -> StateRead, i: nat)
    requires i < |injs| && Injected(injs, read).Ok?
    requires forall j :: i < j < |injs| ==> injs[j].envVar != injs[i].envVar
    ensures var m := Injected(injs, read).value;
            injs[i].envVar in m && Inject(injs[i], read) == Ok(m[injs[i].envVar])
    decreases |injs|
  {
    var n := |injs| - 1;
    if i < n {
      LastInjectionWins(injs[..n], read, i);
    }
  }

  /** Only declared variables are injected. */
  lemma {:induction false} InjectedKeys(injs: seq<Injection>, read: string -> StateRead, k: string)
    requires Injected(injs, read).Ok? && k in Injected(injs, read).value
    ensures exists i :: 0 <= i < |injs| && injs[i].envVar == k
    decreases |injs|
  {
    var n := |injs| - 1;
    if injs[n].envVar != k {
      InjectedKeys(injs[..n], read, k);
      var i :| 0 <= i < n && injs[..n][i].envVar == k;
      assert injs[i].envVar == k;
    }
  }

  /** Layers: the last one that has a key decides. */
  lemma TopLayer(base: map<string, string>, extra: map<string, string>, injected: map<string, string>,
                 delivery: map<string, string>, k: string)
    ensures var env := base + extra + injected + delivery;
            && (k in env <==> k in base || k in extra || k in injected || k in delivery)
            && (k in env ==> env[k] == if k in delivery then delivery[k] else if k in injected then injected[k]
                                       else if k in extra then extra[k] else base[k])
  {
  }

  /** A variable is injected exactly when some injection declares it, and the last one decides. */
  lemma InjectedVariable(injs: seq<Injection>, read: string -> StateRead, k: string)
    requires Injected(injs, read).Ok?
    ensures var m := Injected(injs, read).value;
            && (k in m ==> exists i :: 0 <= i < |injs| && injs[i].envVar == k)
            && forall i | 0 <= i < |injs| && injs[i].envVar == k
                          && forall j :: i < j < |injs| ==> injs[j].envVar != k ::
                 k in m && Inject(injs[i], read) == Ok(m[k])
  {
    forall i | 0 <= i < |injs| && injs[i].envVar == k && forall j :: i < j < |injs| ==> injs[j].envVar != k
      ensures var m := Injected(injs, read).value; k in m && Inject(injs[i], read) == Ok(m[k])
    {
      LastInjectionWins(injs, read, i);
    }
    if k in Injected(injs, read).value { InjectedKeys(injs, read, k); }
  }

  /** The value an injection gives its variable: the file's bytes, at most 1 MiB of them, or nothing for a
      missing optional file. */
  predicate ReadsAs(inj: Injection, read: string -> StateRead, value: string) {
    match read(inj.path)
    case Found(data) => value == data && |data| <= 1024 * 1024
    case Missing => inj.optional && value == ""
    case BadPath => false
  }

  /** The injection can be made. */
  predicate Readable(inj: Injection, read: string -> StateRead) {
    match read(inj.path)
    case Found(data) => |data| <= 1024 * 1024
    case Missing => inj.optional
    case BadPath => false
  }

  lemma InjectIs(inj: Injection, read: string -> StateRead, value: string)
    ensures Inject(inj, read) == Ok(value) <==> ReadsAs(inj, read, value)
    ensures Inject(inj, read).Ok? <==> Readable(inj, read)
    ensures Inject(inj, read).Err? ==>
              Inject(inj, read).error == match read(inj.path)
                                         case BadPath => InvalidInjectionPath
                                         case Missing => MissingState
                                         case Found(_) => EnvTooLarge
  {
  }

  /** What variable k holds when delivery goes over the injections over extra over base. */
  predicate Layered(env: map<string, string>, base: map<string, string>, extra: map<string, string>,
                    injs: seq<Injection>, read: string -> StateRead, delivery: map<string, string>, k: string)
  {
    && (k in delivery ==> k in env && env[k] == delivery[k])
    && (k !in delivery ==>
          forall i | 0 <= i < |injs| && injs[i].envVar == k && forall j :: i < j < |injs| ==> injs[j].envVar != k ::
            k in env && ReadsAs(injs[i], read, env[k]))
    && (k !in delivery && (forall i :: 0 <= i < |injs| ==> injs[i].envVar != k) ==>
          && (k in extra ==> k in env && env[k] == extra[k] && |env[k]| <= 1024 * 1024)
          && (k !in extra ==> (k in env <==> k in base) && (k in env ==> env[k] == base[k])))
  }

  lemma LayersAreLayered(base: map<string, string>, extra: map<string, string>, injs: seq<Injection>,
                         read: string -> StateRead, delivery: map<string, string>, k: string)
    requires ExtraFits(extra) && Injected(injs, read).Ok?
    ensures Layered(base + extra + Injected(injs, read).value + delivery, base, extra, injs, read, delivery, k)
  {
    var m := Injected(injs, read).value;
    TopLayer(base, extra, m, delivery, k);
    InjectedVariable(injs, read, k);
    forall i | 0 <= i < |injs| && k in m ensures Inject(injs[i], read) == Ok(m[k]) <==> ReadsAs(injs[i], read, m[k]) {
      InjectIs(injs[i], read, m[k]);
    }
  }

  /** A successful plan, variable by variable: delivery context over injections over extra over base;
      at most 2 MiB in all, and no extra or injected value over 1 MiB. */
  lemma PlannedVariable(s: Subject, extra: map<string, string>, injs: seq<Injection>, read: string -> StateRead,
                        delivery: Option<Delivery.DeliveryContext>, k: string)
    requires Plan(s, extra, injs, read, delivery).Ok?
    ensures var env := Plan(s, extra, injs, read, delivery).value;
            && Sum(map v | v in env :: |v| + |env[v]|) <= 2 * 1024 * 1024
            && Layered(env, Base(s), extra, injs, read, Delivery.Environment(delivery), k)
  {
    LayersAreLayered(Base(s), extra, injs, read, Delivery.Environment(delivery), k);
    TotalIs(Plan(s, extra, injs, read, delivery).value);
  }

  lemma TotalIs(env: map<string, string>)
    ensures TotalBytes(env) == Sum(map v | v in env :: |v| + |env[v]|)
  {
    assert Sizes(env) == map v | v in env :: |v| + |env[v]|;
  }

  /** The four variables every plan starts with. */
  lemma BaseIs(s: Subject)
    ensures Base(s).Keys == {"ACTIONSCAT_ACTION_ID", "ACTIONSCAT_ACTION_VERSION", "ACTIONSCAT_BUILD_ID",
                             "ACTIONSCAT_TRIGGER_TYPE"}
    ensures Base(s)["ACTIONSCAT_ACTION_ID"] == s.action && Base(s)["ACTIONSCAT_ACTION_VERSION"] == s.version
    ensures Base(s)["ACTIONSCAT_BUILD_ID"] == s.build && Base(s)["ACTIONSCAT_TRIGGER_TYPE"] == s.trigger
  {
    assert "ACTIONSCAT_ACTION_ID"[18] == 'I' && "ACTIONSCAT_ACTION_VERSION"[18] == 'V';
    assert "ACTIONSCAT_BUILD_ID"[11] == 'B' && "ACTIONSCAT_TRIGGER_TYPE"[11] == 'T';
    assert "ACTIONSCAT_ACTION_ID"[11] == 'A' && "ACTIONSCAT_ACTION_VERSION"[11] == 'A';
  }

  lemma BaseIsNoEvent(s: Subject, k: string)
    requires k in Base(s)
    ensures |k| > 11 && k[11] != 'E'
  {
    BaseIs(s);
    assert "ACTIONSCAT_BUILD_ID"[11] == 'B' && "ACTIONSCAT_TRIGGER_TYPE"[11] == 'T';
    assert "ACTIONSCAT_ACTION_ID"[11] == 'A' && "ACTIONSCAT_ACTION_VERSION"[11] == 'A';
  }

  lemma BaseShows(s: Subject, extra: map<string, string>, injs: seq<Injection>, read: string -> StateRead,
                  delivery: Option<Delivery.DeliveryContext>, k: string)
    requires Plan(s, extra, injs, read, delivery).Ok? && k in Base(s)
    requires k !in extra && forall i :: 0 <= i < |injs| ==> injs[i].envVar != k
    ensures var env := Plan(s, extra, injs, read, delivery).value; k in env && env[k] == Base(s)[k]
  {
    PlannedVariable(s, extra, injs, read, delivery, k);
    BaseIsNoEvent(s, k);
    Delivery.EnvironmentNames(delivery, k);
  }

  /** A run finds its own action, version, build and trigger in its environment, unless its extra variables or
      its injections name those variables. */
  lemma PlannedIdentity(s: Subject, extra: map<string, string>, injs: seq<Injection>, read: string -> StateRead,
                        delivery: Option<Delivery.DeliveryContext>, k: string)
    requires Plan(s, extra, injs, read, delivery).Ok?
    requires k !in extra && forall i :: 0 <= i < |injs| ==> injs[i].envVar != k
    ensures var env := Plan(s, extra, injs, read, delivery).value;
            && (k == "ACTIONSCAT_ACTION_ID" ==> k in env && env[k] == s.action)
            && (k == "ACTIONSCAT_ACTION_VERSION" ==> k in env && env[k] == s.version)
            && (k == "ACTIONSCAT_BUILD_ID" ==> k in env && env[k] == s.build)
            && (k == "ACTIONSCAT_TRIGGER_TYPE" ==> k in env && env[k] == s.trigger)
  {
    BaseIs(s);
    if k in Base(s) { BaseShows(s, extra, injs, read, delivery, k); }
  }

  /** In a successful plan, an injection whose file is found puts the file's bytes into its variable, unless
      a later injection or the delivery context names that variable too. */
  lemma InjectedValue(s: Subject, extra: map<string, string>, injs: seq<Injection>, read: string -> StateRead,
                      delivery: Option<Delivery.DeliveryContext>, i: nat, data: string)
    requires Plan(s, extra, injs, read, delivery).Ok? && i < |injs| && read(injs[i].path) == Found(data)
    requires forall n :: i < n < |injs| ==> injs[n].envVar != injs[i].envVar
    requires injs[i].envVar !in Delivery.Environment(delivery)
    ensures var env := Plan(s, extra, injs, read, delivery).value;
            injs[i].envVar in env && env[injs[i].envVar] == data
  {
    PlannedVariable(s, extra, injs, read, delivery, injs[i].envVar);
  }

  /** Every injection can be read, or may be missing, and fits. */
  predicate AllInject(injs: seq<Injection>, read: string -> StateRead) {
    forall i | 0 <= i < |injs| :: Inject(injs[i], read).Ok?
  }

  lemma {:induction false} InjectedSucceedsIff(injs: seq<Injection>, read: string -> StateRead)
    ensures Injected(injs, read).Ok? <==> AllInject(injs, read)
    decreases |injs|
  {
    if injs != [] {
      var n := |injs| - 1;
      InjectedSucceedsIff(injs[..n], read);
      if AllInject(injs, read) {
        forall i | 0 <= i < n ensures Inject(injs[..n][i], read).Ok? { assert injs[..n][i] == injs[i]; }
      }
      if AllInject(injs[..n], read) && Inject(injs[n], read).Ok? {
        forall i | 0 <= i < |injs| ensures Inject(injs[i], read).Ok? {
          if i < n { assert injs[i] == injs[..n][i]; }
        }
      }
    }
  }

  /** Planning succeeds exactly when every extra and injected value, overridden ones included, is readable
      and at most 1 MiB, and what is left of the layers totals at most 2 MiB, names included. */
  lemma PlanSucceedsIff(s: Subject, extra: map<string, string>, injs: seq<Injection>, read: string -> StateRead,
                        delivery: Option<Delivery.DeliveryContext>)
    ensures Plan(s, extra, injs, read, delivery).Ok? <==>
              && (forall k | k in extra :: |extra[k]| <= 1024 * 1024)
              && (forall i | 0 <= i < |injs| :: Readable(injs[i], read))
              && Injected(injs, read).Ok?
              && var env := Base(s) + extra + Injected(injs, read).value + Delivery.Environment(delivery);
                 Sum(map v | v in env :: |v| + |env[v]|) <= 2 * 1024 * 1024
  {
    InjectedSucceedsIff(injs, read);
    forall i | 0 <= i < |injs| ensures Inject(injs[i], read).Ok? <==> Readable(injs[i], read) {
      InjectIs(injs[i], read, "");
    }
    if Injected(injs, read).Ok? {
      TotalIs(Base(s) + extra + Injected(injs, read).value + Delivery.Environment(delivery));
    }
  }

  /** Why planning fails: an extra value that is too large comes first, then the first injection that cannot
      be made, with its own reason, then the total. */
  lemma PlanFailsWith(s: Subject, extra: map<string, string>, injs: seq<Injection>, read: string -> StateRead,
                      delivery: Option<Delivery.DeliveryContext>, i: nat)
    requires i <= |injs| && (forall j | 0 <= j < i :: Readable(injs[j], read))
    requires i < |injs| ==> !Readable(injs[i], read)
    ensures (exists k | k in extra :: |extra[k]| > 1024 * 1024) ==>
              Plan(s, extra, injs, read, delivery) == Err(EnvTooLarge)
    ensures (forall k | k in extra :: |extra[k]| <= 1024 * 1024) && i < |injs| ==>
              Plan(s, extra, injs, read, delivery) == Err(match read(injs[i].path)
                                                          case BadPath => InvalidInjectionPath
                                                          case Missing => MissingState
                                                          case Found(_) => EnvTooLarge)
    ensures i == |injs| && Plan(s, extra, injs, read, delivery).Err? ==>
              Plan(s, extra, injs, read, delivery) == Err(EnvTooLarge)
  {
    forall j | 0 <= j < i ensures Inject(injs[..i][j], read).Ok? {
      assert injs[..i][j] == injs[j];
      InjectIs(injs[j], read, "");
    }
    InjectedSucceedsIff(injs[..i], read);
    if i < |injs| {
      InjectIs(injs[i], read, "");
      InjectedFails(injs, read, i);
    } else {
      assert injs[..i] == injs;
    }
  }

  // ---- The sandbox adds three variables ------------------------------------------------------------

  function SandboxEnv(planned: map<string, string>, run: string, endpoint: string, token: string): map<string, string> {
    planned + map["ACTIONSCAT_RUN_ID" := run, "ACTIONSCAT_RUNTIME_ENDPOINT" := endpoint,
                  "ACTIONSCAT_RUNTIME_TOKEN" := token]
  }

  /** The run id, the endpoint and the token under their names; every other variable is as planned. */
  lemma SandboxVariables(planned: map<string, string>, run: string, endpoint: string, token: string, k: string)
    ensures var env := SandboxEnv(planned, run, endpoint, token);
            && "ACTIONSCAT_RUN_ID" in env && env["ACTIONSCAT_RUN_ID"] == run
            && "ACTIONSCAT_RUNTIME_ENDPOINT" in env && env["ACTIONSCAT_RUNTIME_ENDPOINT"] == endpoint
            && "ACTIONSCAT_RUNTIME_TOKEN" in env && env["ACTIONSCAT_RUNTIME_TOKEN"] == token
            && (k !in {"ACTIONSCAT_RUN_ID", "ACTIONSCAT_RUNTIME_ENDPOINT", "ACTIONSCAT_RUNTIME_TOKEN"} ==>
                  (k in env <==> k in planned) && (k in env ==> env[k] == planned[k]))
  {
    assert "ACTIONSCAT_RUN_ID"[14] == '_' && "ACTIONSCAT_RUNTIME_ENDPOINT"[14] == 'T';
    assert "ACTIONSCAT_RUNTIME_ENDPOINT"[19] == 'E' && "ACTIONSCAT_RUNTIME_TOKEN"[19] == 'T';
    assert "ACTIONSCAT_RUNTIME_TOKEN"[14] == 'T';
  }
}
