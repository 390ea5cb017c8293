/** internal/matcher/engine.go: which matchers an incoming event dispatches, and with what environment. */
module Matcher {
  import opened Domain
  import opened Text
  import Delivery
  import Planning
  import Routing

  datatype MessageEvent = MessageEvent(
    text: string, platform: string, session: string, user: string, group: string, metadata: map<string, string>)

  datatype MatchType = Exact | Containing | Regex | Unknown

  datatype Rule = Rule(
    id: string, action: string, matchType: MatchType, pattern: string, targetField: string,
    captureEnv: map<string, string>, priority: int, continueMatching: bool, enabled: bool, createdAt: int)

  /** A compiled pattern: its group names, and the groups of the leftmost match. */
  datatype Program = Program(names: seq<string>, find: string -> Option<seq<string>>)

  // ---- One matcher ---------------------------------------------------------------------------------

  /** Lower case as far as it can turn a name into ASCII: the letters A to Z, and the two bytes of the
      dotted capital I. */
  function Lower(s: string): string {
    if s == "" then ""
    else if |s| >= 2 && s[0] == '\U{C4}' && s[1] == '\U{B0}' then "i" + Lower(s[2..])
    else [if 'A' <= s[0] <= 'Z' then (s[0] as int + 32) as char else s[0]] + Lower(s[1..])
  }

  function ResolveTargetField(field: string, e: MessageEvent): string {
    var name := Lower(field);
    if name == "" || name == "text" then e.text
    else if name == "platform" then e.platform
    else if name == "session_id" then e.session
    else if name == "user_id" then e.user
    else if name == "group_id" then e.group
    else if field in e.metadata then e.metadata[field]
    else ""
  }

  /** The named groups a matcher exports, the last of several for one variable winning. */
  function Captures(names: seq<string>, found: seq<string>, env: map<string, string>): map<string, string> {
    if names == [] then map[]
    else
      var i := |names| - 1;
      var before := Captures(names[..i], found, env);
      if names[i] != "" && i < |found| && names[i] in env && env[names[i]] != "" then before[env[names[i]] := found[i]]
      else before
  }

  /** None: no match. Some: a match, with its captures. */
  function Evaluate(compile: string -> Option<Program>, m: Rule, e: MessageEvent): Option<map<string, string>> {
    var target := ResolveTargetField(m.targetField, e);
    match m.matchType
    case Exact => if target == m.pattern then Some(map[]) else None
    case Containing => if Contains(target, m.pattern) then Some(map[]) else None
    case Regex =>
      (match compile(m.pattern)
       case None => None
       case Some(program) =>
         match program.find(target)
         case None => None
         case Some(found) => Some(Captures(program.names, found, m.captureEnv)))
    case Unknown => None
  }

  // ---- What that comes to -------------------------------------------------------------------------

  /** The field is this lower-case name, up to capitals; the dotted capital I counts as an i. */
  predicate Folds(field: string, name: string)
    decreases |name|
  {
    if name == "" then field == ""
    else
      || (field != "" && Folds(field[1..], name[1..])
          && (field[0] == name[0] || ('a' <= name[0] <= 'z' && field[0] as int == name[0] as int - 32)))
      || (name[0] == 'i' && |field| >= 2 && field[..2] == "\U{C4}\U{B0}" && Folds(field[2..], name[1..]))
  }

  predicate LowerAscii(name: string) { forall i | 0 <= i < |name| :: 'a' <= name[i] <= 'z' || name[i] == '_' }

  lemma LowerFirst(field: string)
    requires field != ""
    ensures Lower(field) == if |field| >= 2 && field[..2] == "\U{C4}\U{B0}" then ['i'] + Lower(field[2..])
                            else [if 'A' <= field[0] <= 'Z' then (field[0] as int + 32) as char else field[0]]
                                 + Lower(field[1..])
  {
    if |field| >= 2 { assert field[..2] == [field[0], field[1]]; }
  }

  lemma SameFirst(a: char, x: string, s: string)
    requires s != ""
    ensures [a] + x == s <==> a == s[0] && x == s[1..]
  {
    HeadTail(s);
    assert ([a] + x)[1..] == x;
  }

  lemma {:induction false} LowerIs(field: string, name: string)
    requires LowerAscii(name)
    ensures Lower(field) == name <==> Folds(field, name)
    decreases |name|
  {
    if name != "" && field != "" {
      LowerFirst(field);
      LowerIs(field[1..], name[1..]);
      if |field| >= 2 && field[..2] == "\U{C4}\U{B0}" {
        assert field[0] == '\U{C4}';
        LowerIs(field[2..], name[1..]);
        SameFirst('i', Lower(field[2..]), name);
      } else {
        SameFirst(Lower(field)[0], Lower(field[1..]), name);
      }
    }
  }

  /** Which part of the event a matcher looks at: one of five by name, otherwise the metadata under exactly
      that key, otherwise nothing. */
  lemma FieldIs(field: string, e: MessageEvent)
    ensures var v := ResolveTargetField(field, e);
            && (field == "" || Folds(field, "text") ==> v == e.text)
            && (Folds(field, "platform") ==> v == e.platform)
            && (Folds(field, "session_id") ==> v == e.session)
            && (Folds(field, "user_id") ==> v == e.user)
            && (Folds(field, "group_id") ==> v == e.group)
            && (field != "" && !Folds(field, "text") && !Folds(field, "platform") && !Folds(field, "session_id")
                && !Folds(field, "user_id") && !Folds(field, "group_id") ==>
                  v == if field in e.metadata then e.metadata[field] else "")
  {
    LowerIs(field, "text");
    LowerIs(field, "platform");
    LowerIs(field, "session_id");
    LowerIs(field, "user_id");
    LowerIs(field, "group_id");
    LowerIs(field, "");
    assert |"text"| == 4 && |"platform"| == 8 && |"session_id"| == 10 && |"user_id"| == 7 && |"group_id"| == 8;
    assert "platform"[0] == 'p' && "group_id"[0] == 'g';
  }

  /** Group i is named, took part in the match, and is mapped to variable v. */
  predicate Exports(names: seq<string>, found: seq<string>, env: map<string, string>, i: int, v: string) {
    && 0 <= i < |names| && i < |found| && names[i] != "" && names[i] in env && env[names[i]] == v && v != ""
  }

  lemma ExportsBefore(names: seq<string>, found: seq<string>, env: map<string, string>, i: int, v: string)
    requires names != []
    ensures var n := |names| - 1;
            Exports(names, found, env, i, v)
            <==> Exports(names[..n], found, env, i, v) || (i == n && Exports(names, found, env, n, v))
  {
    var n := |names| - 1;
    if 0 <= i < n { assert names[..n][i] == names[i]; }
  }

  lemma CapturesLast(names: seq<string>, found: seq<string>, env: map<string, string>, v: string)
    requires names != []
    ensures var n := |names| - 1;
            var before, after := Captures(names[..n], found, env), Captures(names, found, env);
            if Exports(names, found, env, n, v) then v in after && after[v] == found[n]
            else (v in after <==> v in before) && (v in after ==> after[v] == before[v])
  {
  }

  /** A variable some group exports is captured with the last such group's text. */
  lemma {:induction false} LastExportWins(
      names: seq<string>, found: seq<string>, env: map<string, string>, v: string, i: int)
    requires Exports(names, found, env, i, v) && (forall j :: i < j ==> !Exports(names, found, env, j, v))
    ensures v in Captures(names, found, env) && Captures(names, found, env)[v] == found[i]
    decreases |names|
  {
    var n := |names| - 1;
    CapturesLast(names, found, env, v);
    if i < n {
      assert !Exports(names, found, env, n, v);
      forall j | i < j ensures !Exports(names[..n], found, env, j, v) { ExportsBefore(names, found, env, j, v); }
      ExportsBefore(names, found, env, i, v);
      LastExportWins(names[..n], found, env, v, i);
    }
  }

  /** Nothing else is captured. */
  lemma {:induction false} CapturedIsExported(
      names: seq<string>, found: seq<string>, env: map<string, string>, v: string) returns (i: int)
    requires v in Captures(names, found, env)
    ensures Exports(names, found, env, i, v) && (forall j :: i < j ==> !Exports(names, found, env, j, v))
    decreases |names|
  {
    var n := |names| - 1;
    CapturesLast(names, found, env, v);
    if Exports(names, found, env, n, v) {
      i := n;
    } else {
      i := CapturedIsExported(names[..n], found, env, v);
      ExportsBefore(names, found, env, i, v);
      forall j | i < j ensures !Exports(names, found, env, j, v) { ExportsBefore(names, found, env, j, v); }
    }
  }

  /** Variable v is captured as this text: it is that of the last group exported to v. */
  ghost predicate CapturedAs(names: seq<string>, found: seq<string>, env: map<string, string>, v: string, text: string)
  {
    exists i :: Exports(names, found, env, i, v) && text == found[i]
                && forall j :: i < j < |names| ==> !Exports(names, found, env, j, v)
  }

  lemma CapturesAre(names: seq<string>, found: seq<string>, env: map<string, string>, v: string, text: string)
    ensures var captures := Captures(names, found, env);
            v in captures && captures[v] == text <==> CapturedAs(names, found, env, v, text)
  {
    if v in Captures(names, found, env) {
      var i := CapturedIsExported(names, found, env, v);
      LastExportWins(names, found, env, v, i);
    }
    if CapturedAs(names, found, env, v, text) {
      var i :| Exports(names, found, env, i, v) && text == found[i]
               && forall j :: i < j < |names| ==> !Exports(names, found, env, j, v);
      LastExportWins(names, found, env, v, i);
    }
  }

  /** When a matcher matches: its field equals the pattern, has it somewhere inside, or the pattern compiles
      and finds something. Only the last kind captures anything. */
  lemma MatchesIff(compile: string -> Option<Program>, m: Rule, e: MessageEvent)
    ensures var v, captures := ResolveTargetField(m.targetField, e), Evaluate(compile, m, e);
            match m.matchType
            case Exact => captures == if v == m.pattern then Some(map[]) else None
            case Containing =>
              && (captures.Some? <==> exists pre, post :: v == pre + m.pattern + post)
              && (captures.Some? ==> captures.value == map[])
            case Unknown => captures == None
            case Regex =>
              && (captures.Some? <==> compile(m.pattern).Some? && compile(m.pattern).value.find(v).Some?)
              && (captures.Some? ==>
                    var names, found := compile(m.pattern).value.names, compile(m.pattern).value.find(v).value;
                    forall x, text :: x in captures.value && captures.value[x] == text
                                      <==> CapturedAs(names, found, m.captureEnv, x, text))
  {
    var v := ResolveTargetField(m.targetField, e);
    ContainsIff(v, m.pattern);
    if m.matchType.Regex? && compile(m.pattern).Some? && compile(m.pattern).value.find(v).Some? {
      var names, found := compile(m.pattern).value.names, compile(m.pattern).value.find(v).value;
      var captures := Captures(names, found, m.captureEnv);
      forall x, text
        ensures x in captures && captures[x] == text <==> CapturedAs(names, found, m.captureEnv, x, text)
      {
        CapturesAre(names, found, m.captureEnv, x, text);
      }
    }
  }

  // ---- One event -------------------------------------------------------------------------------------

  /** The five variables of the event itself. */
  datatype EventVar = Text | Of(v: Delivery.Var)

  predicate IsEventVar(x: EventVar) {
    x.Text? || x.v in {Delivery.Platform, Delivery.SessionId, Delivery.UserId, Delivery.GroupId}
  }

  function VarName(x: EventVar): string { if x.Text? then "ACTIONSCAT_EVENT_TEXT" else Delivery.Name(x.v) }

  function VarValue(x: EventVar, e: MessageEvent): string
    requires IsEventVar(x)
  {
    match x
    case Text => e.text
    case Of(Platform) => e.platform
    case Of(SessionId) => e.session
    case Of(UserId) => e.user
    case Of(GroupId) => e.group
  }

  function ExtraEnv(captures: map<string, string>, e: MessageEvent): map<string, string> {
    captures[VarName(Text) := e.text][VarName(Of(Delivery.Platform)) := e.platform]
      [VarName(Of(Delivery.SessionId)) := e.session][VarName(Of(Delivery.UserId)) := e.user]
      [VarName(Of(Delivery.GroupId)) := e.group]
  }

  lemma EventNamesDiffer(x: EventVar, y: EventVar)
    requires IsEventVar(x) && IsEventVar(y) && x != y
    ensures VarName(x) != VarName(y)
  {
    assert |VarName(Text)| > 17 && VarName(Text)[17] == 'T';
    if x.Of? && y.Of? { Delivery.NamesDiffer(x.v, y.v); }
    assert x.Of? ==> |VarName(x)| > 17 && VarName(x)[17] != 'T';
    assert y.Of? ==> |VarName(y)| > 17 && VarName(y)[17] != 'T';
  }

  lemma EventVarsWin(captures: map<string, string>, e: MessageEvent, x: EventVar)
    requires IsEventVar(x)
    ensures VarName(x) in ExtraEnv(captures, e) && ExtraEnv(captures, e)[VarName(x)] == VarValue(x, e)
  {
    forall y | IsEventVar(y) && y != x ensures VarName(y) != VarName(x) { EventNamesDiffer(x, y); }
    var all := [Text, Of(Delivery.Platform), Of(Delivery.SessionId), Of(Delivery.UserId), Of(Delivery.GroupId)];
    assert forall y | y in all :: IsEventVar(y);
    assert x in all;
  }

  /** Captures never override the event's variables, and everything else is a capture. */
  lemma CapturesNeverOverride(captures: map<string, string>, e: MessageEvent, x: EventVar, k: string)
    requires IsEventVar(x)
    ensures var env := ExtraEnv(captures, e);
            && VarName(x) in env && env[VarName(x)] == VarValue(x, e)
            && ((forall y | IsEventVar(y) :: k != VarName(y)) ==>
                  (k in env <==> k in captures) && (k in env ==> env[k] == captures[k]))
  {
    EventVarsWin(captures, e, x);
    if forall y | IsEventVar(y) :: k != VarName(y) {
      assert k != VarName(Text) && k != VarName(Of(Delivery.Platform)) && k != VarName(Of(Delivery.SessionId));
      assert k != VarName(Of(Delivery.UserId)) && k != VarName(Of(Delivery.GroupId));
    }
  }

  /** The same by name. */
  lemma EventVariables(captures: map<string, string>, e: MessageEvent)
    ensures var env := ExtraEnv(captures, e);
            && "ACTIONSCAT_EVENT_TEXT" in env && env["ACTIONSCAT_EVENT_TEXT"] == e.text
            && "ACTIONSCAT_EVENT_PLATFORM" in env && env["ACTIONSCAT_EVENT_PLATFORM"] == e.platform
            && "ACTIONSCAT_EVENT_SESSION_ID" in env && env["ACTIONSCAT_EVENT_SESSION_ID"] == e.session
            && "ACTIONSCAT_EVENT_USER_ID" in env && env["ACTIONSCAT_EVENT_USER_ID"] == e.user
            && "ACTIONSCAT_EVENT_GROUP_ID" in env && env["ACTIONSCAT_EVENT_GROUP_ID"] == e.group
  {
    EventVarsWin(captures, e, Text);
    EventVarsWin(captures, e, Of(Delivery.Platform));
    EventVarsWin(captures, e, Of(Delivery.SessionId));
    EventVarsWin(captures, e, Of(Delivery.UserId));
    EventVarsWin(captures, e, Of(Delivery.GroupId));
  }

  /** In the planned environment of a matched run, which has no delivery context, an event variable that
      no state injection names holds the event's value, whatever the pattern captured. */
  lemma EventReachesTheRun(captures: map<string, string>, e: MessageEvent, x: EventVar, s: Planning.Subject,
                           injs: seq<Planning.Injection>, read: string -> Planning.StateRead)
    requires IsEventVar(x) && Planning.Plan(s, ExtraEnv(captures, e), injs, read, None).Ok?
    requires forall i :: 0 <= i < |injs| ==> injs[i].envVar != VarName(x)
    ensures var env := Planning.Plan(s, ExtraEnv(captures, e), injs, read, None).value;
            VarName(x) in env && env[VarName(x)] == VarValue(x, e)
  {
    CapturesNeverOverride(captures, e, x, VarName(x));
    Planning.PlannedVariable(s, ExtraEnv(captures, e), injs, read, None, VarName(x));
  }

  /** The variables in which a run looks for a reply's target, apart from the five of its event. */
  predicate OtherTarget(k: string) {
    k in {"ACTIONSCAT_EVENT_ADAPTER_ID", "ACTIONSCAT_EVENT_MESSAGE_TYPE", "ACTIONSCAT_EVENT_TARGET_ID"}
  }

  /** No injection names an event variable, and no capture one of the others a reply looks at. */
  predicate LeavesTarget(captures: map<string, string>, injs: seq<Planning.Injection>) {
    && (forall k | k in captures :: !OtherTarget(k))
    && (forall i, v: Delivery.Var | 0 <= i < |injs| :: injs[i].envVar != Delivery.Name(v))
  }

  lemma PlannedEvent(captures: map<string, string>, e: MessageEvent, s: Planning.Subject,
                     injs: seq<Planning.Injection>, read: string -> Planning.StateRead, v: Delivery.Var)
    requires Planning.Plan(s, ExtraEnv(captures, e), injs, read, None).Ok? && LeavesTarget(captures, injs)
    ensures var env := Planning.Plan(s, ExtraEnv(captures, e), injs, read, None).value;
            Routing.Getenv(env, Delivery.Name(v))
            == match v
               case Platform => e.platform
               case SessionId => e.session
               case UserId => e.user
               case GroupId => e.group
               case _ => ""
  {
    var k := Delivery.Name(v);
    Planning.PlannedVariable(s, ExtraEnv(captures, e), injs, read, None, k);
    if IsEventVar(Of(v)) {
      EventVarsWin(captures, e, Of(v));
    } else {
      forall y | IsEventVar(y) ensures k != VarName(y) {
        if y.Of? { Delivery.NamesDiffer(v, y.v); } else { OtherNamesDiffer(v); }
      }
      CapturesNeverOverride(captures, e, Text, k);
      assert OtherTarget(k);
      if k in Planning.Base(s) { Planning.BaseIsNoEvent(s, k); Delivery.NamesDiffer(v, v); }
    }
  }

  lemma OtherNamesDiffer(v: Delivery.Var)
    requires !IsEventVar(Of(v))
    ensures Delivery.Name(v) != VarName(Text)
  {
    assert |"ACTIONSCAT_EVENT_TEXT"| == 21 && |"ACTIONSCAT_EVENT_ADAPTER_ID"| == 27;
    assert |"ACTIONSCAT_EVENT_MESSAGE_TYPE"| == 29 && |"ACTIONSCAT_EVENT_TARGET_ID"| == 26;
  }

  /** From a matched event back to its chat: unless captures or injections name the routing variables, a run's
      reply goes to the event's group, to its user when there is no group, and to its session otherwise. */
  lemma ReplyReachesTheEventsChat(
      captures: map<string, string>, e: MessageEvent, s: Planning.Subject, injs: seq<Planning.Injection>,
      read: string -> Planning.StateRead, run: string, endpoint: string, raw: string, token: RunToken, text: string)
    requires Planning.Plan(s, ExtraEnv(captures, e), injs, read, None).Ok? && LeavesTarget(captures, injs)
    requires Routing.TrimSlashes(endpoint) != "" && raw != "" && token.HasScope(SCOPE_SEND_MESSAGE)
    requires e.group != "" || e.user != "" || e.session != ""
    ensures var planned := Planning.Plan(s, ExtraEnv(captures, e), injs, read, None).value;
            var posted := Routing.Reply(Routing.GetContext(Planning.SandboxEnv(planned, run, endpoint, raw)), text);
            && posted.Ok?
            && Routing.Delivered(Some(token), posted.value).Ok?
            && var out := Routing.Delivered(Some(token), posted.value).value;
               && |out.messages| == 1 && out.messages[0].content == text
               && (e.platform != "" ==> out.messages[0].platform == e.platform)
               && out.messages[0].targetId
                  == (if e.group != "" then e.group else if e.user != "" then e.user else e.session)
               && (e.group != "" ==> out.messages[0].messageType == "group")
               && (e.group == "" && e.user != "" ==> out.messages[0].messageType == "private")
  {
    var planned := Planning.Plan(s, ExtraEnv(captures, e), injs, read, None).value;
    var d := Delivery.DeliveryContext(e.platform, "", "", "", e.session, e.user, e.group);
    forall v: Delivery.Var ensures Routing.Getenv(planned, Delivery.Name(v)) == Delivery.Field(d, v) {
      PlannedEvent(captures, e, s, injs, read, v);
    }
    Routing.SandboxRouting(planned, d, run, endpoint, raw);
    Routing.ReplyGoesTo(Routing.GetContext(Planning.SandboxEnv(planned, run, endpoint, raw)), token, text);
  }

  /** What happened to one enabled matcher: its captures if it matched, and whether a run was created. */
  datatype Trial = Trial(rule: Rule, captures: Option<map<string, string>>, runnable: bool) {
    predicate Fires() { captures.Some? && runnable }
    predicate Stops() { Fires() && !rule.continueMatching }
  }

  datatype Dispatch = Dispatch(rule: Rule, env: map<string, string>)

  function Dispatched(t: Trial, e: MessageEvent): Dispatch
    requires t.Fires()
  {
    Dispatch(t.rule, ExtraEnv(t.captures.value, e))
  }

  /** In order, every firing trial up to and including the first that stops. */
  function Picks(trials: seq<Trial>): (picks: seq<Trial>)
    ensures forall t | t in picks :: t in trials && t.Fires()
  {
    if trials == [] then []
    else if !trials[0].Fires() then Picks(trials[1..])
    else if trials[0].Stops() then [trials[0]]
    else [trials[0]] + Picks(trials[1..])
  }

  /** Declaratively: trial k is picked if it matched, its run was created, and no earlier one with both of
      these ends the search. */
  predicate Picked(trials: seq<Trial>, k: int) {
    && 0 <= k < |trials| && trials[k].captures.Some? && trials[k].runnable
    && forall j | 0 <= j < k ::
         trials[j].captures.Some? && trials[j].runnable ==> trials[j].rule.continueMatching
  }

  lemma PickedTail(trials: seq<Trial>, k: int)
    requires trials != [] && k > 0
    ensures Picked(trials, k) <==> !trials[0].Stops() && Picked(trials[1..], k - 1)
  {
    if Picked(trials, k) {
      forall j | 0 <= j < k - 1 ensures !trials[1..][j].Stops() { assert trials[1..][j] == trials[j + 1]; }
    }
    if !trials[0].Stops() && Picked(trials[1..], k - 1) {
      forall j | 0 <= j < k ensures !trials[j].Stops() {
        if j > 0 { assert trials[j] == trials[1..][j - 1]; }
      }
    }
  }

  function Shifted(at: seq<nat>): seq<nat> { seq(|at|, i requires 0 <= i < |at| => at[i] + 1) }

  lemma InShifted(at: seq<nat>, k: int)
    ensures k in Shifted(at) <==> k - 1 in at
  {
    if k - 1 in at {
      var i :| 0 <= i < |at| && at[i] == k - 1;
      assert Shifted(at)[i] == k;
    }
    if k in Shifted(at) {
      var i :| 0 <= i < |at| && Shifted(at)[i] == k;
      assert at[i] == k - 1;
    }
  }

  /** `at` holds the positions of the elements of q in s, in order. */
  predicate Positions<T(==)>(s: seq<T>, q: seq<T>, at: seq<nat>) {
    && |at| == |q|
    && (forall i | 0 <= i < |at| :: at[i] < |s| && q[i] == s[at[i]])
    && (forall i, j | 0 <= i < j < |at| :: at[i] < at[j])
  }

  lemma ShiftPositions<T>(t: T, tail: seq<T>, q: seq<T>, rest: seq<nat>)
    requires Positions(tail, q, rest)
    ensures Positions([t] + tail, q, Shifted(rest)) && Positions([t] + tail, [t] + q, [0] + Shifted(rest))
  {
  }

  lemma PicksCons(t: Trial, tail: seq<Trial>)
    ensures Picks([t] + tail) == if t.Stops() then [t] else if t.Fires() then [t] + Picks(tail) else Picks(tail)
  {
    assert ([t] + tail)[1..] == tail;
  }

  lemma PickedCons(t: Trial, tail: seq<Trial>, rest: seq<nat>, at: seq<nat>, k: int)
    requires at == if t.Stops() then [0] else if t.Fires() then [0] + Shifted(rest) else Shifted(rest)
    requires k - 1 in rest <==> Picked(tail, k - 1)
    ensures k in at <==> Picked([t] + tail, k)
  {
    InShifted(rest, k);
    assert ([t] + tail)[1..] == tail;
    if k > 0 { PickedTail([t] + tail, k); }
  }

  /** The picks are exactly those, in list order and each once. */
  lemma {:induction false} PicksAreDeclarative(trials: seq<Trial>) returns (at: seq<nat>)
    ensures Positions(trials, Picks(trials), at)
    ensures forall k :: k in at <==> Picked(trials, k)
  {
    if trials == [] {
      at := [];
    } else {
      var t, tail := trials[0], trials[1..];
      var rest := PicksAreDeclarative(tail);
      at := if t.Stops() then [0] else if t.Fires() then [0] + Shifted(rest) else Shifted(rest);
      ShiftPositions(t, tail, Picks(tail), rest);
      PicksCons(t, tail);
      forall k ensures k in at <==> Picked([t] + tail, k) { PickedCons(t, tail, rest, at, k); }
      HeadTail(trials);
    }
  }

  /** A matcher that matches but cannot run is as good as absent: it never stops the search. */
  lemma {:induction false} IdleIsInvisible(before: seq<Trial>, idle: Trial, after: seq<Trial>)
    requires !idle.Fires()
    ensures Picks(before + [idle] + after) == Picks(before + after)
  {
    if before == [] {
      assert ([idle] + after)[1..] == after;
      assert before + [idle] + after == [idle] + after && before + after == after;
    } else {
      IdleIsInvisible(before[1..], idle, after);
      assert (before + [idle] + after)[1..] == before[1..] + [idle] + after;
      assert (before + after)[1..] == before[1..] + after;
    }
  }

  /** ListEnabledMatchers: each enabled matcher once, highest priority first, then oldest first. */
  ghost predicate IsEnabledList(table: map<string, Rule>, list: seq<Rule>) {
    && (forall i, j | 0 <= i < j < |list| :: list[i].id != list[j].id && Before(list[i], list[j]))
    && (forall m :: m in list <==> m.id in table && table[m.id] == m && m.enabled)
  }

  predicate Before(m: Rule, n: Rule) {
    m.priority > n.priority || (m.priority == n.priority && m.createdAt <= n.createdAt)
  }

  /** The first stopping matcher picked is no later, by priority and age, than any matcher that fires. */
  lemma StopperComesFirst(table: map<string, Rule>, list: seq<Rule>, trials: seq<Trial>, k: nat, j: nat)
    requires IsEnabledList(table, list)
    requires |trials| == |list| && (forall i | 0 <= i < |list| :: trials[i].rule == list[i])
    requires Picked(trials, k) && trials[k].Stops()
    requires j < |trials| && trials[j].Stops()
    ensures Before(trials[k].rule, trials[j].rule)
  {
    if j > k {
      assert list[k].id != list[j].id;
    }
  }

  // ---- The engine ---------------------------------------------------------------------------------------

  /** The trials of a list: what Evaluate says, and how each CreateRun ends (`created`, by position). */
  function Trials(compile: string -> Option<Program>, list: seq<Rule>, e: MessageEvent, created: nat -> bool)
    : seq<Trial>
  {
    seq(|list|, i requires 0 <= i < |list| => Trial(list[i], Evaluate(compile, list[i], e), created(i)))
  }

  function Dispatches(picks: seq<Trial>, e: MessageEvent): seq<Dispatch>
    requires forall t | t in picks :: t.Fires()
  {
    seq(|picks|, i requires 0 <= i < |picks| => Dispatched(picks[i], e))
  }

  /** Matcher k of the list is dispatched: it matches, its run is created, and no earlier matcher with both of
      these asks to stop. */
  predicate Dispatchable(compile: string -> Option<Program>, list: seq<Rule>, e: MessageEvent,
                         created: nat -> bool, k: int)
  {
    && 0 <= k < |list| && Evaluate(compile, list[k], e).Some? && created(k)
    && forall j: nat | j < k :: Evaluate(compile, list[j], e).Some? && created(j) ==> list[j].continueMatching
  }

  /** What an event dispatches, in list order: exactly the dispatchable matchers, each once, with the
      captures of its own match and the variables of this event. */
  lemma DispatchesAre(compile: string -> Option<Program>, list: seq<Rule>, e: MessageEvent, created: nat -> bool)
    returns (at: seq<nat>)
    ensures var ds := Dispatches(Picks(Trials(compile, list, e, created)), e);
            && |ds| == |at|
            && (forall n | 0 <= n < |at| ::
                  && at[n] < |list| && ds[n].rule == list[at[n]]
                  && Evaluate(compile, list[at[n]], e).Some?
                  && ds[n].env == ExtraEnv(Evaluate(compile, list[at[n]], e).value, e))
    ensures forall m, n | 0 <= m < n < |at| :: at[m] < at[n]
    ensures forall k :: k in at <==> Dispatchable(compile, list, e, created, k)
  {
    var trials := Trials(compile, list, e, created);
    at := PicksAreDeclarative(trials);
    var picks := Picks(trials);
    forall n | 0 <= n < |at|
      ensures at[n] < |list| && Evaluate(compile, list[at[n]], e).Some?
      ensures Dispatches(picks, e)[n] == Dispatch(list[at[n]], ExtraEnv(Evaluate(compile, list[at[n]], e).value, e))
    {
      assert picks[n] == trials[at[n]] && picks[n] in picks;
      assert Dispatches(picks, e)[n] == Dispatched(picks[n], e);
    }
    forall k ensures k in at <==> Dispatchable(compile, list, e, created, k) {
      assert k in at <==> Picked(trials, k);
      TrialsAre(compile, list, e, created, k);
    }
  }

  lemma TrialsAre(compile: string -> Option<Program>, list: seq<Rule>, e: MessageEvent, created: nat -> bool, k: int)
    ensures Picked(Trials(compile, list, e, created), k) <==> Dispatchable(compile, list, e, created, k)
  {
    var trials := Trials(compile, list, e, created);
    assert forall j: nat | j < |list| :: trials[j] == Trial(list[j], Evaluate(compile, list[j], e), created(j));
  }

  class Engine {
    const compile: string -> Option<Program>
    var regexCache: map<string, Program>

    ghost predicate Valid()
      reads this
    {
      forall p | p in regexCache :: compile(p) == Some(regexCache[p])
    }

    constructor (compile: string -> Option<Program>)
      ensures Valid() && this.compile == compile
    {
      this.compile, regexCache := compile, map[];
    }

    method GetOrCompileRegex(pattern: string) returns (p: Option<Program>)
      requires Valid()
      modifies this
      ensures Valid() && p == compile(pattern)
    {
      if pattern in regexCache { return Some(regexCache[pattern]); }
      p := compile(pattern);
      if p.Some? { regexCache := regexCache[pattern := p.value]; }
    }

    method EvaluateMatcher(m: Rule, e: MessageEvent) returns (captures: Option<map<string, string>>)
      requires Valid()
      modifies this
      ensures Valid() && captures == Evaluate(compile, m, e)
    {
      var target := ResolveTargetField(m.targetField, e);
      match m.matchType {
        case Exact => return if target == m.pattern then Some(map[]) else None;
        case Containing => return if Contains(target, m.pattern) then Some(map[]) else None;
        case Unknown => return None;
        case Regex =>
          var program := GetOrCompileRegex(m.pattern);
          if program.None? { return None; }
          var names := program.value.names;
          var found := program.value.find(target);
          if found.None? { return None; }
          var out: map<string, string>, i := map[], 0;
          while i < |names|
            invariant i <= |names| && Valid() && out == Captures(names[..i], found.value, m.captureEnv)
          {
            assert names[..i + 1][..i] == names[..i] && names[..i + 1][i] == names[i];
            if names[i] != "" && i < |found.value| && names[i] in m.captureEnv && m.captureEnv[names[i]] != "" {
              out := out[m.captureEnv[names[i]] := found.value[i]];
            }
            i := i + 1;
          }
          assert names[..i] == names;
          return Some(out);
      }
    }

    /** One matcher: a dispatch if it matches and CreateRun succeeds. */
    method Try(m: Rule, e: MessageEvent, created: bool) returns (d: seq<Dispatch>)
      requires Valid()
      modifies this
      ensures Valid()
      ensures var t := Trial(m, Evaluate(compile, m, e), created); d == if t.Fires() then [Dispatched(t, e)] else []
    {
      var captures := EvaluateMatcher(m, e);
      if captures.None? { return []; }
      var env := captures.value;
      env := env[VarName(Text) := e.text];
      env := env[VarName(Of(Delivery.Platform)) := e.platform];
      env := env[VarName(Of(Delivery.SessionId)) := e.session];
      env := env[VarName(Of(Delivery.UserId)) := e.user];
      env := env[VarName(Of(Delivery.GroupId)) := e.group];
      return if created then [Dispatch(m, env)] else [];
    }

    /** `created(i)` says whether CreateRun succeeds for the i-th matcher, `cancelled(i)` whether the
        request is cancelled when it is reached. */
    method MatchAndDispatch(list: seq<Rule>, e: MessageEvent, created: nat -> bool, cancelled: nat -> bool)
      returns (dispatched: seq<Dispatch>, reached: nat, interrupted: bool)
      requires Valid()
      modifies this
      ensures Valid() && reached <= |list|
      ensures var trials := Trials(compile, list, e, created);
              && dispatched == Dispatches(Picks(trials[..reached]), e)
              && (forall i | 0 <= i < reached :: !cancelled(i))
              && (interrupted ==> reached < |list| && cancelled(reached)
                                  && forall i | 0 <= i < reached :: !trials[i].Stops())
              && (!interrupted ==> Picks(trials[..reached]) == Picks(trials))
    {
      ghost var trials := Trials(compile, list, e, created);
      dispatched, reached := [], 0;
      while reached < |list|
        invariant reached <= |list| && Valid()
        invariant forall i | 0 <= i < reached :: !cancelled(i) && !trials[i].Stops()
        invariant dispatched == Dispatches(Picks(trials[..reached]), e)
      {
        if cancelled(reached) { return dispatched, reached, true; }
        var m := list[reached];
        var d := Try(m, e, created(reached));
        DispatchStep(trials, reached, e);
        dispatched := dispatched + d;
        reached := reached + 1;
        if d != [] && !m.continueMatching { return dispatched, reached, false; }
      }
      assert trials[..reached] == trials;
      return dispatched, reached, false;
    }
  }

  lemma DispatchesAppend(picks: seq<Trial>, t: Trial, e: MessageEvent)
    requires forall p | p in picks :: p.Fires()
    ensures t.Fires() ==> (forall p | p in picks + [t] :: p.Fires())
                          && Dispatches(picks + [t], e) == Dispatches(picks, e) + [Dispatched(t, e)]
    ensures picks + [] == picks
  {
  }

  lemma PicksOne(t: Trial)
    ensures Picks([t]) == if t.Fires() then [t] else []
  {
    assert [t][1..] == [];
  }

  lemma PicksStopped(t: Trial, rest: seq<Trial>)
    requires t.Stops()
    ensures Picks([t] + rest) == [t]
  {
  }

  /** One more trial after some that did not stop. */
  lemma PicksAfter(trials: seq<Trial>, n: nat)
    requires n < |trials| && forall i | 0 <= i < n :: !trials[i].Stops()
    ensures Picks(trials[..n + 1]) == Picks(trials[..n]) + (if trials[n].Fires() then [trials[n]] else [])
    ensures trials[n].Stops() ==> Picks(trials) == Picks(trials[..n + 1])
  {
    TakeOneMore(trials, n);
    PicksOne(trials[n]);
    PicksAppend(trials[..n], [trials[n]]);
    if trials[n].Stops() {
      TakeAndDrop(trials, n);
      HeadTail(trials[n..]);
      PicksStopped(trials[n], trials[n..][1..]);
      PicksAppend(trials[..n], trials[n..]);
    }
  }

  lemma DispatchStep(trials: seq<Trial>, n: nat, e: MessageEvent)
    requires n < |trials| && forall i | 0 <= i < n :: !trials[i].Stops()
    ensures Dispatches(Picks(trials[..n + 1]), e)
            == Dispatches(Picks(trials[..n]), e) + (if trials[n].Fires() then [Dispatched(trials[n], e)] else [])
    ensures trials[n].Stops() ==> Picks(trials) == Picks(trials[..n + 1])
  {
    PicksAfter(trials, n);
    DispatchesAppend(Picks(trials[..n]), trials[n], e);
  }

  lemma {:induction false} PicksAppend(a: seq<Trial>, b: seq<Trial>)
    requires forall i | 0 <= i < |a| :: !a[i].Stops()
    ensures Picks(a + b) == Picks(a) + Picks(b)
  {
    if a == [] {
      assert a + b == b;
    } else {
      assert (a + b)[1..] == a[1..] + b;
      PicksAppend(a[1..], b);
    }
  }
}
