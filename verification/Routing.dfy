/** Outgoing messages: pkg/actionscat/sdk.go inside the sandbox, internal/runtime/api.go in the Core,
    and internal/frostagent/client.go at both normalisation points. JSON is faithful transport. */
module Routing {
  import opened Domain
  import opened Text
  import Delivery
  import Planning

  // ---- Requests ---------------------------------------------------------------------------

  datatype Attachment = Attachment(kind: string, url: string, name: string)

  datatype Message = Message(
    platform: string, messageType: string, targetId: string, content: string,
    attachments: seq<Attachment>, metadata: map<string, string>,
    kind: string, text: string, url: string, path: string)

  datatype Request = Request(
    session: string, platform: string, messageType: string, targetId: string,
    content: string, text: string, attachments: seq<Attachment>, messages: seq<Message>,
    instanceId: string, metadata: map<string, string>)

  // ---- Sessions: platform:type:target ------------------------------------------------------------

  datatype Route = Route(platform: string, messageType: string, targetId: string)

  /** The Core's reading of a session; fewer than three parts give no route. */
  function ParseSession(session: string): Option<Route> {
    var parts := Split(session, ':');
    if |parts| >= 3
    then Some(Route(TrimSpace(parts[0]), TrimSpace(parts[1]), TrimSpace(Join(parts[2..], ':'))))
    else None
  }

  /** SendMessage in the SDK trims the session before it splits it. */
  function SdkRoute(session: string): Option<Route> {
    var s := TrimSpace(session);
    if s == "" then None else ParseSession(s)
  }

  lemma SplitInThree(s: string)
    requires |Split(s, ':')| >= 3
    ensures var parts := Split(s, ':');
            && s == parts[0] + [':'] + parts[1] + [':'] + Join(parts[2..], ':')
            && s == parts[0] + [':'] + (parts[1] + [':'] + Join(parts[2..], ':'))
  {
    var parts := Split(s, ':');
    JoinSplit(s, ':');
    assert Join(parts, ':') == parts[0] + [':'] + Join(parts[1..], ':');
    assert parts[1..][1..] == parts[2..];
  }

  lemma ThreeParts(a: string, b: string, c: string)
    requires ':' !in a && ':' !in b
    ensures var s := a + [':'] + (b + [':'] + c);
            |Split(s, ':')| >= 3 && Split(s, ':')[0] == a && Split(s, ':')[1] == b && Join(Split(s, ':')[2..], ':') == c
  {
    SplitFirst(a, ':', b + [':'] + c);
    SplitFirst(b, ':', c);
    JoinSplit(c, ':');
    assert ([a] + ([b] + Split(c, ':')))[2..] == Split(c, ':');
  }

  lemma TrimKeepsColonFree(p: string)
    requires ':' !in p
    ensures ':' !in TrimLeft(p) && ':' !in TrimRight(p)
  {
    TrimLeftIsSuffix(p);
    TrimRightIsPrefix(p);
  }

  lemma RegroupColons(a: string, b: string, c: string)
    ensures a + [':'] + (b + [':'] + c) == (a + [':'] + b) + [':'] + c
  {
  }

  lemma TrimRightOfParts(a: string, b: string, c: string)
    ensures TrimRight(a + [':'] + (b + [':'] + c)) == a + [':'] + (b + [':'] + TrimRight(c))
  {
    RegroupColons(a, b, c);
    RegroupColons(a, b, TrimRight(c));
    TrimRightStopsAt(a + [':'] + b, ':', c);
  }

  lemma TrimOfParts(a: string, b: string, c: string)
    ensures TrimSpace(a + [':'] + (b + [':'] + c)) == TrimLeft(a) + [':'] + (b + [':'] + TrimRight(c))
  {
    TrimLeftStopsAt(a, ':', b + [':'] + c);
    TrimRightOfParts(TrimLeft(a), b, c);
  }

  lemma TwoColonsMakeThree(pre: string, a: string, b: string, c: string, post: string)
    ensures |Split(pre + (a + [':'] + (b + [':'] + c)) + post, ':')| >= 3
  {
    assert pre + (a + [':'] + (b + [':'] + c)) + post == (pre + a) + [':'] + (b + [':'] + (c + post));
    SplitAppend(pre + a, ':', b + [':'] + (c + post));
    SplitAppend(b, ':', c + post);
  }

  lemma PartsSurviveAffixes(pre: string, t: string, post: string)
    requires |Split(t, ':')| >= 3
    ensures |Split(pre + t + post, ':')| >= 3
  {
    var parts := Split(t, ':');
    SplitInThree(t);
    TwoColonsMakeThree(pre, parts[0], parts[1], Join(parts[2..], ':'), post);
  }

  lemma TrimAddsNoParts(s: string)
    ensures |Split(TrimSpace(s), ':')| >= 3 ==> |Split(s, ':')| >= 3
  {
    if |Split(TrimSpace(s), ':')| >= 3 {
      var pre, post := TrimIsMiddle(s);
      PartsSurviveAffixes(pre, TrimSpace(s), post);
    }
  }

  /** The SDK and the Core read every session alike. */
  lemma SessionParsersAgree(session: string)
    ensures SdkRoute(session) == ParseSession(session)
  {
    var parts := Split(session, ':');
    if |parts| >= 3 {
      var a, b, c := parts[0], parts[1], Join(parts[2..], ':');
      SplitInThree(session);
      TrimOfParts(a, b, c);
      TrimKeepsColonFree(a);
      ThreeParts(TrimLeft(a), b, TrimRight(c));
      TrimIsTrimmed(a);
      TrimIsTrimmed(c);
    } else {
      TrimAddsNoParts(session);
    }
  }

  /** Parsing inverts platform:type:target; the target may contain colons. */
  lemma SessionRoundTrip(r: Route)
    requires Trimmed(r.platform) && Trimmed(r.messageType) && Trimmed(r.targetId)
    requires ':' !in r.platform && ':' !in r.messageType
    ensures ParseSession(r.platform + [':'] + (r.messageType + [':'] + r.targetId)) == Some(r)
  {
    ThreeParts(r.platform, r.messageType, r.targetId);
  }

  /** What a session gives: the text before its first colon, up to its second, and all the rest, each trimmed. */
  lemma SessionIs(a: string, b: string, c: string)
    requires ':' !in a && ':' !in b
    ensures ParseSession(a + [':'] + (b + [':'] + c)) == Some(Route(TrimSpace(a), TrimSpace(b), TrimSpace(c)))
  {
    ThreeParts(a, b, c);
  }

  /** Two colons are what it takes. */
  lemma NoRouteWithoutColons(a: string, b: string)
    requires ':' !in a && ':' !in b
    ensures ParseSession(a) == None && ParseSession(a + [':'] + b) == None
  {
    SplitNone(a, ':');
    SplitNone(b, ':');
    SplitFirst(a, ':', b);
  }

  // ---- NormalizeSendMessageRequest -----------------------------------------------------------------

  function Or(a: string, b: string): string { if a == "" then b else a }

  /** The request-level routing after the session fallback and the "group" default. */
  function Routed(req: Request): Request {
    var r := if req.session == "" then None else ParseSession(req.session);
    var route := if r.Some? then r.value else Route("", "", "");
    req.(platform := Or(req.platform, route.platform),
         messageType := Or(Or(req.messageType, route.messageType), "group"),
         targetId := Or(req.targetId, route.targetId))
  }

  predicate IsMedia(kind: string) { kind == "image" || kind == "file" || kind == "video" || kind == "audio" }

  function NormalMessage(req: Request, m: Message): Message {
    var media := IsMedia(m.kind) && (m.url != "" || m.path != "") && |m.attachments| == 0;
    m.(platform := Or(m.platform, req.platform),
       messageType := Or(Or(m.messageType, req.messageType), "group"),
       targetId := Or(m.targetId, req.targetId),
       content := Or(m.content, m.text),
       attachments := if media then [Attachment(m.kind, m.url, m.path)] else m.attachments)
  }

  function SoleMessage(req: Request): Message {
    var content := Or(req.content, req.text);
    Message(req.platform, req.messageType, req.targetId, content, req.attachments, req.metadata,
            "plain", content, "", "")
  }

  predicate Acceptable(req: Request) {
    |req.messages| > 0 || TrimSpace(Or(req.content, req.text)) != "" || |req.attachments| > 0
  }

  /** The request a successful normalisation leaves. */
  function Normalized(req: Request): Request {
    var r := Routed(req);
    if |req.messages| == 0 then r.(messages := [SoleMessage(r)])
    else r.(messages := seq(|req.messages|, i requires 0 <= i < |req.messages| => NormalMessage(r, req.messages[i])))
  }

  // ---- The normal form, field by field ----------------------------------------------------------------

  /** A request's own routing first, then its session's, then "group" as the type. */
  lemma RoutedIs(req: Request)
    ensures var r, s := Routed(req), ParseSession(req.session);
            && r == req.(platform := r.platform, messageType := r.messageType, targetId := r.targetId)
            && r.platform == (if req.platform != "" then req.platform else if s.Some? then s.value.platform else "")
            && r.messageType == (if req.messageType != "" then req.messageType
                                 else if s.Some? && s.value.messageType != "" then s.value.messageType else "group")
            && r.targetId == (if req.targetId != "" then req.targetId else if s.Some? then s.value.targetId else "")
  {
    SplitNone("", ':');
  }

  /** A message with what it lacks filled in from the request: routing, its text as content, and its media file
      as attachment. */
  predicate FilledFrom(r: Request, m: Message, out: Message) {
    && out.platform == (if m.platform != "" then m.platform else r.platform)
    && out.messageType == (if m.messageType != "" then m.messageType else r.messageType)
    && out.targetId == (if m.targetId != "" then m.targetId else r.targetId)
    && out.content == (if m.content != "" then m.content else m.text)
    && out.attachments == (if && m.attachments == [] && (m.url != "" || m.path != "")
                              && (m.kind == "image" || m.kind == "file" || m.kind == "video" || m.kind == "audio")
                           then [Attachment(m.kind, m.url, m.path)] else m.attachments)
    && out.metadata == m.metadata && out.kind == m.kind && out.text == m.text && out.url == m.url && out.path == m.path
  }

  /** The one message made of a request without messages: plain, with the request's routing, body, attachments
      and metadata. */
  predicate MadeFrom(r: Request, out: Message) {
    && out.platform == r.platform && out.messageType == r.messageType && out.targetId == r.targetId
    && out.content == (if r.content != "" then r.content else r.text) && out.text == out.content
    && out.attachments == r.attachments && out.metadata == r.metadata
    && out.kind == "plain" && out.url == "" && out.path == ""
  }

  lemma NormalizedIs(req: Request)
    ensures var n, r := Normalized(req), Routed(req);
            && n == r.(messages := n.messages)
            && (req.messages == [] ==> |n.messages| == 1 && MadeFrom(r, n.messages[0]))
            && (req.messages != [] ==>
                  && |n.messages| == |req.messages|
                  && forall i | 0 <= i < |req.messages| :: FilledFrom(r, req.messages[i], n.messages[i]))
  {
    RoutedIs(req);
  }

  /** There is nothing to send: no message, no attachment, and a blank body. */
  lemma RefusedIff(req: Request)
    ensures !Acceptable(req) <==>
              && req.messages == [] && req.attachments == []
              && TrimSpace(if req.content != "" then req.content else req.text) == ""
  {
  }

  /** Both normalisations of a request, in the API handler and in the client, act as one. */
  lemma NormalizeIsIdempotent(req: Request)
    requires Acceptable(req)
    ensures Acceptable(Normalized(req)) && Normalized(Normalized(req)) == Normalized(req)
  {
    var n := Normalized(req);
    assert Routed(n) == n;
    assert Normalized(n).messages == n.messages;
  }

  class SendMessageRequest {
    var session: string
    var platform: string
    var messageType: string
    var targetId: string
    var content: string
    var text: string
    var attachments: seq<Attachment>
    var messages: seq<Message>
    var instanceId: string
    var metadata: map<string, string>

    function View(): Request
      reads this
    {
      Request(session, platform, messageType, targetId, content, text, attachments, messages, instanceId, metadata)
    }

    constructor (r: Request)
      ensures View() == r
    {
      session, platform, messageType, targetId := r.session, r.platform, r.messageType, r.targetId;
      content, text, attachments, messages := r.content, r.text, r.attachments, r.messages;
      instanceId, metadata := r.instanceId, r.metadata;
    }

    /** The session fallback and the default type, in place. */
    method RouteFields()
      modifies this
      ensures View() == Routed(old(View()))
    {
      if session != "" {
        var parts := Split(session, ':');
        if |parts| >= 3 {
          if platform == "" { platform := TrimSpace(parts[0]); }
          if messageType == "" { messageType := TrimSpace(parts[1]); }
          if targetId == "" { targetId := TrimSpace(Join(parts[2..], ':')); }
        }
      }
      if messageType == "" { messageType := "group"; }
    }

    /** Overwrites the request and its messages in place; on failure only the routing has changed. */
    method Normalize() returns (ok: bool)
      modifies this
      ensures ok <==> Acceptable(old(View()))
      ensures View() == if ok then Normalized(old(View())) else Routed(old(View()))
    {
      RouteFields();
      ghost var r := View();
      if |messages| == 0 {
        var body := content;
        if body == "" && text != "" { body := text; }
        if TrimSpace(body) == "" && |attachments| == 0 { return false; }
        messages := [Message(platform, messageType, targetId, body, attachments, metadata, "plain", body, "", "")];
        return true;
      }
      for i := 0 to |messages|
        invariant |messages| == |r.messages| && View() == r.(messages := messages)
        invariant forall k :: 0 <= k < i ==> messages[k] == NormalMessage(r, r.messages[k])
        invariant forall k :: i <= k < |messages| ==> messages[k] == r.messages[k]
      {
        var m := Fill(messages[i]);
        messages := messages[i := m];
      }
      assert messages == Normalized(old(View())).messages;
      return true;
    }

    /** One pass of the loop over the messages. */
    method Fill(given: Message) returns (m: Message)
      ensures m == NormalMessage(View(), given)
    {
      m := given;
      if m.platform == "" { m := m.(platform := platform); }
      if m.messageType == "" { m := m.(messageType := messageType); }
      if m.messageType == "" { m := m.(messageType := "group"); }
      if m.targetId == "" { m := m.(targetId := targetId); }
      m := FillBody(m);
    }

    /** The end of that pass: the legacy text field, and a media message's own attachment. */
    method FillBody(given: Message) returns (m: Message)
      ensures m == given.(content := Or(given.content, given.text),
                          attachments := if && IsMedia(given.kind) && (given.url != "" || given.path != "")
                                            && |given.attachments| == 0
                                         then [Attachment(given.kind, given.url, given.path)]
                                         else given.attachments)
    {
      m := given;
      if m.content == "" && m.text != "" { m := m.(content := m.text); }
      if IsMedia(m.kind) {
        if (m.url != "" || m.path != "") && |m.attachments| == 0 {
          m := m.(attachments := m.attachments + [Attachment(m.kind, m.url, m.path)]);
        }
      }
    }
  }

  // ---- The Core's send handler --------------------------------------------------------------------------

  datatype Status = Unauthorized | Forbidden | BadRequest

  /** What reaches FrostAgent: the handler normalises, then the client normalises again. */
  function Delivered(token: Option<RunToken>, req: Request): Result<Request, Status> {
    if token.None? then Err(Unauthorized)
    else if !token.value.HasScope(SCOPE_SEND_MESSAGE) then Err(Forbidden)
    else if TrimSpace(req.instanceId) != "" then Err(BadRequest)
    else
      var bare := req.(instanceId := "");
      if !Acceptable(bare) then Err(BadRequest)
      else
        var first := Normalized(bare);
        if |first.messages| == 0 || !Acceptable(first) then Err(BadRequest) else Ok(Normalized(first))
  }

  /** Every answer of the handler. */
  lemma DeliveredIff(token: Option<RunToken>, req: Request)
    ensures var r, bare := Delivered(token, req), req.(instanceId := "");
            var may := token.Some? && "frostagent.sendmsg" in token.value.scopes;
            && (r == Err(Unauthorized) <==> token.None?)
            && (r == Err(Forbidden) <==> token.Some? && !may)
            && (r == Err(BadRequest) <==> may && (TrimSpace(req.instanceId) != "" || !Acceptable(bare)))
            && (r.Ok? <==> may && TrimSpace(req.instanceId) == "" && Acceptable(bare))
            && (r.Ok? ==> r.value == Normalized(bare))
  {
    if Acceptable(req.(instanceId := "")) { NormalizeIsIdempotent(req.(instanceId := "")); }
  }

  /** The handler on the in-place request: two calls of Normalize with the emptiness check between. */
  method HandleSend(token: Option<RunToken>, req: SendMessageRequest) returns (r: Result<Request, Status>)
    modifies req
    ensures r == Delivered(token, old(req.View()))
  {
    if token.None? { return Err(Unauthorized); }
    if !token.value.HasScope(SCOPE_SEND_MESSAGE) { return Err(Forbidden); }
    if TrimSpace(req.instanceId) != "" { return Err(BadRequest); }
    req.instanceId := "";
    var ok := req.Normalize();
    if !ok { return Err(BadRequest); }
    if |req.messages| == 0 { return Err(BadRequest); }
    ok := req.Normalize();
    if !ok { return Err(BadRequest); }
    return Ok(req.View());
  }

  /** A delivered request carries the first normal form, never an instance chosen by the sandbox,
      and every message in it has a message type. */
  lemma DeliveredIsNormal(token: Option<RunToken>, req: Request)
    requires Delivered(token, req).Ok?
    ensures var out := Delivered(token, req).value;
            && out == Normalized(req.(instanceId := "")) && Normalized(out) == out
            && out.instanceId == "" && |out.messages| > 0
            && forall m | m in out.messages :: m.messageType != ""
  {
    NormalizeIsIdempotent(req.(instanceId := ""));
  }

  // ---- Reply in the sandbox -------------------------------------------------------------------------------

  function TrimSlashes(s: string): string {
    if s != "" && s[|s| - 1] == '/' then TrimSlashes(s[..|s| - 1]) else s
  }

  function Getenv(env: map<string, string>, k: string): string { if k in env then env[k] else "" }

  datatype Context = Context(
    endpoint: string, token: string, platform: string, adapterId: string, messageType: string,
    targetId: string, sessionId: string, userId: string, groupId: string)

  function GetContext(env: map<string, string>): Context {
    Context(
      TrimSlashes(Getenv(env, "ACTIONSCAT_RUNTIME_ENDPOINT")), Getenv(env, "ACTIONSCAT_RUNTIME_TOKEN"),
      Getenv(env, Delivery.Name(Delivery.Platform)), Getenv(env, Delivery.Name(Delivery.AdapterId)),
      Getenv(env, Delivery.Name(Delivery.MessageType)), Getenv(env, Delivery.Name(Delivery.TargetId)),
      Getenv(env, Delivery.Name(Delivery.SessionId)), Getenv(env, Delivery.Name(Delivery.UserId)),
      Getenv(env, Delivery.Name(Delivery.GroupId)))
  }

  /** Every field comes from its own variable. */
  lemma ContextIs(env: map<string, string>)
    ensures var c := GetContext(env);
            && c.endpoint == TrimSlashes(Getenv(env, "ACTIONSCAT_RUNTIME_ENDPOINT"))
            && c.token == Getenv(env, "ACTIONSCAT_RUNTIME_TOKEN")
            && c.platform == Getenv(env, "ACTIONSCAT_EVENT_PLATFORM")
            && c.adapterId == Getenv(env, "ACTIONSCAT_EVENT_ADAPTER_ID")
            && c.messageType == Getenv(env, "ACTIONSCAT_EVENT_MESSAGE_TYPE")
            && c.targetId == Getenv(env, "ACTIONSCAT_EVENT_TARGET_ID")
            && c.sessionId == Getenv(env, "ACTIONSCAT_EVENT_SESSION_ID")
            && c.userId == Getenv(env, "ACTIONSCAT_EVENT_USER_ID")
            && c.groupId == Getenv(env, "ACTIONSCAT_EVENT_GROUP_ID")
  {
  }

  /** Slashes at the end are dropped, and nothing else. */
  lemma {:induction false} TrimSlashesIs(s: string)
    ensures var t := TrimSlashes(s);
            && t <= s && (t != "" ==> t[|t| - 1] != '/') && forall i | |t| <= i < |s| :: s[i] == '/'
    decreases |s|
  {
    if s != "" && s[|s| - 1] == '/' { TrimSlashesIs(s[..|s| - 1]); }
  }

  datatype ReplyError = NoSession | NotConfigured

  /** The request Reply posts, or why it gives up. */
  function Reply(c: Context, text: string): Result<Request, ReplyError> {
    var explicit := c.targetId != "" && (c.messageType == "group" || c.messageType == "private");
    if !explicit && c.groupId == "" && c.userId == "" && c.sessionId == "" then Err(NoSession)
    else if c.endpoint == "" || c.token == "" then Err(NotConfigured)
    else
      var messageType :=
        if explicit then c.messageType
        else if c.groupId != "" then "group"
        else if c.userId != "" then "private"
        else "";
      var targetId :=
        if explicit then c.targetId
        else if c.groupId != "" then c.groupId
        else if c.userId != "" then c.userId
        else c.sessionId;
      Ok(Request(c.sessionId, c.platform, messageType, targetId, "", "", [],
                 [Message("", "", "", "", [], map[], "plain", text, "", "")], "",
                 if c.adapterId != "" then map["adapter_id" := c.adapterId] else map[]))
  }

  /** Where a reply goes: an explicit target, else the group, else the user, else the session. */
  predicate GoesTo(c: Context, messageType: string, targetId: string) {
    if c.targetId != "" && (c.messageType == "group" || c.messageType == "private")
    then messageType == c.messageType && targetId == c.targetId
    else if c.groupId != "" then messageType == "group" && targetId == c.groupId
    else if c.userId != "" then messageType == "private" && targetId == c.userId
    else && c.sessionId != "" && targetId == c.sessionId
         && var s := ParseSession(c.sessionId);
            messageType == if s.Some? && s.value.messageType != "" then s.value.messageType else "group"
  }

  /** From any context to FrostAgent: a reply is refused in the sandbox exactly without a target or without an
      endpoint and token; otherwise one plain message with the text reaches the context's target. */
  lemma ReplyGoesTo(c: Context, token: RunToken, text: string)
    requires token.HasScope(SCOPE_SEND_MESSAGE)
    ensures var nowhere := c.groupId == "" && c.userId == "" && c.sessionId == ""
                           && !(c.targetId != "" && (c.messageType == "group" || c.messageType == "private"));
            var posted := Reply(c, text);
            && (posted == Err(NoSession) <==> nowhere)
            && (posted == Err(NotConfigured) <==> !nowhere && (c.endpoint == "" || c.token == ""))
            && (posted.Ok? ==>
                  && Delivered(Some(token), posted.value).Ok?
                  && var out := Delivered(Some(token), posted.value).value;
                     && |out.messages| == 1
                     && GoesTo(c, out.messages[0].messageType, out.messages[0].targetId)
                     && (c.platform != "" ==> out.messages[0].platform == c.platform)
                     && out.messages[0].content == text && out.messages[0].kind == "plain"
                     && out.messages[0].attachments == []
                     && out.metadata == if c.adapterId != "" then map["adapter_id" := c.adapterId] else map[])
  {
    var posted := Reply(c, text);
    if posted.Ok? {
      assert TrimSpace("") == "";
      DeliveredIff(Some(token), posted.value);
      assert posted.value.(instanceId := "") == posted.value;
      NormalizedIs(posted.value);
      RoutedIs(posted.value);
      assert FilledFrom(Routed(posted.value), posted.value.messages[0], Normalized(posted.value).messages[0]);
    }
  }

  lemma SandboxKeepsRouting(planned: map<string, string>, run: string, endpoint: string, token: string, k: string)
    requires |k| > 11 && k[11] == 'E'
    ensures Getenv(Planning.SandboxEnv(planned, run, endpoint, token), k) == Getenv(planned, k)
  {
    assert "ACTIONSCAT_RUN_ID"[11] == 'R' && "ACTIONSCAT_RUNTIME_ENDPOINT"[11] == 'R';
    assert "ACTIONSCAT_RUNTIME_TOKEN"[11] == 'R';
  }

  /** The environment carries the delivery context in the event variables. */
  ghost predicate Carries(env: map<string, string>, d: Delivery.DeliveryContext) {
    forall v: Delivery.Var :: Getenv(env, Delivery.Name(v)) == Delivery.Field(d, v)
  }

  lemma PlanCarries(
      d: Delivery.DeliveryContext, s: Planning.Subject, extra: map<string, string>, injs: seq<Planning.Injection>,
      read: string -> Planning.StateRead)
    requires Planning.Plan(s, extra, injs, read, Some(d)).Ok?
    ensures Carries(Planning.Plan(s, extra, injs, read, Some(d)).value, d)
  {
    forall v: Delivery.Var
      ensures Getenv(Planning.Plan(s, extra, injs, read, Some(d)).value, Delivery.Name(v)) == Delivery.Field(d, v)
    {
      Delivery.EnvironmentFields(d, v);
      Planning.PlannedVariable(s, extra, injs, read, Some(d), Delivery.Name(v));
    }
  }

  /** The routing a run planned with a delivery context sees in its sandbox. */
  lemma SandboxRouting(
      planned: map<string, string>, d: Delivery.DeliveryContext, run: string, endpoint: string, raw: string)
    requires Carries(planned, d)
    ensures GetContext(Planning.SandboxEnv(planned, run, endpoint, raw))
            == Context(TrimSlashes(endpoint), raw, d.platform, d.adapterId, d.messageType, d.targetId,
                       d.sessionId, d.userId, d.groupId)
  {
    var env := Planning.SandboxEnv(planned, run, endpoint, raw);
    assert Carries(env, d) by {
      forall v: Delivery.Var ensures Getenv(env, Delivery.Name(v)) == Delivery.Field(d, v) {
        Delivery.NamesDiffer(v, v);
        SandboxKeepsRouting(planned, run, endpoint, raw, Delivery.Name(v));
      }
    }
    SandboxOwnVariables(planned, run, endpoint, raw);
  }

  lemma SandboxOwnVariables(planned: map<string, string>, run: string, endpoint: string, raw: string)
    ensures var env := Planning.SandboxEnv(planned, run, endpoint, raw);
            Getenv(env, "ACTIONSCAT_RUNTIME_ENDPOINT") == endpoint && Getenv(env, "ACTIONSCAT_RUNTIME_TOKEN") == raw
  {
    assert "ACTIONSCAT_RUNTIME_ENDPOINT"[19] == 'E' && "ACTIONSCAT_RUNTIME_TOKEN"[19] == 'T';
  }

  /** A fully routed request with one plain message goes out with that routing on the message. */
  lemma RoutedRequestIsDelivered(token: RunToken, req: Request, text: string)
    requires token.HasScope(SCOPE_SEND_MESSAGE) && req.instanceId == ""
    requires req.platform != "" && req.messageType != "" && req.targetId != ""
    requires req.messages == [Message("", "", "", "", [], map[], "plain", text, "", "")]
    ensures Delivered(Some(token), req)
            == Ok(req.(messages := [Message(req.platform, req.messageType, req.targetId, text, [], map[],
                                            "plain", text, "", "")]))
  {
    NormalizeIsIdempotent(req);
    assert Routed(req) == req;
    assert Normalized(req).messages == [NormalMessage(req, req.messages[0])];
    assert req.(instanceId := "") == req;
    assert TrimSpace("") == "";
  }

  /** A request with the routing of a delivery context. */
  function Posted(d: Delivery.DeliveryContext, m: Message): Request {
    Request(d.sessionId, d.platform, d.messageType, d.targetId, "", "", [], [m], "",
            if d.adapterId != "" then map["adapter_id" := d.adapterId] else map[])
  }

  lemma ReplyInContext(d: Delivery.DeliveryContext, endpoint: string, raw: string, text: string)
    requires Delivery.Valid(d) && endpoint != "" && raw != ""
    ensures Reply(Context(endpoint, raw, d.platform, d.adapterId, d.messageType, d.targetId,
                          d.sessionId, d.userId, d.groupId), text)
            == Ok(Posted(d, Message("", "", "", "", [], map[], "plain", text, "", "")))
  {
  }

  /** From a schedule's delivery context to FrostAgent: whatever the state injections and extra
      variables say, Reply delivers exactly one message, to exactly that platform, message type and
      target, with the adapter id in the request metadata. */
  lemma ReplyReachesTheSchedulesTarget(
      d: Delivery.DeliveryContext, s: Planning.Subject, extra: map<string, string>, injs: seq<Planning.Injection>,
      read: string -> Planning.StateRead, run: string, endpoint: string, raw: string, token: RunToken, text: string)
    requires Delivery.Valid(d) && Planning.Plan(s, extra, injs, read, Some(d)).Ok?
    requires TrimSlashes(endpoint) != "" && raw != "" && token.HasScope(SCOPE_SEND_MESSAGE)
    ensures var env := Planning.SandboxEnv(Planning.Plan(s, extra, injs, read, Some(d)).value, run, endpoint, raw);
            var posted := Reply(GetContext(env), text);
            && posted.Ok?
            && Delivered(Some(token), posted.value)
               == Ok(Posted(d, Message(d.platform, d.messageType, d.targetId, text, [], map[], "plain", text, "", "")))
  {
    PlanCarries(d, s, extra, injs, read);
    SandboxRouting(Planning.Plan(s, extra, injs, read, Some(d)).value, d, run, endpoint, raw);
    ReplyInContext(d, TrimSlashes(endpoint), raw, text);
    RoutedRequestIsDelivered(token, Posted(d, Message("", "", "", "", [], map[], "plain", text, "", "")), text);
  }
}
