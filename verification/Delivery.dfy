/** internal/domain/delivery.go: trigger routing and its environment variables. */
module Delivery {
  import opened Domain
  import opened Text

  datatype DeliveryContext = DeliveryContext(
    platform: string, adapterId: string, messageType: string, targetId: string,
    sessionId: string, userId: string, groupId: string)

  const MAX_FIELD_BYTES := 4096

  predicate FieldOk(value: string) {
    |value| <= MAX_FIELD_BYTES && Trimmed(value) && '\0' !in value && '\r' !in value && '\n' !in value
  }

  predicate Valid(d: DeliveryContext) {
    && FieldOk(d.platform) && FieldOk(d.adapterId) && FieldOk(d.messageType) && FieldOk(d.targetId)
    && FieldOk(d.sessionId) && FieldOk(d.userId) && FieldOk(d.groupId)
    && d.platform != "" && d.targetId != ""
    && (d.messageType == "private" || d.messageType == "group")
    && (d.messageType == "private" ==> d.groupId == "" && (d.userId == "" || d.userId == d.targetId))
    && (d.messageType == "group" ==> d.groupId == "" || d.groupId == d.targetId)
  }

  /** A missing context is valid. */
  predicate Validate(d: Option<DeliveryContext>) { d.Some? ==> Valid(d.value) }

  /** The seven event variables. */
  datatype Var = Platform | AdapterId | MessageType | TargetId | SessionId | UserId | GroupId

  function Name(v: Var): string {
    match v
    case Platform => "ACTIONSCAT_EVENT_PLATFORM"
    case AdapterId => "ACTIONSCAT_EVENT_ADAPTER_ID"
    case MessageType => "ACTIONSCAT_EVENT_MESSAGE_TYPE"
    case TargetId => "ACTIONSCAT_EVENT_TARGET_ID"
    case SessionId => "ACTIONSCAT_EVENT_SESSION_ID"
    case UserId => "ACTIONSCAT_EVENT_USER_ID"
    case GroupId => "ACTIONSCAT_EVENT_GROUP_ID"
  }

  function Field(d: DeliveryContext, v: Var): string {
    match v
    case Platform => d.platform
    case AdapterId => d.adapterId
    case MessageType => d.messageType
    case TargetId => d.targetId
    case SessionId => d.sessionId
    case UserId => d.userId
    case GroupId => d.groupId
  }

  function Environment(d: Option<DeliveryContext>): map<string, string> {
    match d
    case None => map[]
    case Some(c) => map[
      Name(Platform) := c.platform, Name(AdapterId) := c.adapterId, Name(MessageType) := c.messageType,
      Name(TargetId) := c.targetId, Name(SessionId) := c.sessionId, Name(UserId) := c.userId,
      Name(GroupId) := c.groupId]
  }

  /** The variable names differ from each other, and from the sandbox's own at position 11. */
  lemma NamesDiffer(v: Var, u: Var)
    ensures v != u ==> Name(v) != Name(u)
    ensures |Name(v)| > 17 && Name(v)[11] == 'E'
  {
    assert |Name(v)| > 17 && Name(v)[17] == match v
      case Platform => 'P' case AdapterId => 'A' case MessageType => 'M' case TargetId => 'T'
      case SessionId => 'S' case UserId => 'U' case GroupId => 'G';
    assert |Name(u)| > 17 && Name(u)[17] == match u
      case Platform => 'P' case AdapterId => 'A' case MessageType => 'M' case TargetId => 'T'
      case SessionId => 'S' case UserId => 'U' case GroupId => 'G';
  }

  /** Every event variable carries its own field. */
  lemma EnvironmentFields(c: DeliveryContext, v: Var)
    ensures Name(v) in Environment(Some(c)) && Environment(Some(c))[Name(v)] == Field(c, v)
  {
    forall u: Var ensures u != v ==> Name(u) != Name(v) { NamesDiffer(u, v); }
  }

  /** The same by name. */
  lemma EnvironmentIs(c: DeliveryContext)
    ensures var env := Environment(Some(c));
            && "ACTIONSCAT_EVENT_PLATFORM" in env && env["ACTIONSCAT_EVENT_PLATFORM"] == c.platform
            && "ACTIONSCAT_EVENT_ADAPTER_ID" in env && env["ACTIONSCAT_EVENT_ADAPTER_ID"] == c.adapterId
            && "ACTIONSCAT_EVENT_MESSAGE_TYPE" in env && env["ACTIONSCAT_EVENT_MESSAGE_TYPE"] == c.messageType
            && "ACTIONSCAT_EVENT_TARGET_ID" in env && env["ACTIONSCAT_EVENT_TARGET_ID"] == c.targetId
            && "ACTIONSCAT_EVENT_SESSION_ID" in env && env["ACTIONSCAT_EVENT_SESSION_ID"] == c.sessionId
            && "ACTIONSCAT_EVENT_USER_ID" in env && env["ACTIONSCAT_EVENT_USER_ID"] == c.userId
            && "ACTIONSCAT_EVENT_GROUP_ID" in env && env["ACTIONSCAT_EVENT_GROUP_ID"] == c.groupId
  {
    forall v: Var ensures Name(v) in Environment(Some(c)) && Environment(Some(c))[Name(v)] == Field(c, v) {
      EnvironmentFields(c, v);
    }
    assert Name(Platform) == "ACTIONSCAT_EVENT_PLATFORM" && Name(AdapterId) == "ACTIONSCAT_EVENT_ADAPTER_ID";
    assert Name(MessageType) == "ACTIONSCAT_EVENT_MESSAGE_TYPE" && Name(TargetId) == "ACTIONSCAT_EVENT_TARGET_ID";
    assert Name(SessionId) == "ACTIONSCAT_EVENT_SESSION_ID" && Name(UserId) == "ACTIONSCAT_EVENT_USER_ID";
    assert Name(GroupId) == "ACTIONSCAT_EVENT_GROUP_ID";
  }

  /** Nothing else is in it: every name has an E in place 11. */
  lemma EnvironmentNames(d: Option<DeliveryContext>, k: string)
    ensures k in Environment(d) ==> d.Some? && |k| > 11 && k[11] == 'E'
  {
    if k in Environment(d) {
      var v :| k == Name(v);
      NamesDiffer(v, v);
    }
  }

  /** Text that cannot be a field: too long, white space at an end, or a NUL, CR or LF byte in it. */
  predicate BadField(value: string) {
    |value| > 4096 || TrimSpace(value) != value || '\0' in value || '\r' in value || '\n' in value
  }

  /** A context is refused for exactly these reasons. */
  lemma InvalidIff(d: DeliveryContext)
    ensures !Validate(Some(d)) <==>
              || BadField(d.platform) || BadField(d.adapterId) || BadField(d.messageType) || BadField(d.targetId)
              || BadField(d.sessionId) || BadField(d.userId) || BadField(d.groupId)
              || d.platform == "" || d.targetId == ""
              || (d.messageType != "private" && d.messageType != "group")
              || (d.messageType == "private" && (d.groupId != "" || (d.userId != "" && d.userId != d.targetId)))
              || (d.messageType == "group" && d.groupId != "" && d.groupId != d.targetId)
    ensures Validate(None)
  {
  }
}
