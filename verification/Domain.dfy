/** Records shared by the whole model, after internal/domain.
    Times are integers (nanoseconds); identifiers and text are strings whose
    characters stand for bytes. */
module Domain {

  datatype Option<+T> = None | Some(value: T)

  datatype Result<+T, +E> = Ok(value: T) | Err(error: E)

  datatype RunStatus = Queued | Running | Succeeded | Failed | TimedOut | Cancelled | Interrupted {
    predicate IsTerminal() {
      match this
      case Succeeded | Failed | TimedOut | Cancelled | Interrupted => true
      case _ => false
    }

    /** The documented life of a run: queued, running, one terminal status. */
    predicate MayBecome(later: RunStatus) {
      match this
      case Queued => true
      case Running => later.Running? || later.IsTerminal()
      case _ => later == this
    }
  }

  datatype TriggerType = Manual | Schedule | MatcherTrigger

  datatype BuildStatus = BuildPending | BuildBuilding | BuildSucceeded | BuildFailed | BuildTimedOut

  datatype ActionRow = ActionRow(activeVersion: string, activeBuild: string, maxConcurrency: int, enabled: bool)

  datatype VersionRow = VersionRow(action: string, capabilities: seq<string>, timeoutSeconds: int)

  datatype BuildRow = BuildRow(action: string, version: string, status: BuildStatus)

  datatype RunRow = RunRow(
    action: string, version: string, build: string, trigger: TriggerType,
    status: RunStatus, createdAt: int, startedAt: Option<int>, completedAt: Option<int>)

  datatype RunToken = RunToken(
    hash: string, run: string, action: string, scopes: seq<string>,
    expiresAt: int, revokedAt: Option<int>)
  {
    predicate IsValid(now: int) {
      revokedAt.None? && now < expiresAt
    }

    predicate HasScope(scope: string) {
      scope in scopes
    }
  }

  const SCOPE_STATE_WRITE := "state.write"
  const SCOPE_SEND_MESSAGE := "frostagent.sendmsg"
}
