/** The SDK's exception classes, and how an agent error code picks one. */
module Errors {
  /** Every class but the base derives from `IOSError` directly. */
  datatype ErrorClass =
    | IOSError | DeviceNotFound | AgentNotRunning | AgentConnectionError | ProtocolError
    | Unauthorized | ElementNotFound | ElementNotInteractable | StaleElement | CommandTimeout
    | AppLaunchError | SessionLost | SetupError
  {
    /** `except (parent)` catches the class itself, and every class when the parent is the base. */
    predicate CaughtBy(parent: ErrorClass) {
      this == parent || parent == IOSError
    }
  }

  /** The two classes after which `invoke` reconnects and sends the command again. */
  predicate Retried(c: ErrorClass) {
    c.CaughtBy(AgentConnectionError) || c.CaughtBy(SessionLost)
  }

  /**
   The class for an error code that the agent reports: whatever the code, even one this SDK has
   never heard of, it is not one that would send the command a second time.
  */
  function ClassFor(code: string): (c: ErrorClass)
    ensures !Retried(c)
  {
    match code
    case "UNKNOWN_METHOD" => ProtocolError
    case "INVALID_PARAMS" => ProtocolError
    case "PROTOCOL_ERROR" => ProtocolError
    case "UNAUTHORIZED" => Unauthorized
    case "ELEMENT_NOT_FOUND" => ElementNotFound
    case "ELEMENT_NOT_INTERACTABLE" => ElementNotInteractable
    case "STALE_ELEMENT" => StaleElement
    case "APP_LAUNCH_FAILED" => AppLaunchError
    case "NO_ACTIVE_APP" => AppLaunchError
    case "ALERT_NOT_FOUND" => ElementNotFound
    case "TIMEOUT" => CommandTimeout
    case "SNAPSHOT_FAILED" => IOSError
    case "INTERNAL_ERROR" => IOSError
    case _ => IOSError
  }

  /** The code each class carries itself, whoever raises it. */
  function OwnCode(c: ErrorClass): string {
    match c
    case IOSError => "SANDSTORM_ERROR"
    case DeviceNotFound => "DEVICE_NOT_FOUND"
    case AgentNotRunning => "AGENT_NOT_RUNNING"
    case AgentConnectionError => "AGENT_CONNECTION_ERROR"
    case ProtocolError => "PROTOCOL_ERROR"
    case Unauthorized => "UNAUTHORIZED"
    case ElementNotFound => "ELEMENT_NOT_FOUND"
    case ElementNotInteractable => "ELEMENT_NOT_INTERACTABLE"
    case StaleElement => "STALE_ELEMENT"
    case CommandTimeout => "TIMEOUT"
    case AppLaunchError => "APP_LAUNCH_FAILED"
    case SessionLost => "SESSION_LOST"
    case SetupError => "SETUP_ERROR"
  }

  /** A class's own code raises that class, but for the five the SDK keeps to itself, which become the base class. */
  lemma OwnCodesRaiseTheirClass(c: ErrorClass)
    ensures ClassFor(OwnCode(c)) ==
      if c.DeviceNotFound? || c.AgentNotRunning? || c.AgentConnectionError? || c.SessionLost? || c.SetupError? then IOSError else c
  {
  }

  /** Which codes raise which class; all others, known or not, raise the base class. */
  lemma CodesOfEachClass(code: string)
    ensures ClassFor(code) == ProtocolError <==> code in {"UNKNOWN_METHOD", "INVALID_PARAMS", "PROTOCOL_ERROR"}
    ensures ClassFor(code) == Unauthorized <==> code == "UNAUTHORIZED"
    ensures ClassFor(code) == ElementNotFound <==> code in {"ELEMENT_NOT_FOUND", "ALERT_NOT_FOUND"}
    ensures ClassFor(code) == ElementNotInteractable <==> code == "ELEMENT_NOT_INTERACTABLE"
    ensures ClassFor(code) == StaleElement <==> code == "STALE_ELEMENT"
    ensures ClassFor(code) == AppLaunchError <==> code in {"APP_LAUNCH_FAILED", "NO_ACTIVE_APP"}
    ensures ClassFor(code) == CommandTimeout <==> code == "TIMEOUT"
    ensures ClassFor(code) !in {DeviceNotFound, AgentNotRunning, AgentConnectionError, SessionLost, SetupError}
  {
  }
}
