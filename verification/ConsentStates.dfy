/** The consent state machine: which action may follow which status. */
module ConsentStates {
  import opened Options

  datatype Channel = Email | Sms | WhatsApp

  datatype Status = Granted | Revoked | PendingDoubleOptIn

  datatype Action = Grant | Revoke | RequestDoubleOptIn | ConfirmDoubleOptIn

  /** The status after `action`, or nothing when the table forbids the step. */
  function Next(current: Option<Status>, action: Action): Option<Status> {
    match (current, action)
    case (None, Grant) => Some(Granted)
    case (None, RequestDoubleOptIn) => Some(PendingDoubleOptIn)
    case (None, Revoke) => Some(Revoked)
    case (None, ConfirmDoubleOptIn) => None
    case (Some(PendingDoubleOptIn), ConfirmDoubleOptIn) => Some(Granted)
    case (Some(PendingDoubleOptIn), Grant) => Some(Granted)
    case (Some(PendingDoubleOptIn), Revoke) => Some(Revoked)
    case (Some(PendingDoubleOptIn), RequestDoubleOptIn) => Some(PendingDoubleOptIn)
    case (Some(Granted), Grant) => Some(Granted)
    case (Some(Granted), Revoke) => Some(Revoked)
    case (Some(Granted), RequestDoubleOptIn) => None
    case (Some(Granted), ConfirmDoubleOptIn) => None
    case (Some(Revoked), Grant) => Some(Granted)
    case (Some(Revoked), RequestDoubleOptIn) => Some(PendingDoubleOptIn)
    case (Some(Revoked), Revoke) => Some(Revoked)
    case (Some(Revoked), ConfirmDoubleOptIn) => None
  }
}
