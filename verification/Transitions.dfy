/** The status vocabularies and the four transition tables of the Collector domain. */
module Transitions {

  type AccountId = nat

  datatype AccountStatus = Disconnected | Connecting | Connected | ReauthRequired | TemporarilyLimited

  datatype RunStatus = RunQueued | RunRunning | RunCompleted | RunCancelled | RunFailed

  datatype ReelStatus = Discovered | Downloading | SourceReady | Normalizing | Ready | ReelFailed

  datatype JobStatus = Pending | Running | Completed | JobFailed

  function AccountTransitions(current: AccountStatus): set<AccountStatus> {
    match current
    case Disconnected => {Connecting}
    case Connecting => {Connected, Disconnected, ReauthRequired, TemporarilyLimited}
    case Connected => {Disconnected, ReauthRequired, TemporarilyLimited}
    case ReauthRequired => {Connecting, Disconnected}
    case TemporarilyLimited => {Connecting, Disconnected}
  }

  function RunTransitions(current: RunStatus): set<RunStatus> {
    match current
    case RunQueued => {RunRunning, RunCancelled, RunFailed}
    case RunRunning => {RunCompleted, RunCancelled, RunFailed}
    case RunCompleted => {}
    case RunCancelled => {}
    case RunFailed => {}
  }

  function ReelTransitions(current: ReelStatus): set<ReelStatus> {
    match current
    case Discovered => {Downloading, ReelFailed}
    case Downloading => {SourceReady, ReelFailed}
    case SourceReady => {Normalizing, ReelFailed}
    case Normalizing => {SourceReady, Ready, ReelFailed}
    case Ready => {}
    case ReelFailed => {Downloading}
  }

  function JobTransitions(current: JobStatus): set<JobStatus> {
    match current
    case Pending => {Running, JobFailed}
    case Running => {Completed, JobFailed}
    case Completed => {}
    case JobFailed => {}
  }

  /** A non-noop transition that the policy lists. `require_transition` raises exactly when this is false. */
  predicate TransitionAllowed<S(==)>(policy: S -> set<S>, current: S, target: S) {
    current != target && target in policy(current)
  }

  /** The statuses of a reel whose source is durably acquired. */
  predicate Durable(status: ReelStatus) {
    status.SourceReady? || status.Normalizing? || status.Ready?
  }
}
