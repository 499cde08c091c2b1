// The values the plugin passes around: credits, snapshots, one reset attempt,
// the six states of an account and the user's configuration.

module Models {

  /** Instants and durations in nanoseconds.  NO_TIME is Go's zero time.Time: as an
      expiry it means "never expires", as a wake it means "not scheduled". */
  type Time = int

  const NO_TIME: Time := 0
  const SECOND: int := 1_000_000_000
  const MINUTE: int := 60 * SECOND
  const HOUR: int := 60 * MINUTE

  const VERIFY_DELAY: int := MINUTE
  const CREDENTIAL_RETRY: int := 30 * MINUTE
  const WILDCARD_RESOLVE: int := MINUTE

  datatype Option<+T> = None | Some(value: T)

  datatype State = Idle | Armed | Confirming | Resetting | Verifying | Done

  datatype Credit = Credit(id: string, status: string, expiresAt: Time)

  datatype Snapshot = Snapshot(availableCount: int, credits: seq<Credit>, weeklyPct: int)

  datatype ResetAttempt = ResetAttempt(
    redeemId: string, target: string, pre: Snapshot,
    startedAt: Time, attempt: nat, nextRetryAt: Time)

  const NO_SNAPSHOT := Snapshot(0, [], 0)
  const NO_ATTEMPT := ResetAttempt("", "", NO_SNAPSHOT, NO_TIME, 0, NO_TIME)

  datatype ResetRecord = ResetRecord(
    timestamp: Time, authId: string, creditId: string, success: bool,
    preWeeklyPct: int, postWeeklyPct: int, preCredits: int, postCredits: int)

  datatype Config = Config(refreshInterval: int, triggerLeadTime: int, enabledAccounts: seq<string>)

  /** One audit-trail entry; details holds the fields of a verification log, if it has them. */
  datatype LogDetails = LogDetails(creditId: string, preCredits: int, postCredits: int, preWeekly: int, postWeekly: int)
  datatype LogEntry = LogEntry(timestamp: Time, scope: string, state: State, verifiedOk: bool, details: Option<LogDetails>)

  /** The persisted shape; the runtime mirror of each account is only its state and wake. */
  datatype AccountRuntime = AccountRuntime(state: State, nextWake: Time)
  datatype PluginState = PluginState(
    config: Config, accounts: map<string, AccountRuntime>, logs: seq<LogEntry>, history: seq<ResetRecord>)

  const EMPTY_STATE := PluginState(Config(0, 0, []), map[], [], [])

  const ALL_ACCOUNTS: string := "*"

  predicate EnablesAll(enabled: seq<string>) { ALL_ACCOUNTS in enabled }

  /** What one account's machine needs of the configuration. */
  datatype Settings = Settings(authId: string, refreshInterval: int, leadTime: int)

  /** normalizeConfig raises both durations to at least one minute. */
  predicate Normalized(p: Settings) {
    p.refreshInterval >= MINUTE && p.leadTime >= MINUTE
  }
}
