// The worker loop and the management handlers that interfere with it, as atomic steps.
// A step that holds the worker mutex needs check.Free?; a running TriggerCheck holds that
// mutex across its separate state reads and wake writes, while the in-flight tick, which
// holds only the account's own mutex, can still complete.

module Worker {
  import opened Models
  import opened Machine
  import opened Account

  function SettingsOf(cfg: Config, id: string): Settings {
    Settings(id, cfg.refreshInterval, cfg.triggerLeadTime)
  }

  /** Why accounts are being ensured: at start, in the retry pass, or in place of a step. */
  datatype Pass = Starting | Retrying | Stepping

  /** Where the loop's goroutine stands; Ended: a panic outside the per-account recovery. */
  datatype Pc =
    | Top
    | Enumerating
    | Scan
    | Ensuring(todo: seq<string>, pass: Pass)
    | Pick
    | Nothing
    | Picked(id: string, wake: Time)
    | Sleeping(until: Time)
    | Loading(id: string, since: Time)
    | Ticking(id: string, since: Time)
    | Syncing(id: string)
    | Recovering(id: string)
    | Ended

  /** A TriggerCheck in progress: the instant it read, the accounts left to visit, and the
      account it has read as IDLE and not yet written. */
  datatype Check = Free | Checking(now: Time, todo: set<string>, seen: Option<string>)

  /** token: the one-slot wake channel is full; nudges: handlers that have released the
      mutex and not yet sent their nudge; queries: when the host was enumerated; retired: the
      machines each successful enumeration has dropped.  The last two only record. */
  datatype World = World(
    clock: Time, accounts: map<string, Account>, missing: map<string, Time>,
    wildcard: bool, resolved: seq<string>, lastResolve: Time, queries: seq<Time>,
    token: bool, nudges: nat, pc: Pc, check: Check, retired: seq<map<string, Account>>)

  datatype Step =
    | Advance(to: Time)
    | ResolveOrSkip
    | Enumerated(ids: seq<string>)
    | EnumerationFailed
    | EnumerationPanicked
    | ScanMissing
    | EnsureOne(loaded: bool)
    | EnsurePanicked
    | EnsureDone
    | PickSoonest(id: string)
    | PickNone
    | MissingDelay
    | SleepOrStep
    | TokenWake
    | TimerWake
    | CredentialsLoaded
    | CredentialsFailed
    | CredentialsPanicked
    | RunTick(e: Env)
    | TickPanicked(e: Env, point: PanicPoint)
    | Synced
    | SyncPanicked(taken: bool)
    | RecoverPanic
    | CheckBegin(targets: set<string>)
    | CheckRead(id: string)
    | CheckStore
    | CheckEnd
    | ForceAccount(id: string)
    | Nudge

  function Initial(now: Time, cfg: Config): World {
    var wildcard := EnablesAll(cfg.enabledAccounts);
    var resolved := if wildcard then [] else cfg.enabledAccounts;
    World(now, map[], map[], wildcard, resolved, NO_TIME, [], false, 0, Ensuring(resolved, Starting), Free, [])
  }

  /** retryMissingFSMs: enabled ids without a machine whose retry time, if any, has come. */
  function RetryList(resolved: seq<string>, present: set<string>, missing: map<string, Time>, now: Time): seq<string> {
    if resolved == [] then []
    else
      var rest := RetryList(resolved[..|resolved| - 1], present, missing, now);
      var id := resolved[|resolved| - 1];
      if id in present || (id in missing && now < missing[id]) then rest else rest + [id]
  }

  const IDLE_DELAY: int := 100 * (SECOND / 1000)

  /** nextMissingRetryDelay, its running minimum read from the end of the list. */
  function SoonestMissing(resolved: seq<string>, present: set<string>, missing: map<string, Time>): Option<Option<Time>> {
    if resolved == [] then Some(None)
    else
      var rest := SoonestMissing(resolved[..|resolved| - 1], present, missing);
      var id := resolved[|resolved| - 1];
      if rest.None? then None
      else if id in present then rest
      else if id !in missing then None
      else if rest.value.None? || missing[id] < rest.value.value then Some(Some(missing[id]))
      else rest
  }

  function MissingRetryDelay(resolved: seq<string>, present: set<string>, missing: map<string, Time>, now: Time): int {
    match SoonestMissing(resolved, present, missing)
    case None => 0
    case Some(None) => IDLE_DELAY
    case Some(Some(at)) => at - now
  }

  /** The accounts an enumeration keeps: the listed ones and those in mid-cycle. */
  function Kept(accounts: map<string, Account>, ids: seq<string>): map<string, Account> {
    map id | id in accounts && (id in ids || !accounts[id].fsm.state.Idle?) :: accounts[id]
  }

  function Dropped(accounts: map<string, Account>, ids: seq<string>): map<string, Account> {
    map id | id in accounts && id !in ids && accounts[id].fsm.state.Idle? :: accounts[id]
  }

  predicate Waiting(accounts: map<string, Account>, id: string) {
    id in accounts && accounts[id].fsm.nextWake != NO_TIME
  }

  /** An account with the empty id, if it is waiting, is not strictly the soonest. */
  predicate NamelessNotFirst(accounts: map<string, Account>) {
    Waiting(accounts, "") ==>
      exists id :: id in accounts && id != "" && Waiting(accounts, id)
                   && accounts[id].fsm.nextWake <= accounts[""].fsm.nextWake
  }

  /** soonest can return this account: an earliest one, or any with a name when the search
      has taken a strictly earlier nameless one for "none yet". */
  predicate CanPick(accounts: map<string, Account>, id: string) {
    && id != "" && Waiting(accounts, id)
    && (NamelessNotFirst(accounts) ==>
          forall j :: j in accounts && Waiting(accounts, j) ==> accounts[id].fsm.nextWake <= accounts[j].fsm.nextWake)
  }

  /** soonest can return the empty id, which the loop takes for "nothing is scheduled". */
  predicate CanPickNone(accounts: map<string, Account>) {
    !NamelessNotFirst(accounts) || forall j :: j in accounts ==> !Waiting(accounts, j)
  }

  function EnsureAccount(w: World, id: string, loaded: bool): World {
    if id in w.accounts then w
    else if loaded then w.(accounts := w.accounts[id := Fresh(w.clock)], missing := w.missing - {id})
    else w.(missing := w.missing[id := w.clock + CREDENTIAL_RETRY])
  }

  /** What the code does next at each point of the loop and of the handlers.  The guards
      are only locks, channel and program points, and what the clock, the host and the
      upstream may answer. */
  predicate Can(w: World, st: Step) {
    match st
    case Advance(to) => w.clock <= to
    case ResolveOrSkip => w.pc.Top? && w.check.Free?
    case Enumerated(_) => w.pc.Enumerating? && w.check.Free?
    case EnumerationFailed => w.pc.Enumerating?
    case EnumerationPanicked => w.pc.Enumerating?
    case ScanMissing => w.pc.Scan? && w.check.Free?
    case EnsureOne(_) => w.pc.Ensuring? && w.pc.todo != [] && w.check.Free?
    case EnsurePanicked => w.pc.Ensuring? && w.pc.todo != [] && w.pc.todo[0] !in w.accounts
    case EnsureDone => w.pc.Ensuring? && w.pc.todo == []
    case PickSoonest(id) => w.pc.Pick? && w.check.Free? && CanPick(w.accounts, id)
    case PickNone => w.pc.Pick? && w.check.Free? && CanPickNone(w.accounts)
    case MissingDelay => w.pc.Nothing? && w.check.Free?
    case SleepOrStep => w.pc.Picked? && (w.pc.wake > w.clock || w.check.Free?)
    case TokenWake => w.pc.Sleeping? && w.token
    case TimerWake => w.pc.Sleeping? && w.pc.until <= w.clock
    case CredentialsLoaded => w.pc.Loading?
    case CredentialsFailed => w.pc.Loading?
    case CredentialsPanicked => w.pc.Loading?
    case RunTick(e) => w.pc.Ticking? && Answers(w, w.pc.id, w.pc.since, e)
    case TickPanicked(e, _) => w.pc.Ticking? && Answers(w, w.pc.id, w.pc.since, e)
    case Synced => w.pc.Syncing?
    case SyncPanicked(_) => w.pc.Syncing?
    case RecoverPanic => w.pc.Recovering? && w.check.Free?
    case CheckBegin(targets) => w.check.Free? && targets <= w.accounts.Keys
    case CheckRead(id) => w.check.Checking? && w.check.seen.None? && id in w.check.todo
    case CheckStore => w.check.Checking? && w.check.seen.Some?
    case CheckEnd => w.check.Checking? && w.check.seen.None? && w.check.todo == {}
    case ForceAccount(id) => w.check.Free? && id in w.accounts
    case Nudge => w.nudges > 0
  }

  /** A tick ends now; it started after it was picked and after whatever last held the
      account's mutex; UUIDs are not repeated. */
  predicate Answers(w: World, id: string, since: Time, e: Env) {
    && since <= e.now <= e.later == w.clock
    && (id in w.accounts ==>
          w.accounts[id].clock <= e.now && e.freshId != "" && e.freshId !in w.accounts[id].minted)
  }

  /** The account action a step performs, and on which account. */
  datatype Effect = NoEffect | Effect(id: string, act: Action)

  function EffectOf(w: World, st: Step): Effect
    requires Can(w, st)
  {
    match st
    case CredentialsFailed => Effect(w.pc.id, LoadFailed(w.clock))
    case CredentialsPanicked => Effect(w.pc.id, LoadPanic(w.clock))
    case RunTick(e) => Effect(w.pc.id, Tick(e))
    case TickPanicked(e, point) => Effect(w.pc.id, TickPanic(e, point))
    case Synced => Effect(w.pc.id, Sync)
    case SyncPanicked(taken) => Effect(w.pc.id, SyncPanic(taken))
    case RecoverPanic => Effect(w.pc.id, Recover(w.clock))
    case CheckStore => Effect(w.check.seen.value, CheckWrite(w.check.now, w.clock))
    case ForceAccount(id) => Effect(id, Force(w.clock))
    case _ => NoEffect
  }

  /** Where the loop goes, by the steps that change nothing else. */
  function PcAfter(w: World, st: Step): Pc
    requires Can(w, st)
  {
    match st
    case EnumerationFailed => Scan
    case EnumerationPanicked => Ended
    case ScanMissing => Ensuring(RetryList(w.resolved, w.accounts.Keys, w.missing, w.clock), Retrying)
    case EnsurePanicked => if w.pc.pass.Stepping? then Top else Ended
    case EnsureDone => if w.pc.pass.Retrying? then Pick else Top
    case PickSoonest(id) => Picked(id, w.accounts[id].fsm.nextWake)
    case PickNone => Nothing
    case MissingDelay =>
      var delay := MissingRetryDelay(w.resolved, w.accounts.Keys, w.missing, w.clock);
      if delay <= 0 then Top else Sleeping(w.clock + delay)
    case SleepOrStep =>
      if w.pc.wake > w.clock then Sleeping(w.pc.wake)
      else if w.pc.id in w.accounts then Loading(w.pc.id, w.clock)
      else Ensuring([w.pc.id], Stepping)
    case CredentialsLoaded => Ticking(w.pc.id, w.pc.since)
    case CredentialsPanicked => Pc.Recovering(w.pc.id)
    case RunTick(_) => Syncing(w.pc.id)
    case TickPanicked(_, _) => Pc.Recovering(w.pc.id)
    case SyncPanicked(_) => Pc.Recovering(w.pc.id)
    case TimerWake => Top
    case CredentialsFailed => Top
    case Synced => Top
    case RecoverPanic => Top
    case _ => w.pc
  }

  /** Everything else a step does. */
  function Control(w: World, st: Step): World
    requires Can(w, st)
  {
    match st
    case Advance(to) => w.(clock := to)
    case ResolveOrSkip =>
      if !w.wildcard || (w.lastResolve != NO_TIME && w.clock - w.lastResolve < WILDCARD_RESOLVE)
      then w.(pc := Scan)
      else w.(lastResolve := w.clock, queries := w.queries + [w.clock], pc := Enumerating)
    case Enumerated(ids) =>
      w.(resolved := ids, accounts := Kept(w.accounts, ids), retired := w.retired + [Dropped(w.accounts, ids)],
         missing := map id | id in w.missing && id in ids :: w.missing[id], pc := Scan)
    case EnsureOne(loaded) => EnsureAccount(w, w.pc.todo[0], loaded).(pc := w.pc.(todo := w.pc.todo[1..]))
    case TokenWake => w.(token := false, pc := Top)
    case CheckBegin(targets) => w.(check := Checking(w.clock, targets, None))
    case CheckRead(id) =>
      var idle := id in w.accounts && w.accounts[id].fsm.state.Idle?;
      w.(check := w.check.(todo := w.check.todo - {id}, seen := if idle then Some(id) else None))
    case CheckStore => w.(check := w.check.(seen := None))
    case CheckEnd => w.(check := Free, nudges := w.nudges + 1)
    case ForceAccount(_) => w.(nudges := w.nudges + 1)
    case Nudge => w.(nudges := w.nudges - 1, token := true)
    case _ => w.(pc := PcAfter(w, st))
  }

  function Do(cfg: Config, w: World, st: Step): World
    requires Can(w, st)
  {
    var v, eff := Control(w, st), EffectOf(w, st);
    if eff.Effect? && eff.id in w.accounts
    then v.(accounts := v.accounts[eff.id := Apply(SettingsOf(cfg, eff.id), w.accounts[eff.id], eff.act)])
    else v
  }

  /** Any schedule at all; a step that is not possible where it stands changes nothing. */
  function WorldRun(cfg: Config, w: World, steps: seq<Step>): World {
    if steps == [] then w
    else
      var v := WorldRun(cfg, w, steps[..|steps| - 1]);
      var st := steps[|steps| - 1];
      if Can(v, st) then Do(cfg, v, st) else v
  }
}
