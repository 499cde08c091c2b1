// One account's state machine as functions on values: what a tick does to the fields,
// given what the clock and the upstream answered during it.

module Machine {
  import opened Models
  import opened CreditSelection
  import opened Retry

  datatype Fsm = Fsm(
    state: State, attempt: ResetAttempt, nextWake: Time, verifyDue: Time,
    scheduled: string, manual: bool, pending: Option<ResetRecord>)

  /** Everything a tick reads from outside: the clock when it starts and when it ends,
      and what each call would answer if the tick makes it. */
  datatype Env = Env(
    now: Time, later: Time, list: Option<Snapshot>, usage: Option<int>,
    consume: ConsumeOutcome, freshId: string)

  datatype Ticked = Ticked(fsm: Fsm, wake: Time)

  const FRESH := Fsm(Idle, NO_ATTEMPT, NO_TIME, NO_TIME, "", false, None)

  function TriggerTime(p: Settings, c: Credit): Time { c.expiresAt - p.leadTime }

  function ArmThreshold(p: Settings, c: Credit): Time { TriggerTime(p, c) - p.refreshInterval }

  function FindCredit(credits: seq<Credit>, id: string): (r: Option<Credit>)
    ensures r.Some? ==> r.value in credits && r.value.id == id
    ensures r.None? ==> forall c :: c in credits ==> c.id != id
  {
    if credits == [] then None
    else if credits[0].id == id then Some(credits[0])
    else FindCredit(credits[1..], id)
  }

  function Patrol(p: Settings, f: Fsm, e: Env): Ticked {
    Ticked(f.(nextWake := e.now + p.refreshInterval), e.now + p.refreshInterval)
  }

  function Abandon(f: Fsm): Ticked {
    Ticked(f.(state := Done), NO_TIME)
  }

  function StepIdle(p: Settings, f: Fsm, e: Env): Ticked {
    if e.list.None? then Patrol(p, f, e)
    else
      var avail := Select(e.list.value.credits, e.now);
      if avail == [] || avail[0].expiresAt == NO_TIME || e.now < ArmThreshold(p, avail[0])
      then Patrol(p, f, e)
      else
        var t := TriggerTime(p, avail[0]);
        var wake := if e.now < t then t else e.now;
        Ticked(f.(state := Armed, scheduled := avail[0].id, nextWake := wake), wake)
  }

  function StepArmed(p: Settings, f: Fsm, e: Env): Ticked {
    Ticked(f.(state := Confirming), e.later)
  }

  /** The credit to redeem: the soonest one for a manual reset, the pinned one otherwise. */
  function ConfirmTarget(f: Fsm, avail: seq<Credit>): Option<Credit> {
    if f.manual then (if avail == [] then None else Some(avail[0]))
    else if f.scheduled == "" then None
    else FindCredit(avail, f.scheduled)
  }

  function StepConfirming(p: Settings, f: Fsm, e: Env): Ticked {
    if e.list.None? then Abandon(f)
    else
      var target := ConfirmTarget(f, Select(e.list.value.credits, e.now));
      if target.None? || target.value.id == "" then Abandon(f)
      else if !f.manual && target.value.expiresAt == NO_TIME then Abandon(f)
      else if !f.manual && e.now < TriggerTime(p, target.value) then
        var t := TriggerTime(p, target.value);
        Ticked(f.(state := Armed, nextWake := t), t)
      else if e.usage.None? then Abandon(f)
      else
        var pre := e.list.value.(weeklyPct := e.usage.value);
        Ticked(
          f.(state := Resetting,
             attempt := ResetAttempt(e.freshId, target.value.id, pre, e.now, 0, NO_TIME)),
          e.later)
  }

  function StepResetting(p: Settings, f: Fsm, e: Env): Ticked {
    match Classify(e.consume)
    case Success =>
      var due := e.now + VERIFY_DELAY;
      Ticked(f.(state := Verifying, verifyDue := due, nextWake := due), due)
    case Stop => Abandon(f)
    case TryAgain =>
      var n := f.attempt.attempt + 1;
      if n > |RETRY_DELAYS| then
        Ticked(f.(state := Done, attempt := f.attempt.(attempt := n)), NO_TIME)
      else
        var at := e.now + Backoff(n);
        Ticked(f.(attempt := f.attempt.(attempt := n, nextRetryAt := at), nextWake := at), at)
  }

  predicate TargetGone(f: Fsm, post: Snapshot) {
    forall c :: c in post.credits ==> !(c.id == f.attempt.target && c.status == "available")
  }

  predicate CountDown1(f: Fsm, post: Snapshot) {
    post.availableCount == f.attempt.pre.availableCount - 1
  }

  predicate QuotaUp(f: Fsm, weeklyPct: int) {
    weeklyPct >= 100 || weeklyPct > f.attempt.pre.weeklyPct
  }

  function Record(p: Settings, f: Fsm, e: Env): ResetRecord
    requires e.list.Some? && e.usage.Some?
  {
    var post := e.list.value;
    ResetRecord(e.later, p.authId, f.attempt.target,
                TargetGone(f, post) && CountDown1(f, post) && QuotaUp(f, e.usage.value),
                f.attempt.pre.weeklyPct, e.usage.value,
                f.attempt.pre.availableCount, post.availableCount)
  }

  function StepVerifying(p: Settings, f: Fsm, e: Env): Ticked {
    if e.list.None? || e.usage.None? then Abandon(f)
    else Ticked(f.(state := Done, pending := Some(Record(p, f, e))), NO_TIME)
  }

  /** stepLocked. */
  function Step(p: Settings, f: Fsm, e: Env): Ticked {
    match f.state
    case Idle => StepIdle(p, f, e)
    case Armed => StepArmed(p, f, e)
    case Confirming => StepConfirming(p, f, e)
    case Resetting => StepResetting(p, f, e)
    case Verifying => StepVerifying(p, f, e)
    case Done => Ticked(f, NO_TIME)
  }

  /** resetLocked: everything but the undelivered record goes back to its initial value. */
  function ResetCycle(f: Fsm): Fsm {
    FRESH.(pending := f.pending)
  }

  function Settle(p: Settings, t: Ticked, later: Time): Ticked {
    if t.wake == NO_TIME && t.fsm.state.Done? then
      var wake := later + p.refreshInterval;
      Ticked(ResetCycle(t.fsm).(nextWake := wake), wake)
    else
      Ticked(t.fsm.(nextWake := t.wake), t.wake)
  }

  function StepAndSettle(p: Settings, f: Fsm, e: Env): Ticked {
    Settle(p, Step(p, f, e), e.later)
  }

  function ForceConfirm(f: Fsm, now: Time): Fsm {
    if f.state.Resetting? || f.state.Verifying? then f
    else f.(scheduled := "", manual := true, state := Confirming, nextWake := now)
  }

  function SetNextWake(f: Fsm, t: Time): Fsm { f.(nextWake := t) }
}
