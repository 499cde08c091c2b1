// The state machine as the object the worker drives: the same fields, assigned step by
// step under one mutex hold, each method proved against the functions of Machine.

module AccountFsm {
  import opened Models
  import opened CreditSelection
  import opened Retry
  import M = Machine

  class AccountFSM {
    const settings: Settings

    var state: State
    var attempt: ResetAttempt
    var nextWake: Time
    var verifyDue: Time
    var scheduledCreditID: string
    var manualReset: bool
    var pendingHistory: Option<ResetRecord>

    ghost function View(): M.Fsm
      reads this
    {
      M.Fsm(state, attempt, nextWake, verifyDue, scheduledCreditID, manualReset, pendingHistory)
    }

    constructor (settings: Settings)
      ensures View() == M.FRESH && this.settings == settings
    {
      this.settings := settings;
      state := Idle;
      attempt := NO_ATTEMPT;
      nextWake := NO_TIME;
      verifyDue := NO_TIME;
      scheduledCreditID := "";
      manualReset := false;
      pendingHistory := None;
    }

    method SetNextWake(t: Time)
      modifies this
      ensures View() == M.SetNextWake(old(View()), t)
    {
      nextWake := t;
    }

    method ForceConfirm(now: Time)
      modifies this
      ensures View() == M.ForceConfirm(old(View()), now)
    {
      if state.Resetting? || state.Verifying? {
        return;
      }
      scheduledCreditID := "";
      manualReset := true;
      state := Confirming;
      nextWake := now;
    }

    method StepIdle(e: M.Env) returns (wake: Time)
      modifies this
      ensures M.Ticked(View(), wake) == M.StepIdle(settings, old(View()), e)
    {
      wake := e.now + settings.refreshInterval;
      if e.list.None? {
        nextWake := wake;
        return;
      }
      var avail := AvailableCreditsSorted(e.list.value.credits, e.now);
      if |avail| == 0 {
        nextWake := wake;
        return;
      }
      var target := avail[0];
      if target.expiresAt == NO_TIME {
        nextWake := wake;
        return;
      }
      if e.now < M.ArmThreshold(settings, target) {
        nextWake := wake;
        return;
      }
      var t := M.TriggerTime(settings, target);
      scheduledCreditID := target.id;
      state := Armed;
      wake := t;
      if !(e.now < t) {
        wake := e.now;
      }
      nextWake := wake;
    }

    method StepArmed(e: M.Env) returns (wake: Time)
      modifies this
      ensures M.Ticked(View(), wake) == M.StepArmed(settings, old(View()), e)
    {
      state := Confirming;
      wake := e.later;
    }

    /** The search loop of the confirmation, over the selected credits. */
    static method Find(credits: seq<Credit>, id: string) returns (r: Option<Credit>)
      ensures r == M.FindCredit(credits, id)
    {
      r := None;
      var i := 0;
      while i < |credits|
        invariant 0 <= i <= |credits|
        invariant M.FindCredit(credits, id) == M.FindCredit(credits[i..], id)
      {
        if credits[i].id == id {
          return Some(credits[i]);
        }
        assert credits[i..][1..] == credits[i + 1..];
        i := i + 1;
      }
    }

    method StepConfirming(e: M.Env) returns (wake: Time)
      modifies this
      ensures M.Ticked(View(), wake) == M.StepConfirming(settings, old(View()), e)
    {
      wake := NO_TIME;
      if e.list.None? {
        state := Done;
        return;
      }
      var snap := e.list.value;
      var avail := AvailableCreditsSorted(snap.credits, e.now);
      var target: Option<Credit> := None;
      if manualReset {
        if |avail| > 0 {
          target := Some(avail[0]);
        }
      } else if scheduledCreditID != "" {
        target := Find(avail, scheduledCreditID);
      }
      if target.None? || target.value.id == "" {
        state := Done;
        return;
      }
      if !manualReset {
        if target.value.expiresAt == NO_TIME {
          state := Done;
          return;
        }
        var t := M.TriggerTime(settings, target.value);
        if e.now < t {
          state := Armed;
          nextWake := t;
          return t;
        }
      }
      if e.usage.None? {
        state := Done;
        return;
      }
      snap := snap.(weeklyPct := e.usage.value);
      attempt := ResetAttempt(e.freshId, target.value.id, snap, e.now, 0, NO_TIME);
      state := Resetting;
      wake := e.later;
    }

    method StepResetting(e: M.Env) returns (wake: Time)
      modifies this
      ensures M.Ticked(View(), wake) == M.StepResetting(settings, old(View()), e)
    {
      wake := NO_TIME;
      match Classify(e.consume) {
        case Success =>
          state := Verifying;
          verifyDue := e.now + VERIFY_DELAY;
          nextWake := verifyDue;
          wake := verifyDue;
        case Stop =>
          state := Done;
        case TryAgain =>
          attempt := attempt.(attempt := attempt.attempt + 1);
          if attempt.attempt > |RETRY_DELAYS| {
            state := Done;
            return;
          }
          attempt := attempt.(nextRetryAt := e.now + Backoff(attempt.attempt));
          nextWake := attempt.nextRetryAt;
          wake := attempt.nextRetryAt;
      }
    }

    method StepVerifying(e: M.Env) returns (wake: Time)
      modifies this
      ensures M.Ticked(View(), wake) == M.StepVerifying(settings, old(View()), e)
    {
      wake := NO_TIME;
      if e.list.None? || e.usage.None? {
        state := Done;
        return;
      }
      var post := e.list.value;
      var targetGone := true;
      var i := 0;
      while i < |post.credits| && targetGone
        invariant 0 <= i <= |post.credits|
        invariant targetGone <==> forall c :: c in post.credits[..i] ==> !(c.id == attempt.target && c.status == "available")
      {
        assert post.credits[..i + 1] == post.credits[..i] + [post.credits[i]];
        if post.credits[i].id == attempt.target && post.credits[i].status == "available" {
          targetGone := false;
        }
        i := i + 1;
      }
      assert targetGone ==> post.credits[..i] == post.credits;
      var countDown1 := post.availableCount == attempt.pre.availableCount - 1;
      var quotaUp := e.usage.value >= 100 || e.usage.value > attempt.pre.weeklyPct;
      state := Done;
      pendingHistory := Some(ResetRecord(
        e.later, settings.authId, attempt.target, targetGone && countDown1 && quotaUp,
        attempt.pre.weeklyPct, e.usage.value, attempt.pre.availableCount, post.availableCount));
    }

    method Step(e: M.Env) returns (wake: Time)
      modifies this
      ensures M.Ticked(View(), wake) == M.Step(settings, old(View()), e)
    {
      match state {
        case Idle => wake := StepIdle(e);
        case Armed => wake := StepArmed(e);
        case Confirming => wake := StepConfirming(e);
        case Resetting => wake := StepResetting(e);
        case Verifying => wake := StepVerifying(e);
        case Done => wake := NO_TIME;
      }
    }

    method Reset()
      modifies this
      ensures View() == M.ResetCycle(old(View()))
    {
      state := Idle;
      attempt := NO_ATTEMPT;
      verifyDue := NO_TIME;
      nextWake := NO_TIME;
      scheduledCreditID := "";
      manualReset := false;
    }

    method StepAndSettle(e: M.Env) returns (wake: Time)
      modifies this
      ensures M.Ticked(View(), wake) == M.StepAndSettle(settings, old(View()), e)
    {
      wake := Step(e);
      if wake == NO_TIME && state.Done? {
        Reset();
        wake := e.later + settings.refreshInterval;
      }
      nextWake := wake;
    }

    method TakePendingHistory() returns (rec: Option<ResetRecord>)
      modifies this
      ensures rec == old(pendingHistory)
      ensures View() == old(View()).(pending := None)
    {
      rec := pendingHistory;
      pendingHistory := None;
    }
  }
}
