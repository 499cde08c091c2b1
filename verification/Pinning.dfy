// No substitution and never early: an automatic attempt redeems the credit that was
// pinned when the account armed, inside that credit's own trigger window.

module Pinning {
  import opened Models
  import opened CreditSelection
  import opened Machine
  import opened Account

  /** The attempt's own snapshot lists its target with an expiry E such that the attempt
      started in [E - lead, E). */
  ghost predicate InWindow(p: Settings, t: ResetAttempt) {
    exists c :: c in t.pre.credits && c.id == t.target && c.status == "available"
             && TriggerTime(p, c) <= t.startedAt < c.expiresAt
  }

  /** The attempt's target heads its own snapshot's selection. */
  ghost predicate Soonest(t: ResetAttempt) {
    var avail := Select(t.pre.credits, t.startedAt);
    avail != [] && avail[0].id == t.target
  }

  ghost predicate Pinned(p: Settings, a: Account) {
    var f := a.fsm;
    && (f.manual ==> f.scheduled == "")
    && (f.state.Idle? || f.state.Armed? ==> !f.manual)
    && (f.state.Armed? || f.state.Confirming? ==> f.manual || f.scheduled == a.pinned)
    && (f.state.Resetting? || f.state.Verifying? ==>
          if f.manual then Soonest(f.attempt)
          else f.attempt.target == f.scheduled == a.pinned && InWindow(p, f.attempt))
  }

  lemma ConfirmStartsInWindow(p: Settings, f: Fsm, e: Env)
    requires f.state.Confirming? && Step(p, f, e).fsm.state.Resetting?
    ensures var g := Step(p, f, e).fsm;
      && g.attempt.startedAt == e.now && g.attempt.redeemId == e.freshId
      && if f.manual then Soonest(g.attempt)
         else g.attempt.target == f.scheduled && InWindow(p, g.attempt)
  {
    SelectIsSoonestFirst(e.list.value.credits, e.now);
    if !f.manual {
      var c := ConfirmTarget(f, Select(e.list.value.credits, e.now)).value;
      assert c in Step(p, f, e).fsm.attempt.pre.credits;
    }
  }

  lemma ConfirmKeepsPinned(p: Settings, a: Account, e: Env, g: Fsm, phase: Phase)
    requires Pinned(p, a) && a.fsm.state.Confirming? && Outcome(p, a, e, g)
    ensures Pinned(p, Called(a, e, g, phase))
  {
    if Step(p, a.fsm, e).fsm.state.Resetting? { ConfirmStartsInWindow(p, a.fsm, e); }
  }

  lemma OtherKeepsPinned(p: Settings, a: Account, e: Env, g: Fsm, phase: Phase)
    requires Pinned(p, a) && !a.fsm.state.Confirming? && Outcome(p, a, e, g)
    ensures Pinned(p, Called(a, e, g, phase))
  {
  }

  lemma CalledKeepsPinned(p: Settings, a: Account, e: Env, g: Fsm, phase: Phase)
    requires Pinned(p, a) && Outcome(p, a, e, g)
    ensures Pinned(p, Called(a, e, g, phase))
  {
    if a.fsm.state.Confirming? { ConfirmKeepsPinned(p, a, e, g, phase); }
    else { OtherKeepsPinned(p, a, e, g, phase); }
  }

  lemma ApplyKeepsPinned(p: Settings, a: Account, act: Action)
    requires Pinned(p, a) && Enabled(a, act)
    ensures Pinned(p, Apply(p, a, act))
  {
    match act
    case Tick(e) =>
      CalledKeepsPinned(p, a, e, StepAndSettle(p, a.fsm, e).fsm, Unsynced);
    case TickPanic(e, InLog) =>
      CalledKeepsPinned(p, a, e, PanickedInLog(p, a.fsm, e), Recovering);
    case _ =>
  }

  /** In every reachable state with an attempt in flight: an automatic attempt's target is
      the credit pinned at the last arming and the attempt started inside that credit's
      window; a manual attempt's target was the soonest credit when it started. */
  lemma {:induction false} NoSubstitution(p: Settings, start: Time, acts: seq<Action>)
    requires start > 0 && Legal(p, Fresh(start), acts)
    ensures Pinned(p, Run(p, Fresh(start), acts))
  {
    if acts == [] {
    } else {
      NoSubstitution(p, start, acts[..|acts| - 1]);
      ApplyKeepsPinned(p, Run(p, Fresh(start), acts[..|acts| - 1]), acts[|acts| - 1]);
    }
  }

  /** Arming pins a credit that expires first, and never later than one refresh interval
      before its trigger time unless that moment has already passed. */
  lemma ArmingPinsSoonest(p: Settings, a: Account, e: Env)
    requires a.fsm.state.Idle? && Due(a, e) && Apply(p, a, Tick(e)).fsm.state.Armed?
    ensures e.list.Some?
    ensures exists c ::
      && c in e.list.value.credits && Selectable(c, e.now) && c.expiresAt != NO_TIME
      && c.id == Apply(p, a, Tick(e)).pinned
      && (forall d :: d in e.list.value.credits && Selectable(d, e.now) ==> !Before(d, c))
      && e.now >= TriggerTime(p, c) - p.refreshInterval
      && Apply(p, a, Tick(e)).fsm.nextWake == (if e.now < TriggerTime(p, c) then TriggerTime(p, c) else e.now)
  {
    var avail := Select(e.list.value.credits, e.now);
    SelectIsSoonestFirst(e.list.value.credits, e.now);
    var c := avail[0];
    forall d | d in e.list.value.credits && Selectable(d, e.now) ensures !Before(d, c) {
      assert d in avail;
    }
  }

  /** The first of the rows with one id stands no later than any other of them. */
  lemma FindIsSoonest(avail: seq<Credit>, id: string, c: Credit)
    requires Sorted(avail) && c in avail && c.id == id && c.expiresAt != NO_TIME
    requires forall d :: d in avail && d.id == id ==> !Before(d, c)
    ensures FindCredit(avail, id).Some? && FindCredit(avail, id).value.expiresAt == c.expiresAt
    decreases |avail|
  {
    if avail[0].id != id {
      assert c in avail[1..];
      FindIsSoonest(avail[1..], id, c);
    } else {
      assert avail[0] in avail;
      assert c == avail[0] || !Before(c, avail[0]) by {
        var k :| 0 <= k < |avail| && avail[k] == c;
      }
    }
  }

  /** An armed account woken early by a check, whose pinned credit is still listed and not
      yet due, is armed again after two ticks, waiting for exactly the trigger time, with no
      POST.  When several rows carry the pinned id, the soonest of them decides. */
  lemma EarlyWakeRearms(p: Settings, a: Account, c: Credit, e1: Env, e2: Env)
    requires Pinned(p, a) && a.fsm.state.Armed? && Due(a, e1)
    requires var b := Apply(p, Apply(p, a, Tick(e1)), Sync); Due(b, e2)
    requires e2.list.Some? && c in e2.list.value.credits && c.id == a.pinned != "" && Selectable(c, e2.now)
    requires forall d :: d in e2.list.value.credits && d.id == c.id && Selectable(d, e2.now) ==> !Before(d, c)
    requires c.expiresAt != NO_TIME && e2.now < TriggerTime(p, c)
    ensures var b := Apply(p, Apply(p, Apply(p, a, Tick(e1)), Sync), Tick(e2));
      b.fsm.state.Armed? && b.fsm.nextWake == TriggerTime(p, c) && b.posts == a.posts && b.pinned == a.pinned
  {
    SelectIsSoonestFirst(e2.list.value.credits, e2.now);
    FindIsSoonest(Select(e2.list.value.credits, e2.now), c.id, c);
  }
}
