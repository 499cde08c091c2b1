// How far apart the POSTs of one attempt are, and how long after the accepted one the
// verification comes.

module Spacing {
  import opened Models
  import opened Retry
  import opened Machine
  import opened Account
  import opened Attempts

  /** Each retry waits out the delay of the call before it. */
  ghost predicate Spaced(posts: seq<Post>) {
    forall i :: 0 < i < |posts| && posts[i].redeemId == posts[i - 1].redeemId ==>
      posts[i].at >= posts[i - 1].at + Backoff(posts[i - 1].nth)
  }

  /** A panic after the consume call returned: in the log callback or in the state sync.
      The recovery then overwrites the wake that carried the retry delay. */
  predicate LatePanic(act: Action) {
    (act.TickPanic? && act.point.InLog?) || act.SyncPanic?
  }

  predicate Gentle(acts: seq<Action>) {
    forall i :: 0 <= i < |acts| ==> !LatePanic(acts[i])
  }

  ghost predicate Paced(p: Settings, a: Account) {
    && Spaced(a.posts)
    && (a.posts != [] ==> a.posts[|a.posts| - 1].at <= a.clock)
    && (a.fsm.state.Resetting? && a.fsm.attempt.attempt > 0 ==>
          if a.phase.Recovering? then a.fsm.attempt.nextRetryAt <= a.clock || p.refreshInterval >= LONGEST_DELAY
          else a.fsm.attempt.nextRetryAt <= a.fsm.nextWake)
    && (a.fsm.state.Verifying? && !a.phase.Recovering? ==> a.fsm.verifyDue <= a.fsm.nextWake)
  }

  /** A completed tick leaves no wake before the delay it has just set. */
  ghost predicate WaitsOut(g: Fsm) {
    && (g.state.Resetting? && g.attempt.attempt > 0 ==> g.attempt.nextRetryAt <= g.nextWake)
    && (g.state.Verifying? ==> g.verifyDue <= g.nextWake)
  }

  lemma TickWaitsOut(p: Settings, f: Fsm, e: Env)
    ensures WaitsOut(StepAndSettle(p, f, e).fsm)
  {
  }

  lemma CalledKeepsPaced(p: Settings, a: Account, e: Env, g: Fsm)
    requires Attempted(a) && Paced(p, a) && Due(a, e) && Edge(a.fsm, e, g) && WaitsOut(g)
    ensures Paced(p, Called(a, e, g, Unsynced))
  {
  }

  lemma TickKeepsPaced(p: Settings, a: Account, e: Env)
    requires Attempted(a) && Paced(p, a) && Due(a, e)
    ensures Paced(p, Apply(p, a, Tick(e)))
  {
    var g := StepAndSettle(p, a.fsm, e).fsm;
    OutcomeIsEdge(p, a, e, g);
    TickWaitsOut(p, a.fsm, e);
    CalledKeepsPaced(p, a, e, g);
  }

  lemma LatePanicKeepsPaced(p: Settings, a: Account, act: Action)
    requires Attempted(a) && Paced(p, a) && Enabled(a, act)
    requires LatePanic(act) && p.refreshInterval >= LONGEST_DELAY
    ensures Paced(p, Apply(p, a, act))
  {
  }

  lemma OtherKeepsPaced(p: Settings, a: Account, act: Action)
    requires Attempted(a) && Paced(p, a) && Enabled(a, act) && Normalized(p)
    requires !act.Tick? && !LatePanic(act)
    ensures Paced(p, Apply(p, a, act))
  {
  }

  lemma {:induction false} RunKeepsPaced(p: Settings, start: Time, acts: seq<Action>)
    requires start > 0 && Normalized(p) && Legal(p, Fresh(start), acts)
    requires p.refreshInterval >= LONGEST_DELAY || Gentle(acts)
    ensures Paced(p, Run(p, Fresh(start), acts))
  {
    if acts == [] {
    } else {
      var init, act := acts[..|acts| - 1], acts[|acts| - 1];
      RunKeepsPaced(p, start, init);
      RunKeepsAttempted(p, start, init);
      var a := Run(p, Fresh(start), init);
      if act.Tick? { TickKeepsPaced(p, a, act.e); }
      else if LatePanic(act) { LatePanicKeepsPaced(p, a, act); }
      else { OtherKeepsPaced(p, a, act); }
    }
  }

  /** Without late panics the retry delays hold for every configuration, under every
      manual trigger, credential failure and panicking call. */
  lemma RetriesAreSpaced(p: Settings, start: Time, acts: seq<Action>)
    requires start > 0 && Normalized(p) && Legal(p, Fresh(start), acts) && Gentle(acts)
    ensures Spaced(Run(p, Fresh(start), acts).posts)
  {
    RunKeepsPaced(p, start, acts);
  }

  // ---------- the delay before verification ----------

  ghost predicate VerifyPaced(a: Account) {
    && (a.posts != [] ==> a.posts[|a.posts| - 1].at <= a.clock)
    && (a.fsm.state.Verifying? && !a.phase.Recovering? ==> a.fsm.verifyDue <= a.fsm.nextWake)
  }

  lemma TickKeepsVerifyPaced(p: Settings, a: Account, e: Env)
    requires VerifyPaced(a) && Due(a, e)
    ensures VerifyPaced(Apply(p, a, Tick(e)))
  {
    TickWaitsOut(p, a.fsm, e);
  }

  lemma OtherKeepsVerifyPaced(p: Settings, a: Account, act: Action)
    requires VerifyPaced(a) && Attempted(a) && Enabled(a, act) && Normalized(p) && !act.Tick?
    ensures VerifyPaced(Apply(p, a, act))
  {
  }

  lemma {:induction false} RunKeepsVerifyPaced(p: Settings, start: Time, acts: seq<Action>)
    requires start > 0 && Normalized(p) && Legal(p, Fresh(start), acts)
    ensures VerifyPaced(Run(p, Fresh(start), acts))
  {
    if acts == [] {
    } else {
      RunKeepsVerifyPaced(p, start, acts[..|acts| - 1]);
      RunKeepsAttempted(p, start, acts[..|acts| - 1]);
      var a, act := Run(p, Fresh(start), acts[..|acts| - 1]), acts[|acts| - 1];
      if act.Tick? { TickKeepsVerifyPaced(p, a, act.e); } else { OtherKeepsVerifyPaced(p, a, act); }
    }
  }

  /** A verification never starts earlier than one minute after its accepted POST was
      sent, under every trigger, failure and panic. */
  lemma VerificationWaits(p: Settings, start: Time, acts: seq<Action>, e: Env)
    requires start > 0 && Normalized(p) && Legal(p, Fresh(start), acts + [Tick(e)])
    requires Run(p, Fresh(start), acts).fsm.state.Verifying?
    ensures var a := Run(p, Fresh(start), acts);
      && a.posts != []
      && var last := a.posts[|a.posts| - 1];
      && last.redeemId == a.fsm.attempt.redeemId && last.target == a.fsm.attempt.target
      && Classify(last.outcome) == Success
      && e.now >= last.at + VERIFY_DELAY
  {
    assert (acts + [Tick(e)])[..|acts|] == acts;
    RunKeepsVerifyPaced(p, start, acts);
    RunKeepsAttempted(p, start, acts);
  }

  // ---------- where the retry delay is lost ----------

  function ConfirmEnv(now: Time): Env {
    Env(now, now, Some(Snapshot(1, [Credit("c", "available", NO_TIME)], -1)), Some(15), NoAnswer, "key")
  }

  function FailEnv(now: Time): Env {
    Env(now, now, None, None, NoAnswer, "spare")
  }

  /** acts has sent n POSTs of one attempt, all of them lost, the last at time at. */
  ghost predicate AtRetry(p: Settings, start: Time, acts: seq<Action>, n: nat, at: Time) {
    && Legal(p, Fresh(start), acts)
    && var a := Run(p, Fresh(start), acts);
    && a.phase.Ready? && a.fsm.state.Resetting? && a.fsm.attempt.attempt == n
    && a.fsm.attempt.redeemId == "key" && a.minted.Keys == {"key"}
    && a.clock == at && |a.posts| == n
    && a.fsm.nextWake == (if n == 0 then at else at + Backoff(n))
  }

  lemma ConfirmEnvSelects(now: Time)
    ensures var credits := ConfirmEnv(now).list.value.credits; CreditSelection.Select(credits, now) == credits
  {
    var credits := ConfirmEnv(now).list.value.credits;
    assert credits[..0] == [] && [] + [credits[0]] == credits;
    assert CreditSelection.Filter(CreditSelection.SelectableAt(now), credits) == credits;
    CreditSelection.StableSortOfTied(credits, credits[0]);
  }

  lemma ForcedAttempt(p: Settings, f: Fsm, now: Time)
    requires f.state.Confirming? && f.manual && now > 0
    ensures var g := StepAndSettle(p, f, ConfirmEnv(now)).fsm;
      g.state.Resetting? && g.attempt.attempt == 0 && g.attempt.redeemId == "key" && g.nextWake == now
  {
    ConfirmEnvSelects(now);
  }

  lemma ForcedConfirm(p: Settings, start: Time) returns (acts: seq<Action>)
    requires start > 0
    ensures AtRetry(p, start, acts, 0, start)
  {
    var forced := [] + [Force(start)];
    var ticked := forced + [Tick(ConfirmEnv(start))];
    RunSnoc(p, Fresh(start), [], Force(start));
    RunSnoc(p, Fresh(start), forced, Tick(ConfirmEnv(start)));
    RunSnoc(p, Fresh(start), ticked, Sync);
    ForcedAttempt(p, Run(p, Fresh(start), forced).fsm, start);
    acts := ticked + [Sync];
  }

  lemma {:induction false} LoseRequests(p: Settings, start: Time, n: nat) returns (acts: seq<Action>, at: Time)
    requires start > 0 && n <= MAX_RETRIES
    ensures AtRetry(p, start, acts, n, at)
  {
    if n == 0 {
      acts := ForcedConfirm(p, start);
      at := start;
    } else {
      var before, sent := LoseRequests(p, start, n - 1);
      at := Run(p, Fresh(start), before).fsm.nextWake;
      var e := FailEnv(at);
      RunSnoc(p, Fresh(start), before, Tick(e));
      RunSnoc(p, Fresh(start), before + [Tick(e)], Sync);
      acts := before + [Tick(e)] + [Sync];
    }
  }

  /** Four lost requests, a fifth whose state sync panics, the recovery, and the sixth
      request one refresh interval later, inside the 30-minute delay. */
  lemma LatePanicLosesDelay(p: Settings, start: Time) returns (acts: seq<Action>)
    requires start > 0 && Normalized(p) && p.refreshInterval < LONGEST_DELAY
    ensures Legal(p, Fresh(start), acts) && !Spaced(Run(p, Fresh(start), acts).posts)
  {
    var four, sent := LoseRequests(p, start, 4);
    var a4 := Run(p, Fresh(start), four);
    var t5 := a4.fsm.nextWake;
    var t6 := t5 + p.refreshInterval;
    RunSnoc(p, Fresh(start), four, Tick(FailEnv(t5)));
    RunSnoc(p, Fresh(start), four + [Tick(FailEnv(t5))], SyncPanic(true));
    RunSnoc(p, Fresh(start), four + [Tick(FailEnv(t5))] + [SyncPanic(true)], Recover(t5));
    var recovered := four + [Tick(FailEnv(t5))] + [SyncPanic(true)] + [Recover(t5)];
    RunSnoc(p, Fresh(start), recovered, Tick(FailEnv(t6)));
    acts := recovered + [Tick(FailEnv(t6))];
    var posts := Run(p, Fresh(start), acts).posts;
    assert |posts| == 6 && posts[5].redeemId == posts[4].redeemId && posts[4].nth == 5;
    assert posts[5].at == posts[4].at + p.refreshInterval;
  }

  /** The promise that retries are spaced by the fixed delays, exactly: it survives every
      panic if and only if the configured refresh interval is at least 30 minutes. */
  lemma SpacingNeedsLongInterval(p: Settings, start: Time)
    requires start > 0 && Normalized(p)
    ensures p.refreshInterval >= LONGEST_DELAY <==>
      forall acts :: Legal(p, Fresh(start), acts) ==> Spaced(Run(p, Fresh(start), acts).posts)
  {
    if p.refreshInterval >= LONGEST_DELAY {
      forall acts | Legal(p, Fresh(start), acts) ensures Spaced(Run(p, Fresh(start), acts).posts) {
        RunKeepsPaced(p, start, acts);
      }
    } else {
      var acts := LatePanicLosesDelay(p, start);
    }
  }
}
