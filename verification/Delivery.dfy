// From a verification to the history: when each record is delivered exactly once, in order.

module Delivery {
  import opened Models
  import opened Retry
  import opened Machine
  import opened Account

  function RecordsOf(vs: seq<Verification>): seq<ResetRecord> {
    if vs == [] then [] else RecordsOf(vs[..|vs| - 1]) + [vs[|vs| - 1].record]
  }

  /** The tick completes a verification while an earlier record is still undelivered. */
  predicate Overwrites(a: Account, act: Action) {
    act.Tick? && Fetches(a.fsm, act.e) && a.fsm.pending.Some?
  }

  /** The log call that reports a verification panics, and the record is never stored. */
  predicate CutsOff(a: Account, act: Action) {
    act.TickPanic? && act.point.InLog? && Fetches(a.fsm, act.e)
  }

  function Overwritten(p: Settings, a: Account, acts: seq<Action>): nat {
    if acts == [] then 0
    else
      var init := acts[..|acts| - 1];
      Overwritten(p, a, init) + if Overwrites(Run(p, a, init), acts[|acts| - 1]) then 1 else 0
  }

  function CutOff(p: Settings, a: Account, acts: seq<Action>): nat {
    if acts == [] then 0
    else
      var init := acts[..|acts| - 1];
      CutOff(p, a, init) + if CutsOff(Run(p, a, init), acts[|acts| - 1]) then 1 else 0
  }

  /** Everything verified is delivered or waiting, in order. */
  ghost predicate AllAccounted(a: Account) {
    a.delivered + PendingSeq(a.fsm) == RecordsOf(a.verified)
  }

  lemma TickAccounts(p: Settings, a: Account, e: Env)
    ensures var b := Apply(p, a, Tick(e));
      && b.delivered == a.delivered
      && if Fetches(a.fsm, e)
         then b.fsm.pending == Some(Record(p, a.fsm, e)) && b.verified == a.verified + [Verify(p, a.fsm, e)]
         else b.fsm.pending == a.fsm.pending && b.verified == a.verified
  {
  }

  lemma LogPanicAccounts(p: Settings, a: Account, e: Env)
    ensures var b := Apply(p, a, TickPanic(e, InLog));
      && b.delivered == a.delivered && b.fsm.pending == a.fsm.pending
      && b.verified == if Fetches(a.fsm, e) then a.verified + [Verify(p, a.fsm, e)] else a.verified
  {
  }

  lemma RecordsSnoc(vs: seq<Verification>, v: Verification)
    ensures RecordsOf(vs + [v]) == RecordsOf(vs) + [v.record]
  {
    assert (vs + [v])[..|vs|] == vs;
  }

  lemma OthersAccount(p: Settings, a: Account, act: Action)
    requires !act.Tick? && !(act.TickPanic? && act.point.InLog?)
    ensures var b := Apply(p, a, act);
      b.verified == a.verified && b.delivered + PendingSeq(b.fsm) == a.delivered + PendingSeq(a.fsm)
  {
  }

  function Loses(a: Account, act: Action): nat {
    if Overwrites(a, act) || CutsOff(a, act) then 1 else 0
  }

  lemma StepBalances(p: Settings, a: Account, act: Action)
    ensures var b := Apply(p, a, act);
      && |b.delivered| + |PendingSeq(b.fsm)| + Loses(a, act) + |RecordsOf(a.verified)|
           == |a.delivered| + |PendingSeq(a.fsm)| + |RecordsOf(b.verified)|
      && (Loses(a, act) == 0 && AllAccounted(a) ==> AllAccounted(b))
  {
    if act.Tick? {
      TickAccounts(p, a, act.e);
      if Fetches(a.fsm, act.e) { RecordsSnoc(a.verified, Verify(p, a.fsm, act.e)); }
    } else if act.TickPanic? && act.point.InLog? {
      LogPanicAccounts(p, a, act.e);
      if Fetches(a.fsm, act.e) { RecordsSnoc(a.verified, Verify(p, a.fsm, act.e)); }
    } else {
      OthersAccount(p, a, act);
      var b := Apply(p, a, act);
      assert |b.delivered + PendingSeq(b.fsm)| == |a.delivered + PendingSeq(a.fsm)|;
    }
  }

  /** Conservation: every verification is delivered, waiting, overwritten or cut off. */
  lemma {:induction false} RecordsBalance(p: Settings, start: Time, acts: seq<Action>)
    ensures var a := Run(p, Fresh(start), acts);
      var lost := Overwritten(p, Fresh(start), acts) + CutOff(p, Fresh(start), acts);
      && |a.delivered| + |PendingSeq(a.fsm)| + lost == |RecordsOf(a.verified)|
      && (lost == 0 ==> AllAccounted(a))
  {
    if acts == [] {
    } else {
      var init, act := acts[..|acts| - 1], acts[|acts| - 1];
      RecordsBalance(p, start, init);
      StepBalances(p, Run(p, Fresh(start), init), act);
    }
  }

  /** Every verification is delivered exactly once and in order, the last one possibly still
      waiting, if and only if no verification completed while another's record waited and no
      log call panicked on a verification. */
  lemma DeliveredExactlyOnce(p: Settings, start: Time, acts: seq<Action>)
    ensures AllAccounted(Run(p, Fresh(start), acts)) <==>
      Overwritten(p, Fresh(start), acts) == 0 && CutOff(p, Fresh(start), acts) == 0
  {
    RecordsBalance(p, start, acts);
  }

  lemma {:induction false} LossesOnlyGrow(p: Settings, start: Time, acts: seq<Action>, more: seq<Action>)
    ensures Overwritten(p, Fresh(start), acts) <= Overwritten(p, Fresh(start), acts + more)
    ensures CutOff(p, Fresh(start), acts) <= CutOff(p, Fresh(start), acts + more)
  {
    if more == [] {
      assert acts + more == acts;
    } else {
      LossesOnlyGrow(p, start, acts, more[..|more| - 1]);
      assert (acts + more)[..|acts + more| - 1] == acts + more[..|more| - 1];
    }
  }

  /** What is lost is lost for good: nothing that happens later makes up for it. */
  lemma LossIsFinal(p: Settings, start: Time, acts: seq<Action>, more: seq<Action>)
    requires !AllAccounted(Run(p, Fresh(start), acts))
    ensures !AllAccounted(Run(p, Fresh(start), acts + more))
  {
    DeliveredExactlyOnce(p, start, acts);
    DeliveredExactlyOnce(p, start, acts + more);
    LossesOnlyGrow(p, start, acts, more);
  }

  ghost predicate WaitsOnlyForSync(a: Account) {
    !a.phase.Unsynced? ==> a.fsm.pending.None?
  }

  /** Nothing is overwritten unless a state sync panics before it takes the record. */
  lemma {:induction false} OnlyEarlySyncPanicsOverwrite(p: Settings, start: Time, acts: seq<Action>)
    requires Legal(p, Fresh(start), acts)
    requires forall i :: 0 <= i < |acts| ==> acts[i] != SyncPanic(false)
    ensures WaitsOnlyForSync(Run(p, Fresh(start), acts)) && Overwritten(p, Fresh(start), acts) == 0
  {
    if acts == [] {
    } else {
      OnlyEarlySyncPanicsOverwrite(p, start, acts[..|acts| - 1]);
    }
  }

  lemma {:induction false} OnlyLogPanicsCutOff(p: Settings, start: Time, acts: seq<Action>)
    requires forall i :: 0 <= i < |acts| ==> !(acts[i].TickPanic? && acts[i].point.InLog?)
    ensures CutOff(p, Fresh(start), acts) == 0
  {
    if acts == [] {
    } else {
      OnlyLogPanicsCutOff(p, start, acts[..|acts| - 1]);
    }
  }

  /** Without a log panic and without a sync that panics before it takes the record, every
      record is delivered as soon as its state sync has happened. */
  lemma OnlyLatePanicsLose(p: Settings, start: Time, acts: seq<Action>)
    requires Legal(p, Fresh(start), acts)
    requires forall i :: 0 <= i < |acts| ==>
      acts[i] != SyncPanic(false) && !(acts[i].TickPanic? && acts[i].point.InLog?)
    ensures var a := Run(p, Fresh(start), acts);
      AllAccounted(a) && (!a.phase.Unsynced? ==> a.delivered == RecordsOf(a.verified))
  {
    OnlyEarlySyncPanicsOverwrite(p, start, acts);
    OnlyLogPanicsCutOff(p, start, acts);
    DeliveredExactlyOnce(p, start, acts);
  }

  // ---------- a lost record ----------

  function AnswersAt(now: Time, id: string): Env {
    Env(now, now, Some(Snapshot(1, [Credit("c", "available", NO_TIME)], -1)), Some(15), Response("reset"), id)
  }

  /** A tick whose state sync panics before it takes the record, and the recovery. */
  function Bumpy(e: Env): seq<Action> { [Tick(e)] + [SyncPanic(false)] + [Recover(e.later)] }

  lemma OverwrittenSnoc(p: Settings, a: Account, acts: seq<Action>, act: Action)
    ensures Overwritten(p, a, acts + [act]) == Overwritten(p, a, acts) + if Overwrites(Run(p, a, acts), act) then 1 else 0
  {
    assert (acts + [act])[..|acts|] == acts;
  }

  lemma BumpyTick(p: Settings, start: Time, acts: seq<Action>, e: Env)
    requires start > 0 && Legal(p, Fresh(start), acts) && Due(Run(p, Fresh(start), acts), e)
    ensures var a, b := Run(p, Fresh(start), acts), Run(p, Fresh(start), acts + Bumpy(e));
      && Legal(p, Fresh(start), acts + Bumpy(e))
      && b == Apply(p, a, Tick(e)).(fsm := b.fsm, phase := Ready)
      && b.fsm == SetNextWake(StepAndSettle(p, a.fsm, e).fsm, e.later + p.refreshInterval)
      && Overwritten(p, Fresh(start), acts + Bumpy(e)) ==
           Overwritten(p, Fresh(start), acts) + (if Overwrites(a, Tick(e)) then 1 else 0)
  {
    var a1, a2 := acts + [Tick(e)], acts + [Tick(e)] + [SyncPanic(false)];
    RunSnoc(p, Fresh(start), acts, Tick(e));
    RunSnoc(p, Fresh(start), a1, SyncPanic(false));
    RunSnoc(p, Fresh(start), a2, Recover(e.later));
    assert acts + Bumpy(e) == a2 + [Recover(e.later)];
    OverwrittenSnoc(p, Fresh(start), acts, Tick(e));
    OverwrittenSnoc(p, Fresh(start), a1, SyncPanic(false));
    OverwrittenSnoc(p, Fresh(start), a2, Recover(e.later));
  }

  /** acts leads to state st between two ticks, the next one at time wake. */
  ghost predicate At(p: Settings, start: Time, acts: seq<Action>, st: State, wake: Time, waiting: bool) {
    && Legal(p, Fresh(start), acts)
    && var a := Run(p, Fresh(start), acts);
    && a.phase.Ready? && a.fsm.state == st && 0 < a.clock <= wake && a.fsm.nextWake == wake
    && (a.fsm.pending.Some? <==> waiting) && (st.Confirming? ==> a.fsm.manual)
  }

  lemma ManualConfirm(p: Settings, f: Fsm, now: Time, id: string)
    requires f.state.Confirming? && f.manual && now > 0
    ensures var g := StepAndSettle(p, f, AnswersAt(now, id)).fsm;
      g.state.Resetting? && g.pending == f.pending && g.attempt.redeemId == id && g.nextWake == now
  {
    CreditSelection.NeverExpiringAreSelected([Credit("c", "available", NO_TIME)], now);
  }

  lemma ConfirmStage(p: Settings, start: Time, acts: seq<Action>, wake: Time, waiting: bool, id: string)
    returns (next: seq<Action>)
    requires start > 0 && Normalized(p) && At(p, start, acts, Confirming, wake, waiting)
    requires id != "" && id !in Run(p, Fresh(start), acts).minted
    ensures At(p, start, next, Resetting, wake + p.refreshInterval, waiting)
    ensures Overwritten(p, Fresh(start), next) == Overwritten(p, Fresh(start), acts)
    ensures Run(p, Fresh(start), next).minted.Keys == Run(p, Fresh(start), acts).minted.Keys + {id}
  {
    next := acts + Bumpy(AnswersAt(wake, id));
    BumpyTick(p, start, acts, AnswersAt(wake, id));
    ManualConfirm(p, Run(p, Fresh(start), acts).fsm, wake, id);
  }

  lemma LaterStage(p: Settings, start: Time, acts: seq<Action>, st: State, wake: Time, waiting: bool, spare: string)
    returns (next: seq<Action>)
    requires start > 0 && Normalized(p) && At(p, start, acts, st, wake, waiting) && (st.Resetting? || st.Verifying?)
    requires spare != "" && spare !in Run(p, Fresh(start), acts).minted
    ensures At(p, start, next, if st.Resetting? then Verifying else Idle, wake + p.refreshInterval, waiting || st.Verifying?)
    ensures Overwritten(p, Fresh(start), next) ==
           Overwritten(p, Fresh(start), acts) + (if st.Verifying? && waiting then 1 else 0)
    ensures Run(p, Fresh(start), next).minted == Run(p, Fresh(start), acts).minted
  {
    next := acts + Bumpy(AnswersAt(wake, spare));
    BumpyTick(p, start, acts, AnswersAt(wake, spare));
  }

  lemma ForceStage(p: Settings, start: Time, acts: seq<Action>, wake: Time, waiting: bool)
    returns (next: seq<Action>)
    requires At(p, start, acts, Idle, wake, waiting)
    ensures At(p, start, next, Confirming, wake, waiting)
    ensures Overwritten(p, Fresh(start), next) == Overwritten(p, Fresh(start), acts)
    ensures Run(p, Fresh(start), next).minted == Run(p, Fresh(start), acts).minted
  {
    next := acts + [Force(wake)];
    RunSnoc(p, Fresh(start), acts, Force(wake));
    OverwrittenSnoc(p, Fresh(start), acts, Force(wake));
  }

  /** One manual cycle in which no sync takes the record. */
  lemma BumpyCycle(p: Settings, start: Time, acts: seq<Action>, wake: Time, waiting: bool, id: string, spare: string)
    returns (acts': seq<Action>)
    requires start > 0 && Normalized(p) && At(p, start, acts, Idle, wake, waiting)
    requires id != "" && spare != "" && id != spare
    requires id !in Run(p, Fresh(start), acts).minted && spare !in Run(p, Fresh(start), acts).minted
    ensures At(p, start, acts', Idle, wake + 3 * p.refreshInterval, true)
    ensures Overwritten(p, Fresh(start), acts') == Overwritten(p, Fresh(start), acts) + (if waiting then 1 else 0)
    ensures Run(p, Fresh(start), acts').minted.Keys == Run(p, Fresh(start), acts).minted.Keys + {id}
  {
    var r := p.refreshInterval;
    var forced := ForceStage(p, start, acts, wake, waiting);
    var confirmed := ConfirmStage(p, start, forced, wake, waiting, id);
    var accepted := LaterStage(p, start, confirmed, Resetting, wake + r, waiting, spare);
    acts' := LaterStage(p, start, accepted, Verifying, wake + r + r, waiting, spare);
  }

  /** Two cycles whose syncs all panic too early: the first record is gone for good. */
  lemma EarlySyncPanicsLoseRecord(p: Settings, start: Time) returns (acts: seq<Action>)
    requires start > 0 && Normalized(p)
    ensures Legal(p, Fresh(start), acts) && Overwritten(p, Fresh(start), acts) == 1
    ensures !AllAccounted(Run(p, Fresh(start), acts))
  {
    acts := BumpyCycle(p, start, [], start, false, "one", "spare");
    acts := BumpyCycle(p, start, acts, start + 3 * p.refreshInterval, true, "two", "spare");
    DeliveredExactlyOnce(p, start, acts);
  }

  // ---------- a record cut off ----------

  /** A tick and its state sync. */
  function Clean(e: Env): seq<Action> { [Tick(e)] + [Sync] }

  lemma CleanTick(p: Settings, start: Time, acts: seq<Action>, e: Env)
    requires start > 0 && Legal(p, Fresh(start), acts) && Due(Run(p, Fresh(start), acts), e)
    ensures Legal(p, Fresh(start), acts + Clean(e))
    ensures Run(p, Fresh(start), acts + Clean(e)) == Apply(p, Apply(p, Run(p, Fresh(start), acts), Tick(e)), Sync)
  {
    RunSnoc(p, Fresh(start), acts, Tick(e));
    RunSnoc(p, Fresh(start), acts + [Tick(e)], Sync);
    assert acts + Clean(e) == acts + [Tick(e)] + [Sync];
  }

  /** acts leads to state st between two ticks, with no verification yet. */
  ghost predicate CleanAt(p: Settings, start: Time, acts: seq<Action>, st: State, wake: Time) {
    && Legal(p, Fresh(start), acts)
    && (forall i :: 0 <= i < |acts| ==> !acts[i].SyncPanic? && !acts[i].TickPanic?)
    && var a := Run(p, Fresh(start), acts);
    && a.phase.Ready? && a.fsm.state == st && 0 < a.clock <= wake && a.fsm.nextWake == wake
    && a.verified == [] && a.delivered == [] && a.fsm.pending.None?
    && if st.Confirming? then a.fsm.manual && a.minted == map[] else a.minted.Keys == {"key"}
  }

  lemma ForcedClean(p: Settings, start: Time)
    requires start > 0
    ensures CleanAt(p, start, [Force(start)], Confirming, start)
  {
    RunSnoc(p, Fresh(start), [], Force(start));
    assert [] + [Force(start)] == [Force(start)];
    assert Run(p, Fresh(start), [Force(start)]) == Apply(p, Fresh(start), Force(start));
  }

  lemma ConfirmsFirstKey(p: Settings, a: Account, wake: Time)
    requires a.fsm.state.Confirming? && a.fsm.manual && a.fsm.pending.None? && a.minted == map[] && wake > 0
    ensures var b := Apply(p, Apply(p, a, Tick(AnswersAt(wake, "key"))), Sync);
      && b.phase.Ready? && b.fsm.state.Resetting? && b.clock == b.fsm.nextWake == wake
      && b.verified == a.verified && b.delivered == a.delivered && b.fsm.pending.None? && b.minted.Keys == {"key"}
  {
    ManualConfirm(p, a.fsm, wake, "key");
  }

  lemma ConfirmedClean(p: Settings, start: Time, acts: seq<Action>, wake: Time)
    requires start > 0 && CleanAt(p, start, acts, Confirming, wake)
    ensures CleanAt(p, start, acts + Clean(AnswersAt(wake, "key")), Resetting, wake)
  {
    CleanTick(p, start, acts, AnswersAt(wake, "key"));
    ConfirmsFirstKey(p, Run(p, Fresh(start), acts), wake);
  }

  lemma AcceptedClean(p: Settings, start: Time, acts: seq<Action>, wake: Time)
    requires start > 0 && CleanAt(p, start, acts, Resetting, wake)
    ensures CleanAt(p, start, acts + Clean(AnswersAt(wake, "spare")), Verifying, wake + VERIFY_DELAY)
  {
    CleanTick(p, start, acts, AnswersAt(wake, "spare"));
  }

  lemma CutVerification(p: Settings, start: Time, acts: seq<Action>, wake: Time)
    requires start > 0 && CleanAt(p, start, acts, Verifying, wake)
    ensures var cut := acts + [TickPanic(AnswersAt(wake, "spare"), InLog)];
      var a := Run(p, Fresh(start), cut);
      && Legal(p, Fresh(start), cut) && CutOff(p, Fresh(start), cut) >= 1
      && a.fsm.state.Done? && |a.verified| == 1 && a.delivered == [] && a.fsm.pending.None?
  {
    var act := TickPanic(AnswersAt(wake, "spare"), InLog);
    RunSnoc(p, Fresh(start), acts, act);
    LogPanicAccounts(p, Run(p, Fresh(start), acts), act.e);
    assert (acts + [act])[..|acts|] == acts;
  }

  /** One manual cycle whose POST is accepted and whose verification is fetched in full, and
      then its log call panics: no sync panicked, nothing was overwritten, and the record is
      neither delivered nor waiting, now or ever. */
  lemma LogPanicLosesRecord(p: Settings, start: Time) returns (acts: seq<Action>)
    requires start > 0
    ensures var a := Run(p, Fresh(start), acts);
      && Legal(p, Fresh(start), acts) && Overwritten(p, Fresh(start), acts) == 0
      && a.fsm.state.Done? && |a.verified| == 1 && a.delivered == [] && a.fsm.pending.None?
    ensures forall i :: 0 <= i < |acts| ==> !acts[i].SyncPanic?
    ensures forall more :: !AllAccounted(Run(p, Fresh(start), acts + more))
  {
    var confirmed := [Force(start)] + Clean(AnswersAt(start, "key"));
    var before := confirmed + Clean(AnswersAt(start, "spare"));
    ForcedClean(p, start);
    ConfirmedClean(p, start, [Force(start)], start);
    AcceptedClean(p, start, confirmed, start);
    CutVerification(p, start, before, start + VERIFY_DELAY);
    acts := before + [TickPanic(AnswersAt(start + VERIFY_DELAY, "spare"), InLog)];
    OnlyEarlySyncPanicsOverwrite(p, start, acts);
    LostForEver(p, start, acts);
  }

  lemma LostForEver(p: Settings, start: Time, acts: seq<Action>)
    requires CutOff(p, Fresh(start), acts) >= 1
    ensures forall more :: !AllAccounted(Run(p, Fresh(start), acts + more))
  {
    DeliveredExactlyOnce(p, start, acts);
    forall more ensures !AllAccounted(Run(p, Fresh(start), acts + more)) {
      LossIsFinal(p, start, acts, more);
    }
  }
}
