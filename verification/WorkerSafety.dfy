// What every schedule of the worker and its handlers keeps.

module WorkerSafety {
  import opened Models
  import opened Machine
  import opened Account
  import opened Attempts
  import opened Worker

  /** The account is what some legal sequence of account actions makes of a fresh one. */
  ghost predicate Traceable(p: Settings, a: Account) {
    exists start: Time, acts :: start > 0 && Legal(p, Fresh(start), acts) && a == Run(p, Fresh(start), acts)
  }

  lemma FreshTraceable(p: Settings, now: Time)
    requires now > 0
    ensures Traceable(p, Fresh(now))
  {
    assert Legal(p, Fresh(now), []) && Fresh(now) == Run(p, Fresh(now), []);
  }

  lemma TraceableStep(p: Settings, a: Account, act: Action)
    requires Traceable(p, a) && Enabled(a, act)
    ensures Traceable(p, Apply(p, a, act))
  {
    var start: Time, acts :| start > 0 && Legal(p, Fresh(start), acts) && a == Run(p, Fresh(start), acts);
    assert (acts + [act])[..|acts|] == acts;
    assert Legal(p, Fresh(start), acts + [act]);
    assert Apply(p, a, act) == Run(p, Fresh(start), acts + [act]);
  }

  lemma TraceableAttempted(p: Settings, a: Account)
    requires Traceable(p, a) && p.refreshInterval > 0
    ensures Attempted(a)
  {
    var start: Time, acts :| start > 0 && Legal(p, Fresh(start), acts) && a == Run(p, Fresh(start), acts);
    RunKeepsAttempted(p, start, acts);
  }

  /** The loop can start a tick of id without taking the worker mutex again. */
  predicate HoldsTick(pc: Pc, id: string) {
    (pc.Loading? || pc.Ticking?) && pc.id == id
  }

  function PhaseOf(pc: Pc, id: string): Phase {
    if pc.Syncing? && pc.id == id then Unsynced
    else if pc.Recovering? && pc.id == id then Phase.Recovering
    else Ready
  }

  ghost predicate AccountsOk(cfg: Config, w: World) {
    && w.clock > 0
    && forall id :: id in w.accounts ==>
         && Traceable(SettingsOf(cfg, id), w.accounts[id])
         && w.accounts[id].clock <= w.clock
         && w.accounts[id].phase == PhaseOf(w.pc, id)
  }

  /** The account the loop is busy with exists and is due. */
  ghost predicate CurrentOk(w: World) {
    && (w.pc.Picked? || w.pc.Loading? || w.pc.Ticking? || w.pc.Syncing? || w.pc.Recovering? ==> w.pc.id in w.accounts)
    && (w.pc.Picked? ==>
          var a := w.accounts[w.pc.id]; a.fsm.nextWake <= w.pc.wake || a.fsm.nextWake <= a.clock)
    && (w.pc.Loading? || w.pc.Ticking? ==>
          var a := w.accounts[w.pc.id];
          w.pc.since <= w.clock && (a.fsm.nextWake <= w.pc.since || a.fsm.nextWake <= a.clock))
  }

  /** A TriggerCheck between its read of IDLE and its write: the account is still IDLE, or
      the one tick that was already in flight has armed it. */
  ghost predicate CheckOk(w: World) {
    w.check.Checking? ==>
      && 0 < w.check.now <= w.clock
      && w.check.todo <= w.accounts.Keys
      && (w.check.seen.Some? ==>
            && w.check.seen.value in w.accounts
            && var s := w.accounts[w.check.seen.value].fsm.state;
               s.Idle? || (s.Armed? && (w.pc.Top? || w.pc.Syncing? || w.pc.Recovering?)))
  }

  ghost predicate Safe(cfg: Config, w: World) {
    AccountsOk(cfg, w) && CurrentOk(w) && CheckOk(w)
  }

  // ---------- the account actions of a step ----------

  /** No step of the loop or of a handler performs an account action outside the rules the
      account theorems assume: in particular a tick only runs when its wake has come, and a
      check only ever pulls an IDLE or ARMED account forward. */
  lemma EffectsAreEnabled(cfg: Config, w: World, st: Step)
    requires Safe(cfg, w) && Can(w, st) && EffectOf(w, st).Effect?
    ensures EffectOf(w, st).id in w.accounts
    ensures Enabled(w.accounts[EffectOf(w, st).id], EffectOf(w, st).act)
  {
  }

  /** A step with an effect changes no other account and none of the tables. */
  lemma EffectControl(w: World, st: Step)
    requires Can(w, st) && EffectOf(w, st).Effect?
    ensures var v := Control(w, st);
      v == w.(pc := v.pc, check := v.check, nudges := v.nudges) && v.nudges >= w.nudges
  {
  }

  lemma ClockAdvances(w: World, st: Step)
    requires Can(w, st)
    ensures Control(w, st).clock >= w.clock
  {
  }

  /** Only an ensured account and an enumeration change the tables. */
  lemma OtherTables(w: World, st: Step)
    requires Can(w, st) && !st.EnsureOne? && !st.Enumerated?
    ensures var v := Control(w, st);
      v.accounts == w.accounts && v.missing == w.missing && v.resolved == w.resolved && v.retired == w.retired
  {
    if st.ResolveOrSkip? || st.CheckRead? {
    } else if st.Advance? || st.TokenWake? || st.Nudge? || st.ForceAccount? {
    } else if st.CheckBegin? || st.CheckStore? || st.CheckEnd? {
    } else {
      assert Control(w, st) == w.(pc := PcAfter(w, st));
    }
  }

  lemma EnsureAccounts(w: World, loaded: bool)
    requires Can(w, EnsureOne(loaded))
    ensures var v := Control(w, EnsureOne(loaded));
      && v.clock == w.clock
      && (v.accounts == w.accounts || (w.pc.todo[0] !in w.accounts && v.accounts == w.accounts[w.pc.todo[0] := Fresh(w.clock)]))
  {
  }

  lemma EnumeratedAccounts(w: World, ids: seq<string>)
    requires Can(w, Enumerated(ids))
    ensures Control(w, Enumerated(ids)).accounts == Kept(w.accounts, ids) && Control(w, Enumerated(ids)).clock == w.clock
  {
  }

  /** Any other step leaves every account it keeps as it is; a new one is fresh. */
  lemma QuietControl(w: World, st: Step)
    requires Can(w, st) && EffectOf(w, st).NoEffect?
    ensures var v := Control(w, st);
      && v.clock >= w.clock
      && (forall id :: id in v.accounts ==>
            if id in w.accounts then v.accounts[id] == w.accounts[id] else v.accounts[id] == Fresh(w.clock) && st.EnsureOne?)
  {
    if st.EnsureOne? { EnsureAccounts(w, st.loaded); }
    else if st.Enumerated? { EnumeratedAccounts(w, st.ids); }
    else { OtherTables(w, st); }
    ClockAdvances(w, st);
  }

  // ---------- preservation ----------

  lemma PhasesFollow(w: World, st: Step, id: string)
    requires Can(w, st)
    ensures EffectOf(w, st).NoEffect? || EffectOf(w, st).id != id ==> PhaseOf(Control(w, st).pc, id) == PhaseOf(w.pc, id)
  {
  }

  lemma EnsuredIsReady(w: World, st: Step, id: string)
    requires Can(w, st)
    ensures st.EnsureOne? ==> PhaseOf(w.pc, id) == Ready
  {
  }

  lemma EffectPhase(p: Settings, w: World, st: Step)
    requires Can(w, st) && EffectOf(w, st).Effect? && EffectOf(w, st).id in w.accounts
    requires var a := w.accounts[EffectOf(w, st).id];
      a.clock <= w.clock && a.phase == PhaseOf(w.pc, EffectOf(w, st).id)
    ensures var b := Apply(p, w.accounts[EffectOf(w, st).id], EffectOf(w, st).act);
      b.clock <= w.clock && b.phase == PhaseOf(Control(w, st).pc, EffectOf(w, st).id)
  {
  }

  lemma EffectKeepsAccounts(cfg: Config, w: World, st: Step)
    requires Safe(cfg, w) && Can(w, st) && EffectOf(w, st).Effect?
    ensures AccountsOk(cfg, Do(cfg, w, st))
  {
    var id, act := EffectOf(w, st).id, EffectOf(w, st).act;
    EffectsAreEnabled(cfg, w, st);
    EffectControl(w, st);
    EffectPhase(SettingsOf(cfg, id), w, st);
    TraceableStep(SettingsOf(cfg, id), w.accounts[id], act);
    var v := Do(cfg, w, st);
    forall j | j in v.accounts && j != id ensures v.accounts[j].phase == PhaseOf(v.pc, j) {
      PhasesFollow(w, st, j);
    }
  }

  lemma QuietKeepsAccounts(cfg: Config, w: World, st: Step)
    requires AccountsOk(cfg, w) && Can(w, st) && EffectOf(w, st).NoEffect?
    ensures AccountsOk(cfg, Control(w, st))
  {
    QuietControl(w, st);
    var v := Control(w, st);
    forall id | id in v.accounts
      ensures Traceable(SettingsOf(cfg, id), v.accounts[id]) && v.accounts[id].phase == PhaseOf(v.pc, id)
    {
      PhasesFollow(w, st, id);
      EnsuredIsReady(w, st, id);
      if id !in w.accounts { FreshTraceable(SettingsOf(cfg, id), w.clock); }
    }
  }

  lemma IdleTickArmsAtMost(p: Settings, f: Fsm, e: Env)
    requires f.state.Idle?
    ensures StepAndSettle(p, f, e).fsm.state.Idle? || StepAndSettle(p, f, e).fsm.state.Armed?
    ensures PanickedInLog(p, f, e).state.Idle? || PanickedInLog(p, f, e).state.Armed?
  {
  }

  /** A trigger on a due account leaves it due. */
  lemma TriggerKeepsDue(p: Settings, w: World, st: Step, since: Time)
    requires Can(w, st) && (st.CheckStore? || st.ForceAccount?) && EffectOf(w, st).id in w.accounts
    requires var a := w.accounts[EffectOf(w, st).id];
      a.clock <= w.clock && (a.fsm.nextWake <= since || a.fsm.nextWake <= a.clock)
    requires st.CheckStore? ==> w.check.now <= w.clock
    ensures var b := Apply(p, w.accounts[EffectOf(w, st).id], EffectOf(w, st).act);
      b.fsm.nextWake <= since || b.fsm.nextWake <= b.clock
  {
  }

  lemma CurrentControl(w: World, st: Step)
    requires Can(w, st) && EffectOf(w, st).Effect? && !st.CheckStore? && !st.ForceAccount?
    ensures EffectOf(w, st).id == w.pc.id
    ensures var pc := Control(w, st).pc; pc.Top? || ((pc.Syncing? || pc.Recovering?) && pc.id == w.pc.id)
  {
  }

  lemma TriggerKeepsCurrent(cfg: Config, w: World, st: Step)
    requires CurrentOk(w) && Can(w, st) && (st.CheckStore? || st.ForceAccount?)
    requires EffectOf(w, st).id in w.accounts && w.accounts[EffectOf(w, st).id].clock <= w.clock
    requires st.CheckStore? ==> w.check.now <= w.clock
    ensures CurrentOk(Do(cfg, w, st))
  {
    EffectControl(w, st);
    var id := EffectOf(w, st).id;
    assert Control(w, st).pc == w.pc;
    if w.pc.Picked? && w.pc.id == id { TriggerKeepsDue(SettingsOf(cfg, id), w, st, w.pc.wake); }
    if HoldsTick(w.pc, id) { TriggerKeepsDue(SettingsOf(cfg, id), w, st, w.pc.since); }
  }

  lemma EffectKeepsCurrent(cfg: Config, w: World, st: Step)
    requires Safe(cfg, w) && Can(w, st) && EffectOf(w, st).Effect?
    ensures CurrentOk(Do(cfg, w, st))
  {
    EffectsAreEnabled(cfg, w, st);
    if st.CheckStore? || st.ForceAccount? {
      TriggerKeepsCurrent(cfg, w, st);
    } else {
      EffectControl(w, st);
      CurrentControl(w, st);
    }
  }

  lemma QuietKeepsCurrent(w: World, st: Step)
    requires CurrentOk(w) && Can(w, st) && EffectOf(w, st).NoEffect?
    ensures CurrentOk(Control(w, st))
  {
    if !st.EnsureOne? && !st.Enumerated? { OtherTables(w, st); }
  }

  lemma TickKeepsCheck(cfg: Config, w: World, st: Step)
    requires CheckOk(w) && Can(w, st) && (st.RunTick? || st.TickPanicked?) && w.pc.id in w.accounts
    ensures CheckOk(Do(cfg, w, st))
  {
    EffectControl(w, st);
    var p, f := SettingsOf(cfg, w.pc.id), w.accounts[w.pc.id].fsm;
    if f.state.Idle? { IdleTickArmsAtMost(p, f, st.e); }
    assert Control(w, st).check == w.check;
  }

  lemma OtherEffectKeepsState(p: Settings, a: Account, act: Action)
    requires !act.Tick? && !act.TickPanic? && !act.Force?
    ensures Apply(p, a, act).fsm.state == a.fsm.state
  {
  }

  lemma OtherEffectKeepsCheck(cfg: Config, w: World, st: Step)
    requires CheckOk(w) && Can(w, st) && EffectOf(w, st).Effect? && !st.RunTick? && !st.TickPanicked?
    requires EffectOf(w, st).id in w.accounts
    ensures CheckOk(Do(cfg, w, st))
  {
    EffectControl(w, st);
    var id := EffectOf(w, st).id;
    if !st.ForceAccount? {
      OtherEffectKeepsState(SettingsOf(cfg, id), w.accounts[id], EffectOf(w, st).act);
    }
    if !st.CheckStore? && !st.ForceAccount? { CurrentControl(w, st); }
  }

  lemma QuietKeepsCheck(w: World, st: Step)
    requires w.clock > 0 && CheckOk(w) && Can(w, st) && EffectOf(w, st).NoEffect?
    ensures CheckOk(Control(w, st))
  {
    QuietControl(w, st);
  }

  lemma StepKeepsSafe(cfg: Config, w: World, st: Step)
    requires Safe(cfg, w) && Can(w, st)
    ensures Safe(cfg, Do(cfg, w, st))
  {
    if EffectOf(w, st).Effect? {
      EffectKeepsAccounts(cfg, w, st);
      EffectKeepsCurrent(cfg, w, st);
      EffectsAreEnabled(cfg, w, st);
      if st.RunTick? || st.TickPanicked? { TickKeepsCheck(cfg, w, st); } else { OtherEffectKeepsCheck(cfg, w, st); }
    } else {
      QuietKeepsAccounts(cfg, w, st);
      QuietKeepsCurrent(w, st);
      QuietKeepsCheck(w, st);
    }
  }

  /** Under every schedule each account of the worker lives a legal account run, so every
      theorem about legal runs holds of it. */
  lemma {:induction false} WorkerIsSafe(cfg: Config, now: Time, steps: seq<Step>)
    requires now > 0
    ensures Safe(cfg, WorldRun(cfg, Initial(now, cfg), steps))
  {
    if steps == [] {
    } else {
      var v := WorldRun(cfg, Initial(now, cfg), steps[..|steps| - 1]);
      WorkerIsSafe(cfg, now, steps[..|steps| - 1]);
      if Can(v, steps[|steps| - 1]) { StepKeepsSafe(cfg, v, steps[|steps| - 1]); }
    }
  }
}
