// The worker's schedule: no wake-up is lost, a check races with at most one tick, the
// account tables stay consistent, and due work drains at a frozen clock.

module WorkerSchedule {
  import opened Models
  import opened Machine
  import opened Account
  import opened Progress
  import opened Worker
  import opened WorkerSafety

  // ---------- no lost wake-up ----------

  /** A handler has written a wake, or may yet, and the loop will still hear of it. */
  predicate Audible(w: World) {
    w.token || w.nudges > 0 || w.check.Checking?
  }

  /** Every account's wake is set, and not before the deadline. */
  ghost predicate NotBefore(accounts: map<string, Account>, deadline: Time) {
    forall id :: id in accounts ==> accounts[id].fsm.nextWake != NO_TIME && deadline <= accounts[id].fsm.nextWake
  }

  /** If the loop sleeps, unless it is about to be woken, it sleeps past nobody's wake. */
  ghost predicate RightSleep(w: World) {
    w.pc.Sleeping? && !Audible(w) ==> NotBefore(w.accounts, w.pc.until)
  }

  /** The missing-credential delay is none, or ends before the nameless account's wake. */
  predicate DelayIsShort(w: World)
    requires "" in w.accounts
  {
    match SoonestMissing(w.resolved, w.accounts.Keys, w.missing)
    case None => true
    case Some(None) => false
    case Some(Some(at)) => at <= w.clock || at <= w.accounts[""].fsm.nextWake
  }

  /** Whatever the search returns here, the loop will not sleep past a wake: no nameless
      account is strictly the soonest, or all the others are due and the delay is short. */
  predicate SafePick(w: World) {
    NamelessNotFirst(w.accounts) ||
    ((forall id :: id in w.accounts && id != "" && Waiting(w.accounts, id) ==> w.accounts[id].fsm.nextWake <= w.clock)
     && DelayIsShort(w))
  }

  /** Every search the run comes to, with no nudge on its way, is safe. */
  predicate SafePicks(cfg: Config, w: World, steps: seq<Step>) {
    var v := WorldRun(cfg, w, steps);
    && (v.pc.Pick? && !Audible(v) ==> SafePick(v))
    && (steps == [] || SafePicks(cfg, w, steps[..|steps| - 1]))
  }

  lemma AccountsHaveWakes(cfg: Config, w: World)
    requires Safe(cfg, w) && cfg.refreshInterval > 0
    ensures forall id :: id in w.accounts ==> w.accounts[id].fsm.nextWake > 0
  {
    forall id | id in w.accounts ensures w.accounts[id].fsm.nextWake > 0 {
      TraceableAttempted(SettingsOf(cfg, id), w.accounts[id]);
    }
  }

  /** Where the loop has decided, but not yet slept. */
  predicate Deciding(pc: Pc) { pc.Nothing? || pc.Picked? || pc.Sleeping? }

  ghost predicate Heard(w: World) {
    !Audible(w) ==>
      && (w.pc.Sleeping? ==> NotBefore(w.accounts, w.pc.until))
      && (w.pc.Picked? && w.pc.wake > w.clock ==> NotBefore(w.accounts, w.pc.wake))
      && (w.pc.Nothing? && w.accounts != map[] ==>
            "" in w.accounts && NotBefore(w.accounts, w.accounts[""].fsm.nextWake) && DelayIsShort(w))
  }

  /** A step with an effect either runs outside the loop's decision or will be heard. */
  lemma EffectIsHeard(w: World, st: Step)
    requires Can(w, st) && EffectOf(w, st).Effect?
    ensures var v := Control(w, st); !Deciding(v.pc) || Audible(v)
  {
  }

  lemma PickIsHeard(cfg: Config, w: World, id: string)
    requires Safe(cfg, w) && cfg.refreshInterval > 0 && Can(w, PickSoonest(id)) && (!Audible(w) ==> SafePick(w))
    ensures Heard(Control(w, PickSoonest(id)))
  {
    AccountsHaveWakes(cfg, w);
  }

  lemma PickNoneIsHeard(cfg: Config, w: World)
    requires Safe(cfg, w) && cfg.refreshInterval > 0 && Can(w, PickNone) && (!Audible(w) ==> SafePick(w))
    ensures Heard(Control(w, PickNone))
  {
    AccountsHaveWakes(cfg, w);
    if w.accounts != map[] {
      var some :| some in w.accounts;
      assert Waiting(w.accounts, some);
      assert !NamelessNotFirst(w.accounts);
      forall id | id in w.accounts ensures w.accounts[""].fsm.nextWake <= w.accounts[id].fsm.nextWake {
        assert id != "" ==> Waiting(w.accounts, id);
      }
    }
  }

  lemma DelayIsHeard(w: World)
    requires Heard(w) && Can(w, MissingDelay)
    ensures Heard(Control(w, MissingDelay))
  {
  }

  lemma SleepIsHeard(w: World)
    requires Heard(w) && Can(w, SleepOrStep)
    ensures Heard(Control(w, SleepOrStep))
  {
  }

  /** No other step makes a decision or silences a nudge the loop has not heard. */
  lemma OtherDecides(w: World, st: Step)
    requires Can(w, st) && EffectOf(w, st).NoEffect?
    requires !st.PickSoonest? && !st.PickNone? && !st.MissingDelay? && !st.SleepOrStep?
    ensures Deciding(Control(w, st).pc) ==> Control(w, st).pc == w.pc && !st.EnsureOne? && !st.Enumerated?
  {
  }

  lemma StaysAudible(w: World, st: Step)
    requires Can(w, st) && Audible(w) && Deciding(Control(w, st).pc)
    ensures Audible(Control(w, st))
  {
  }

  lemma OtherIsHeard(w: World, st: Step)
    requires Can(w, st) && EffectOf(w, st).NoEffect? && Heard(w)
    requires !st.PickSoonest? && !st.PickNone? && !st.MissingDelay? && !st.SleepOrStep?
    ensures Heard(Control(w, st))
  {
    OtherDecides(w, st);
    if Deciding(Control(w, st).pc) {
      OtherTables(w, st);
      if Audible(w) { StaysAudible(w, st); }
    }
  }

  lemma StepKeepsHeard(cfg: Config, w: World, st: Step)
    requires Safe(cfg, w) && cfg.refreshInterval > 0 && Can(w, st) && Heard(w)
    requires w.pc.Pick? && !Audible(w) ==> SafePick(w)
    ensures Heard(Do(cfg, w, st))
  {
    if EffectOf(w, st).Effect? { EffectIsHeard(w, st); }
    else if st.PickSoonest? { PickIsHeard(cfg, w, st.id); }
    else if st.PickNone? { PickNoneIsHeard(cfg, w); }
    else if st.MissingDelay? { DelayIsHeard(w); }
    else if st.SleepOrStep? { SleepIsHeard(w); }
    else { OtherIsHeard(w, st); }
  }

  lemma {:induction false} RunKeepsHeard(cfg: Config, now: Time, steps: seq<Step>)
    requires now > 0 && cfg.refreshInterval > 0 && SafePicks(cfg, Initial(now, cfg), steps)
    ensures Heard(WorldRun(cfg, Initial(now, cfg), steps))
  {
    if steps == [] {
    } else {
      var init := steps[..|steps| - 1];
      var v := WorldRun(cfg, Initial(now, cfg), init);
      RunKeepsHeard(cfg, now, init);
      WorkerIsSafe(cfg, now, init);
      assert SafePicks(cfg, Initial(now, cfg), init);
      if Can(v, steps[|steps| - 1]) { StepKeepsHeard(cfg, v, steps[|steps| - 1]); }
    }
  }

  /** Along any run whose searches are safe: whenever the loop sleeps to a deadline with the
      wake channel empty and no trigger between its write and its nudge, that deadline is no
      later than any account's wake, and every account has one. */
  lemma NoLostWakeUp(cfg: Config, now: Time, steps: seq<Step>)
    requires now > 0 && cfg.refreshInterval > 0 && SafePicks(cfg, Initial(now, cfg), steps)
    ensures RightSleep(WorldRun(cfg, Initial(now, cfg), steps))
  {
    RunKeepsHeard(cfg, now, steps);
  }

  // ---------- when a wake-up is lost ----------

  /** From a search that is not safe, how the loop comes to sleep past the nameless wake. */
  lemma UnsafePickLoses(cfg: Config, w: World) returns (more: seq<Step>)
    requires Safe(cfg, w) && cfg.refreshInterval > 0 && w.pc.Pick? && !Audible(w) && !SafePick(w)
    ensures !RightSleep(WorldRun(cfg, w, more))
  {
    if id :| id in w.accounts && id != "" && Waiting(w.accounts, id) && w.accounts[id].fsm.nextWake > w.clock {
      more := OversleepsForOther(cfg, w, id);
    } else {
      more := OversleepsForMissing(cfg, w);
    }
  }

  lemma WorldSnoc(cfg: Config, w: World, steps: seq<Step>, st: Step)
    ensures WorldRun(cfg, w, steps + [st]) == var v := WorldRun(cfg, w, steps); if Can(v, st) then Do(cfg, v, st) else v
  {
    assert (steps + [st])[..|steps|] == steps;
  }

  lemma OversleepsForOther(cfg: Config, w: World, id: string) returns (more: seq<Step>)
    requires w.pc.Pick? && !Audible(w) && !NamelessNotFirst(w.accounts)
    requires id != "" && Waiting(w.accounts, id) && w.accounts[id].fsm.nextWake > w.clock
    ensures !RightSleep(WorldRun(cfg, w, more))
  {
    more := [] + [PickSoonest(id)] + [SleepOrStep];
    WorldSnoc(cfg, w, [], PickSoonest(id));
    WorldSnoc(cfg, w, [] + [PickSoonest(id)], SleepOrStep);
  }

  lemma DelaySleeps(w: World)
    requires w.pc.Nothing? && !Audible(w) && "" in w.accounts
    requires var soonest := SoonestMissing(w.resolved, w.accounts.Keys, w.missing);
      soonest.Some? && if soonest.value.Some? then soonest.value.value > w.clock && soonest.value.value > w.accounts[""].fsm.nextWake
                       else w.accounts[""].fsm.nextWake <= w.clock
    ensures Can(w, MissingDelay) && !RightSleep(Control(w, MissingDelay))
  {
  }

  lemma NothingUntil(cfg: Config, w: World, late: Time)
    requires Can(w, PickNone) && w.clock <= late
    ensures WorldRun(cfg, w, [] + [PickNone] + [Advance(late)]) == w.(pc := Nothing, clock := late)
  {
    WorldSnoc(cfg, w, [], PickNone);
    WorldSnoc(cfg, w, [] + [PickNone], Advance(late));
  }

  lemma OversleepsForMissing(cfg: Config, w: World) returns (more: seq<Step>)
    requires w.pc.Pick? && !Audible(w) && !NamelessNotFirst(w.accounts) && !DelayIsShort(w)
    ensures !RightSleep(WorldRun(cfg, w, more))
  {
    var nameless := w.accounts[""].fsm.nextWake;
    var wait := nameless > w.clock && SoonestMissing(w.resolved, w.accounts.Keys, w.missing) == Some(None);
    var late := if wait then nameless else w.clock;
    more := [] + [PickNone] + [Advance(late)] + [MissingDelay];
    NothingUntil(cfg, w, late);
    DelaySleeps(w.(pc := Nothing, clock := late));
    WorldSnoc(cfg, w, [] + [PickNone] + [Advance(late)], MissingDelay);
  }

  /** The promise that no wake-up is lost, exactly: it holds in every schedule if and only if
      every search any schedule comes to is safe. */
  lemma LostExactlyAtUnsafePicks(cfg: Config, now: Time)
    requires now > 0 && cfg.refreshInterval > 0
    ensures (forall steps :: RightSleep(WorldRun(cfg, Initial(now, cfg), steps))) <==>
      (forall steps :: SafePicks(cfg, Initial(now, cfg), steps))
  {
    if forall steps :: SafePicks(cfg, Initial(now, cfg), steps) {
      forall steps ensures RightSleep(WorldRun(cfg, Initial(now, cfg), steps)) {
        assert SafePicks(cfg, Initial(now, cfg), steps);
        NoLostWakeUp(cfg, now, steps);
      }
    } else {
      var steps :| !SafePicks(cfg, Initial(now, cfg), steps);
      var before := FirstUnsafePick(cfg, now, steps);
      var w := WorldRun(cfg, Initial(now, cfg), before);
      WorkerIsSafe(cfg, now, before);
      var more := UnsafePickLoses(cfg, w);
      RunAppend(cfg, Initial(now, cfg), before, more);
      assert !RightSleep(WorldRun(cfg, Initial(now, cfg), before + more));
    }
  }

  lemma {:induction false} FirstUnsafePick(cfg: Config, now: Time, steps: seq<Step>) returns (before: seq<Step>)
    requires !SafePicks(cfg, Initial(now, cfg), steps)
    ensures var w := WorldRun(cfg, Initial(now, cfg), before); w.pc.Pick? && !Audible(w) && !SafePick(w)
  {
    var v := WorldRun(cfg, Initial(now, cfg), steps);
    if v.pc.Pick? && !Audible(v) && !SafePick(v) {
      before := steps;
    } else {
      before := FirstUnsafePick(cfg, now, steps[..|steps| - 1]);
    }
  }

  // ---------- without the empty id ----------

  /** No configuration and no listing names the empty id. */
  predicate Named(cfg: Config, steps: seq<Step>) {
    "" !in cfg.enabledAccounts && forall i :: 0 <= i < |steps| && steps[i].Enumerated? ==> "" !in steps[i].ids
  }

  predicate NoneNameless(w: World) {
    "" !in w.accounts && "" !in w.resolved && (w.pc.Ensuring? ==> "" !in w.pc.todo) && (w.pc.Picked? ==> w.pc.id != "")
  }

  lemma {:induction false} RetryListIsResolved(resolved: seq<string>, present: set<string>, missing: map<string, Time>, now: Time)
    ensures forall id :: id in RetryList(resolved, present, missing, now) ==> id in resolved
  {
    if resolved == [] {
    } else {
      RetryListIsResolved(resolved[..|resolved| - 1], present, missing, now);
      assert resolved == resolved[..|resolved| - 1] + [resolved[|resolved| - 1]];
    }
  }

  lemma EnsureKeepsNamed(w: World, loaded: bool)
    requires Can(w, EnsureOne(loaded)) && NoneNameless(w)
    ensures NoneNameless(Control(w, EnsureOne(loaded)))
  {
    assert w.pc.todo[0] in w.pc.todo;
  }

  lemma NamedPc(w: World, st: Step)
    requires Can(w, st) && NoneNameless(w) && EffectOf(w, st).NoEffect? && !st.EnsureOne? && !st.Enumerated?
    ensures var pc := Control(w, st).pc;
      && (pc.Ensuring? ==> "" !in pc.todo || pc.todo == RetryList(w.resolved, w.accounts.Keys, w.missing, w.clock))
      && (pc.Picked? ==> pc.id != "")
  {
    match st
    case ScanMissing =>
    case PickSoonest(_) =>
    case SleepOrStep =>
    case _ =>
  }

  lemma QuietKeepsNamed(w: World, st: Step)
    requires Can(w, st) && NoneNameless(w) && EffectOf(w, st).NoEffect? && (st.Enumerated? ==> "" !in st.ids)
    ensures NoneNameless(Control(w, st))
  {
    if st.EnsureOne? {
      EnsureKeepsNamed(w, st.loaded);
    } else if !st.Enumerated? {
      OtherTables(w, st);
      NamedPc(w, st);
      RetryListIsResolved(w.resolved, w.accounts.Keys, w.missing, w.clock);
    }
  }

  lemma EffectKeepsNamed(w: World, st: Step)
    requires Can(w, st) && NoneNameless(w) && EffectOf(w, st).Effect?
    ensures NoneNameless(Control(w, st))
  {
    EffectControl(w, st);
    EffectPasses(w, st);
  }

  /** Then every search is safe, so no wake-up is ever lost. */
  lemma {:induction false} NamedNeverLost(cfg: Config, now: Time, steps: seq<Step>)
    requires now > 0 && cfg.refreshInterval > 0 && Named(cfg, steps)
    ensures var w := WorldRun(cfg, Initial(now, cfg), steps); NoneNameless(w) && RightSleep(w)
    ensures SafePicks(cfg, Initial(now, cfg), steps)
  {
    if steps == [] {
    } else {
      var init, st := steps[..|steps| - 1], steps[|steps| - 1];
      NamedNeverLost(cfg, now, init);
      var v := WorldRun(cfg, Initial(now, cfg), init);
      WorkerIsSafe(cfg, now, init);
      if Can(v, st) {
        if EffectOf(v, st).Effect? {
          EffectKeepsNamed(v, st);
          EffectsAreEnabled(cfg, v, st);
        } else {
          QuietKeepsNamed(v, st);
        }
      }
    }
    NoLostWakeUp(cfg, now, steps);
  }

  // ---------- the check race ----------

  predicate IsTick(st: Step) { st.RunTick? || st.TickPanicked? }

  function TicksDone(cfg: Config, w: World, steps: seq<Step>): nat {
    if steps == [] then 0
    else
      var init, st := steps[..|steps| - 1], steps[|steps| - 1];
      TicksDone(cfg, w, init) + (if IsTick(st) && Can(WorldRun(cfg, w, init), st) then 1 else 0)
  }

  function InFlight(w: World): nat { if w.pc.Loading? || w.pc.Ticking? then 1 else 0 }

  lemma RacingStep(w: World, st: Step)
    requires w.check.Checking? && w.check.seen.Some? && !st.CheckStore? && Can(w, st)
    ensures Control(w, st).check == w.check
    ensures InFlight(Control(w, st)) + (if IsTick(st) then 1 else 0) <= InFlight(w)
  {
  }

  lemma {:induction false} RacingTicks(cfg: Config, w: World, steps: seq<Step>)
    requires w.check.Checking? && w.check.seen.Some?
    requires forall i :: 0 <= i < |steps| ==> !steps[i].CheckStore?
    ensures WorldRun(cfg, w, steps).check == w.check
    ensures TicksDone(cfg, w, steps) + InFlight(WorldRun(cfg, w, steps)) <= InFlight(w)
  {
    if steps == [] {
    } else {
      RacingTicks(cfg, w, steps[..|steps| - 1]);
      var v, st := WorldRun(cfg, w, steps[..|steps| - 1]), steps[|steps| - 1];
      if Can(v, st) { RacingStep(v, st); }
    }
  }

  /** Between a check's read of IDLE and its write at most one tick completes, in any
      schedule, and the account the write then pulls forward is IDLE or ARMED. */
  lemma CheckRaceContained(cfg: Config, now: Time, before: seq<Step>, id: string, between: seq<Step>)
    requires now > 0
    requires forall i :: 0 <= i < |between| ==> !between[i].CheckStore?
    requires var w := WorldRun(cfg, Initial(now, cfg), before); w.check.Checking? && w.check.seen == Some(id)
    ensures var w := WorldRun(cfg, Initial(now, cfg), before);
      var v := WorldRun(cfg, w, between);
      && TicksDone(cfg, w, between) <= 1
      && Can(v, CheckStore) && id in v.accounts
      && (v.accounts[id].fsm.state.Idle? || v.accounts[id].fsm.state.Armed?)
  {
    RacingTicks(cfg, WorldRun(cfg, Initial(now, cfg), before), between);
    RunAppend(cfg, Initial(now, cfg), before, between);
    WorkerIsSafe(cfg, now, before + between);
  }

  lemma {:induction false} RunAppend(cfg: Config, w: World, before: seq<Step>, after: seq<Step>)
    ensures WorldRun(cfg, WorldRun(cfg, w, before), after) == WorldRun(cfg, w, before + after)
  {
    if after == [] {
      assert before + after == before;
    } else {
      RunAppend(cfg, w, before, after[..|after| - 1]);
      assert (before + after)[..|before + after| - 1] == before + after[..|after| - 1];
    }
  }

  // ---------- bookkeeping ----------

  ghost predicate Covered(w: World) {
    forall id :: id in w.resolved ==> id in w.accounts || id in w.missing
  }

  /** Between a finished retry pass and the next loop top. */
  predicate AfterPass(pc: Pc) {
    pc.Pick? || pc.Nothing? || pc.Picked? || pc.Sleeping?
  }

  ghost predicate Tables(w: World) {
    && w.accounts.Keys !! w.missing.Keys
    && (forall id :: id in w.missing ==> w.missing[id] <= w.clock + CREDENTIAL_RETRY)
    && (AfterPass(w.pc) ==> Covered(w))
    && (w.pc.Ensuring? && w.pc.pass.Retrying? ==>
          forall id :: id in w.resolved ==> id in w.accounts || id in w.missing || id in w.pc.todo)
  }

  ghost predicate Queries(w: World) {
    && (forall i :: 0 < i < |w.queries| ==> w.queries[i] - w.queries[i - 1] >= WILDCARD_RESOLVE)
    && (if w.queries == [] then w.lastResolve == NO_TIME
        else w.lastResolve == w.queries[|w.queries| - 1] && 0 < w.lastResolve <= w.clock)
  }

  lemma {:induction false} RetryListCovers(resolved: seq<string>, present: set<string>, missing: map<string, Time>, now: Time)
    ensures forall id :: id in resolved ==>
      id in present || id in missing || id in RetryList(resolved, present, missing, now)
  {
    if resolved == [] {
    } else {
      RetryListCovers(resolved[..|resolved| - 1], present, missing, now);
      assert resolved == resolved[..|resolved| - 1] + [resolved[|resolved| - 1]];
    }
  }

  lemma EffectKeepsTables(cfg: Config, w: World, st: Step)
    requires Safe(cfg, w) && Tables(w) && Can(w, st) && EffectOf(w, st).Effect?
    ensures Tables(Do(cfg, w, st))
  {
    EffectsAreEnabled(cfg, w, st);
    EffectControl(w, st);
    EffectPasses(w, st);
    assert Do(cfg, w, st).accounts.Keys == w.accounts.Keys;
  }

  lemma EffectPasses(w: World, st: Step)
    requires Can(w, st) && EffectOf(w, st).Effect?
    ensures var pc := Control(w, st).pc; pc == w.pc || (!AfterPass(pc) && !pc.Ensuring?)
  {
  }

  lemma EnsureKeepsTables(w: World, loaded: bool)
    requires Tables(w) && Can(w, EnsureOne(loaded))
    ensures Tables(Control(w, EnsureOne(loaded)))
  {
    assert w.pc.todo == [w.pc.todo[0]] + w.pc.todo[1..];
  }

  lemma EnumeratedKeepsTables(w: World, ids: seq<string>)
    requires Tables(w) && Can(w, Enumerated(ids))
    ensures Tables(Control(w, Enumerated(ids)))
  {
  }

  /** Only a finished pass lets the loop pick. */
  lemma OtherPasses(w: World, st: Step)
    requires Can(w, st) && EffectOf(w, st).NoEffect? && !st.EnsureOne? && !st.Enumerated?
    ensures var pc := Control(w, st).pc;
      && (AfterPass(pc) ==> AfterPass(w.pc) || (w.pc.Ensuring? && w.pc.pass.Retrying? && w.pc.todo == []))
      && (pc.Ensuring? && pc.pass.Retrying? ==>
            pc == w.pc || pc.todo == RetryList(w.resolved, w.accounts.Keys, w.missing, w.clock))
  {
    match st
    case ScanMissing =>
    case EnsureDone =>
    case SleepOrStep =>
    case _ =>
  }

  lemma OtherKeepsTables(w: World, st: Step)
    requires Tables(w) && Can(w, st) && EffectOf(w, st).NoEffect? && !st.EnsureOne? && !st.Enumerated?
    ensures Tables(Control(w, st))
  {
    OtherTables(w, st);
    OtherPasses(w, st);
    RetryListCovers(w.resolved, w.accounts.Keys, w.missing, w.clock);
  }

  lemma StepKeepsTables(cfg: Config, w: World, st: Step)
    requires Safe(cfg, w) && Tables(w) && Can(w, st)
    ensures Tables(Do(cfg, w, st))
  {
    if st.EnsureOne? { EnsureKeepsTables(w, st.loaded); }
    else if st.Enumerated? { EnumeratedKeepsTables(w, st.ids); }
    else if EffectOf(w, st).Effect? { EffectKeepsTables(cfg, w, st); }
    else { OtherKeepsTables(w, st); }
  }

  lemma ResolveKeepsQueries(w: World)
    requires w.clock > 0 && Queries(w) && Can(w, ResolveOrSkip)
    ensures Queries(Control(w, ResolveOrSkip))
  {
  }

  lemma QueryControl(w: World, st: Step)
    requires Can(w, st) && !st.ResolveOrSkip?
    ensures Control(w, st).queries == w.queries && Control(w, st).lastResolve == w.lastResolve
  {
  }

  lemma StepKeepsQueries(cfg: Config, w: World, st: Step)
    requires w.clock > 0 && Queries(w) && Can(w, st)
    ensures Queries(Do(cfg, w, st))
  {
    if st.ResolveOrSkip? { ResolveKeepsQueries(w); } else { QueryControl(w, st); ClockAdvances(w, st); }
  }

  lemma {:induction false} RunKeepsTables(cfg: Config, now: Time, steps: seq<Step>)
    requires now > 0
    ensures var w := WorldRun(cfg, Initial(now, cfg), steps); Tables(w) && Queries(w)
  {
    if steps == [] {
    } else {
      var v, st := WorldRun(cfg, Initial(now, cfg), steps[..|steps| - 1]), steps[|steps| - 1];
      RunKeepsTables(cfg, now, steps[..|steps| - 1]);
      WorkerIsSafe(cfg, now, steps[..|steps| - 1]);
      if Can(v, st) {
        StepKeepsQueries(cfg, v, st);
        StepKeepsTables(cfg, v, st);
      }
    }
  }

  /** In every reachable state: no id has both a machine and a retry time; after a retry
      pass every enabled id has a machine or a retry time at most 30 minutes away; and host
      enumerations are at least one minute apart. */
  lemma Bookkeeping(cfg: Config, now: Time, steps: seq<Step>)
    requires now > 0
    ensures var w := WorldRun(cfg, Initial(now, cfg), steps);
      && w.accounts.Keys !! w.missing.Keys
      && (AfterPass(w.pc) ==> forall id :: id in w.resolved ==>
            id in w.accounts || (id in w.missing && w.missing[id] <= w.clock + CREDENTIAL_RETRY))
      && (forall i :: 0 < i < |w.queries| ==> w.queries[i] - w.queries[i - 1] >= WILDCARD_RESOLVE)
  {
    RunKeepsTables(cfg, now, steps);
  }

  /** Only an enumeration drops a machine, and exactly those that are IDLE and no longer
      listed. */
  lemma OnlyIdleIsReaped(cfg: Config, w: World, st: Step, id: string)
    requires Can(w, st) && id in w.accounts
    ensures id in Do(cfg, w, st).accounts <==>
      !(st.Enumerated? && id !in st.ids && w.accounts[id].fsm.state.Idle?)
  {
    OnlyEnumerationDrops(w, st, id);
  }

  lemma OnlyEnumerationDrops(w: World, st: Step, id: string)
    requires Can(w, st) && id in w.accounts
    ensures st.Enumerated? || id in Control(w, st).accounts
  {
  }

  // ---------- due work at a frozen clock ----------

  /** A recovering account owes none: its recovery moves its wake to the future. */
  function Work(a: Account, t: Time): nat {
    if a.phase.Recovering? || a.fsm.nextWake > t then 0 else Rank(a.fsm.state)
  }

  /** The ticks still to run at instant t, summed over the accounts. */
  ghost function DueWork(accounts: map<string, Account>, t: Time): nat {
    if accounts == map[] then 0
    else
      var id :| id in accounts;
      Work(accounts[id], t) + DueWork(accounts - {id}, t)
  }

  lemma {:induction false} DueWorkSplits(accounts: map<string, Account>, t: Time, id: string)
    requires id in accounts
    ensures DueWork(accounts, t) == Work(accounts[id], t) + DueWork(accounts - {id}, t)
    decreases |accounts|
  {
    var first :| first in accounts && DueWork(accounts, t) == Work(accounts[first], t) + DueWork(accounts - {first}, t);
    if first != id {
      DueWorkSplits(accounts - {first}, t, id);
      DueWorkSplits(accounts - {id}, t, first);
      assert accounts - {first} - {id} == accounts - {id} - {first};
    }
  }

  lemma DueWorkUpdate(accounts: map<string, Account>, t: Time, id: string, b: Account)
    requires id in accounts
    ensures DueWork(accounts[id := b], t) == DueWork(accounts, t) - Work(accounts[id], t) + Work(b, t)
  {
    DueWorkSplits(accounts, t, id);
    DueWorkSplits(accounts[id := b], t, id);
    assert accounts[id := b] - {id} == accounts - {id};
  }

  lemma {:induction false} DueWorkBound(accounts: map<string, Account>, t: Time)
    ensures DueWork(accounts, t) <= 4 * |accounts|
    decreases |accounts|
  {
    if accounts == map[] {
    } else {
      var id :| id in accounts && DueWork(accounts, t) == Work(accounts[id], t) + DueWork(accounts - {id}, t);
      var rest := accounts - {id};
      assert rest.Keys == accounts.Keys - {id} && |rest| == |rest.Keys| && |accounts| == |accounts.Keys|;
      DueWorkBound(rest, t);
      assert Work(accounts[id], t) <= 4 && |rest.Keys| == |accounts.Keys| - 1;
    }
  }

  lemma TickLowersWork(p: Settings, a: Account, e: Env)
    requires Attempted(a) && Due(a, e) && Frozen(e, e.now) && Normalized(p)
    ensures Work(Apply(p, a, Tick(e)), e.now) < Work(a, e.now)
  {
    TickLowersRank(p, a, e);
  }

  /** A panic in the tick takes all the account's due work away. */
  lemma PanicLowersWork(p: Settings, a: Account, e: Env, point: PanicPoint)
    requires Due(a, e)
    ensures Work(Apply(p, a, TickPanic(e, point)), e.now) == 0 < Work(a, e.now)
  {
  }

  /** With the clock standing still every tick the worker runs, panicking or not, lowers the
      due work. */
  lemma TickDrainsDueWork(cfg: Config, w: World, st: Step)
    requires Safe(cfg, w) && Can(w, st) && IsTick(st) && st.e.now == w.clock
    requires cfg.refreshInterval >= MINUTE && cfg.triggerLeadTime >= MINUTE
    ensures DueWork(Do(cfg, w, st).accounts, w.clock) < DueWork(w.accounts, w.clock)
  {
    var id, p := w.pc.id, SettingsOf(cfg, w.pc.id);
    EffectsAreEnabled(cfg, w, st);
    EffectControl(w, st);
    if st.RunTick? {
      TraceableAttempted(p, w.accounts[id]);
      TickLowersWork(p, w.accounts[id], st.e);
    } else {
      PanicLowersWork(p, w.accounts[id], st.e, st.point);
    }
    DueWorkUpdate(w.accounts, w.clock, id, Apply(p, w.accounts[id], EffectOf(w, st).act));
  }

  /** No time passes, nothing is triggered, no account appears or goes. */
  predicate Undisturbed(w: World, st: Step) {
    && !st.Advance? && !st.ForceAccount? && !st.CheckStore? && !st.EnsureOne? && !st.Enumerated?
    && (IsTick(st) ==> st.e.now == w.clock)
  }

  lemma FailureAddsNoWork(p: Settings, a: Account, act: Action, t: Time)
    requires Enabled(a, act) && p.refreshInterval >= MINUTE
    requires act == LoadFailed(t) || act == LoadPanic(t) || act.Sync? || act.SyncPanic? || act == Recover(t)
    ensures Work(Apply(p, a, act), t) <= Work(a, t)
  {
  }

  lemma EffectDrains(cfg: Config, w: World, st: Step)
    requires Safe(cfg, w) && Can(w, st) && EffectOf(w, st).Effect? && Undisturbed(w, st)
    requires cfg.refreshInterval >= MINUTE && cfg.triggerLeadTime >= MINUTE
    ensures var v := Do(cfg, w, st);
      v.clock == w.clock && DueWork(v.accounts, w.clock) + (if IsTick(st) then 1 else 0) <= DueWork(w.accounts, w.clock)
  {
    var id, act := EffectOf(w, st).id, EffectOf(w, st).act;
    EffectControl(w, st);
    if IsTick(st) {
      TickDrainsDueWork(cfg, w, st);
    } else {
      EffectsAreEnabled(cfg, w, st);
      FailureAddsNoWork(SettingsOf(cfg, id), w.accounts[id], act, w.clock);
      DueWorkUpdate(w.accounts, w.clock, id, Apply(SettingsOf(cfg, id), w.accounts[id], act));
    }
  }

  lemma QuietDrains(w: World, st: Step)
    requires Can(w, st) && EffectOf(w, st).NoEffect? && Undisturbed(w, st)
    ensures Control(w, st).accounts == w.accounts && Control(w, st).clock == w.clock && !IsTick(st)
  {
  }

  /** Every step of the schedule is undisturbed where it stands. */
  predicate FrozenSchedule(cfg: Config, w: World, steps: seq<Step>) {
    steps == [] ||
    (FrozenSchedule(cfg, w, steps[..|steps| - 1]) && Undisturbed(WorldRun(cfg, w, steps[..|steps| - 1]), steps[|steps| - 1]))
  }

  /** At a frozen clock any undisturbed schedule, however long and interleaved and whatever
      panics in it, runs at most four ticks per account. */
  lemma {:induction false} DueWorkDrains(cfg: Config, w: World, steps: seq<Step>)
    requires Safe(cfg, w) && cfg.refreshInterval >= MINUTE && cfg.triggerLeadTime >= MINUTE
    requires FrozenSchedule(cfg, w, steps)
    ensures var v := WorldRun(cfg, w, steps);
      && Safe(cfg, v) && v.clock == w.clock
      && TicksDone(cfg, w, steps) + DueWork(v.accounts, w.clock) <= DueWork(w.accounts, w.clock) <= 4 * |w.accounts|
  {
    DueWorkBound(w.accounts, w.clock);
    if steps != [] {
      var init, st := steps[..|steps| - 1], steps[|steps| - 1];
      DueWorkDrains(cfg, w, init);
      var v := WorldRun(cfg, w, init);
      if Can(v, st) {
        StepKeepsSafe(cfg, v, st);
        if EffectOf(v, st).Effect? { EffectDrains(cfg, v, st); } else { QuietDrains(v, st); }
      }
    }
  }
}
