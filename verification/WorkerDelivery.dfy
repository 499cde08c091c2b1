// Delivery of the records of every machine the worker ever had, dropped ones included.

module WorkerDelivery {
  import opened Models
  import opened Machine
  import opened Account
  import opened Progress
  import opened Delivery
  import opened Worker
  import opened WorkerSafety
  import opened WorkerSchedule
  import opened WorkerRounds

  /** Each record has been delivered once and in order, or waits in a machine that is still in
      the table. */
  ghost predicate WorldAccounted(w: World) {
    && (forall id :: id in w.accounts ==> AllAccounted(w.accounts[id]))
    && (forall k :: 0 <= k < |w.retired| ==> AllDelivered(w.retired[k]))
  }

  ghost predicate AllDelivered(dropped: map<string, Account>) {
    forall id :: id in dropped ==> dropped[id].delivered == RecordsOf(dropped[id].verified)
  }

  /** The step completes a verification over a waiting record, or cuts one off. */
  predicate TickLoses(w: World, st: Step)
    requires Can(w, st)
  {
    var eff := EffectOf(w, st);
    eff.Effect? && eff.id in w.accounts && Loses(w.accounts[eff.id], eff.act) > 0
  }

  /** The enumeration drops a machine whose record still waits. */
  predicate DropLoses(w: World, st: Step) {
    st.Enumerated? && exists id :: id in Dropped(w.accounts, st.ids) && w.accounts[id].fsm.pending.Some?
  }

  predicate LosesNothing(cfg: Config, w: World, steps: seq<Step>) {
    steps == [] || (
      var init, st := steps[..|steps| - 1], steps[|steps| - 1];
      var v := WorldRun(cfg, w, init);
      LosesNothing(cfg, w, init) && (Can(v, st) ==> !TickLoses(v, st) && !DropLoses(v, st)))
  }

  // ---------- one account ----------

  function Deficit(a: Account): int { |RecordsOf(a.verified)| - |a.delivered| - |PendingSeq(a.fsm)| }

  lemma TraceableBalance(p: Settings, a: Account)
    requires Traceable(p, a)
    ensures Deficit(a) >= 0 && (Deficit(a) == 0 <==> AllAccounted(a))
  {
    var start: Time, acts :| start > 0 && Legal(p, Fresh(start), acts) && a == Run(p, Fresh(start), acts);
    RecordsBalance(p, start, acts);
    assert AllAccounted(a) ==> |a.delivered + PendingSeq(a.fsm)| == |RecordsOf(a.verified)|;
  }

  lemma ApplyBalances(p: Settings, a: Account, act: Action)
    requires Traceable(p, a) && Enabled(a, act)
    ensures AllAccounted(Apply(p, a, act)) <==> AllAccounted(a) && Loses(a, act) == 0
  {
    TraceableBalance(p, a);
    TraceableStep(p, a, act);
    TraceableBalance(p, Apply(p, a, act));
    StepBalances(p, a, act);
  }

  /** A machine leaves nothing behind exactly when all is accounted for and nothing waits. */
  lemma RetiresClean(p: Settings, a: Account)
    requires Traceable(p, a)
    ensures a.delivered == RecordsOf(a.verified) <==> AllAccounted(a) && a.fsm.pending.None?
  {
    TraceableBalance(p, a);
    if a.fsm.pending.None? { assert a.delivered + PendingSeq(a.fsm) == a.delivered; }
  }

  // ---------- one step ----------

  lemma EffectBalances(cfg: Config, w: World, st: Step)
    requires Safe(cfg, w) && Can(w, st) && EffectOf(w, st).Effect?
    ensures WorldAccounted(Do(cfg, w, st)) <==> WorldAccounted(w) && !TickLoses(w, st)
  {
    var id, act := EffectOf(w, st).id, EffectOf(w, st).act;
    EffectsAreEnabled(cfg, w, st);
    EffectControl(w, st);
    ApplyBalances(SettingsOf(cfg, id), w.accounts[id], act);
    var v := Do(cfg, w, st);
    assert v.accounts == w.accounts[id := Apply(SettingsOf(cfg, id), w.accounts[id], act)];
    AccountedUpdate(w.accounts, id, v.accounts[id]);
  }

  ghost predicate Accounted(accounts: map<string, Account>) {
    forall id :: id in accounts ==> AllAccounted(accounts[id])
  }

  lemma AccountedUpdate(accounts: map<string, Account>, id: string, b: Account)
    requires id in accounts && (AllAccounted(b) ==> AllAccounted(accounts[id]))
    ensures Accounted(accounts[id := b]) <==> Accounted(accounts) && AllAccounted(b)
  {
    var after := accounts[id := b];
    if Accounted(after) {
      assert AllAccounted(after[id]);
      forall j | j in accounts ensures AllAccounted(accounts[j]) {
        if j != id { assert AllAccounted(after[j]); }
      }
    }
  }

  lemma EnumeratedBalances(cfg: Config, w: World, ids: seq<string>)
    requires Safe(cfg, w) && Can(w, Enumerated(ids))
    ensures WorldAccounted(Do(cfg, w, Enumerated(ids))) <==> WorldAccounted(w) && !DropLoses(w, Enumerated(ids))
  {
    var v, gone := Do(cfg, w, Enumerated(ids)), Dropped(w.accounts, ids);
    EnumeratedAccounts(w, ids);
    assert v.accounts == Kept(w.accounts, ids) && v.retired == w.retired + [gone];
    assert v.retired[|w.retired|] == gone;
    forall id | id in gone ensures gone[id].delivered == RecordsOf(gone[id].verified) <==>
      AllAccounted(w.accounts[id]) && w.accounts[id].fsm.pending.None?
    {
      RetiresClean(SettingsOf(cfg, id), w.accounts[id]);
    }
    if WorldAccounted(v) {
      forall id | id in w.accounts ensures AllAccounted(w.accounts[id]) {
        if id in v.accounts { assert AllAccounted(v.accounts[id]); } else { assert id in gone; }
      }
      forall k | 0 <= k < |w.retired| ensures AllDelivered(w.retired[k]) {
        assert v.retired[k] == w.retired[k];
      }
    }
  }

  lemma EnsureBalances(w: World, loaded: bool)
    requires Can(w, EnsureOne(loaded))
    ensures Accounted(Control(w, EnsureOne(loaded)).accounts) <==> Accounted(w.accounts)
  {
    var id := w.pc.todo[0];
    EnsureAccounts(w, loaded);
    if id !in w.accounts && loaded {
      assert AllAccounted(Fresh(w.clock));
      var after := w.accounts[id := Fresh(w.clock)];
      if Accounted(after) {
        forall j | j in w.accounts ensures AllAccounted(w.accounts[j]) { assert AllAccounted(after[j]); }
      }
    }
  }

  lemma QuietBalances(w: World, st: Step)
    requires Can(w, st) && EffectOf(w, st).NoEffect? && !st.Enumerated?
    ensures WorldAccounted(Control(w, st)) <==> WorldAccounted(w)
  {
    if st.EnsureOne? { EnsureBalances(w, st.loaded); } else { OtherTables(w, st); }
  }

  /** A step leaves everything accounted for exactly when everything was and it loses nothing. */
  lemma StepAccounts(cfg: Config, w: World, st: Step)
    requires Safe(cfg, w) && Can(w, st)
    ensures WorldAccounted(Do(cfg, w, st)) <==> WorldAccounted(w) && !TickLoses(w, st) && !DropLoses(w, st)
  {
    if st.Enumerated? { EnumeratedBalances(cfg, w, st.ids); }
    else if EffectOf(w, st).Effect? { OtherTables(w, st); EffectBalances(cfg, w, st); }
    else { QuietBalances(w, st); }
  }

  // ---------- every schedule ----------

  /** Under every schedule, each record of each machine the worker ever had is delivered once
      and in order, or still waits in a machine of the table, if and only if no verification
      completed over a waiting record, no log call panicked on one, and no enumeration dropped
      a machine with its record waiting. */
  lemma {:induction false} WorldDeliversExactlyOnce(cfg: Config, now: Time, steps: seq<Step>)
    requires now > 0
    ensures WorldAccounted(WorldRun(cfg, Initial(now, cfg), steps)) <==> LosesNothing(cfg, Initial(now, cfg), steps)
  {
    if steps == [] {
    } else {
      var init, st := steps[..|steps| - 1], steps[|steps| - 1];
      WorldDeliversExactlyOnce(cfg, now, init);
      WorkerIsSafe(cfg, now, init);
      var v := WorldRun(cfg, Initial(now, cfg), init);
      if Can(v, st) { StepAccounts(cfg, v, st); }
    }
  }

  lemma {:induction false} LosesNothingBefore(cfg: Config, w: World, steps: seq<Step>, more: seq<Step>)
    requires LosesNothing(cfg, w, steps + more)
    ensures LosesNothing(cfg, w, steps)
  {
    if more == [] {
      assert steps + more == steps;
    } else {
      assert (steps + more)[..|steps + more| - 1] == steps + more[..|more| - 1];
      LosesNothingBefore(cfg, w, steps, more[..|more| - 1]);
    }
  }

  /** What is lost is lost for good. */
  lemma WorldLossIsFinal(cfg: Config, now: Time, steps: seq<Step>, more: seq<Step>)
    requires now > 0 && !WorldAccounted(WorldRun(cfg, Initial(now, cfg), steps))
    ensures !WorldAccounted(WorldRun(cfg, Initial(now, cfg), steps + more))
  {
    WorldDeliversExactlyOnce(cfg, now, steps);
    WorldDeliversExactlyOnce(cfg, now, steps + more);
    if LosesNothing(cfg, Initial(now, cfg), steps + more) { LosesNothingBefore(cfg, Initial(now, cfg), steps, more); }
  }

  // ---------- without late panics ----------

  predicate LatePanicked(st: Step) {
    st == SyncPanicked(false) || (st.TickPanicked? && st.point.InLog?)
  }

  ghost predicate SyncedUp(w: World) {
    forall id :: id in w.accounts ==> WaitsOnlyForSync(w.accounts[id])
  }

  lemma ApplyKeepsSyncedUp(p: Settings, a: Account, act: Action)
    requires Enabled(a, act) && WaitsOnlyForSync(a) && act != SyncPanic(false)
    ensures WaitsOnlyForSync(Apply(p, a, act))
    ensures act.Tick? ==> Loses(a, act) == 0
  {
  }

  lemma OnlyTicksLose(a: Account, act: Action)
    ensures Loses(a, act) > 0 ==> act.Tick? || (act.TickPanic? && act.point.InLog?)
  {
  }

  lemma EffectIsNotLate(w: World, st: Step)
    requires Can(w, st) && EffectOf(w, st).Effect? && !LatePanicked(st)
    ensures var act := EffectOf(w, st).act; act != SyncPanic(false) && !(act.TickPanic? && act.point.InLog?)
  {
  }

  lemma EffectKeepsSyncedUp(cfg: Config, w: World, st: Step)
    requires Safe(cfg, w) && Can(w, st) && SyncedUp(w) && !LatePanicked(st) && EffectOf(w, st).Effect?
    ensures SyncedUp(Do(cfg, w, st)) && !TickLoses(w, st)
  {
    var id, act := EffectOf(w, st).id, EffectOf(w, st).act;
    EffectsAreEnabled(cfg, w, st);
    EffectControl(w, st);
    EffectIsNotLate(w, st);
    ApplyKeepsSyncedUp(SettingsOf(cfg, id), w.accounts[id], act);
    OnlyTicksLose(w.accounts[id], act);
  }

  lemma QuietKeepsSyncedUp(w: World, st: Step)
    requires Can(w, st) && SyncedUp(w) && EffectOf(w, st).NoEffect?
    ensures SyncedUp(Control(w, st))
  {
    QuietControl(w, st);
  }

  /** The loop enumerates between two ticks, when nothing waits. */
  lemma DropsNothingWaiting(cfg: Config, w: World, st: Step)
    requires Safe(cfg, w) && Can(w, st) && SyncedUp(w)
    ensures !DropLoses(w, st)
  {
  }

  lemma StepKeepsSyncedUp(cfg: Config, w: World, st: Step)
    requires Safe(cfg, w) && Can(w, st) && SyncedUp(w) && !LatePanicked(st)
    ensures SyncedUp(Do(cfg, w, st)) && !TickLoses(w, st) && !DropLoses(w, st)
  {
    DropsNothingWaiting(cfg, w, st);
    if EffectOf(w, st).Effect? { EffectKeepsSyncedUp(cfg, w, st); } else { QuietKeepsSyncedUp(w, st); }
  }

  lemma {:induction false} RunKeepsSyncedUp(cfg: Config, now: Time, steps: seq<Step>)
    requires now > 0 && forall i :: 0 <= i < |steps| ==> !LatePanicked(steps[i])
    ensures SyncedUp(WorldRun(cfg, Initial(now, cfg), steps)) && LosesNothing(cfg, Initial(now, cfg), steps)
  {
    if steps == [] {
    } else {
      var init, st := steps[..|steps| - 1], steps[|steps| - 1];
      RunKeepsSyncedUp(cfg, now, init);
      WorkerIsSafe(cfg, now, init);
      var v := WorldRun(cfg, Initial(now, cfg), init);
      if Can(v, st) { StepKeepsSyncedUp(cfg, v, st); }
    }
  }

  /** Without a panicking log call and without a sync that panics before it takes the record,
      no schedule loses anything: not even the enumerations, for nothing ever waits in them. */
  lemma OnlyLatePanicsLoseInWorld(cfg: Config, now: Time, steps: seq<Step>)
    requires now > 0 && forall i :: 0 <= i < |steps| ==> !LatePanicked(steps[i])
    ensures var w := WorldRun(cfg, Initial(now, cfg), steps);
      && WorldAccounted(w)
      && forall id :: id in w.accounts && !(w.pc.Syncing? && w.pc.id == id) ==>
           w.accounts[id].delivered == RecordsOf(w.accounts[id].verified)
  {
    RunKeepsSyncedUp(cfg, now, steps);
    WorldDeliversExactlyOnce(cfg, now, steps);
    WorkerIsSafe(cfg, now, steps);
    var w := WorldRun(cfg, Initial(now, cfg), steps);
    forall id | id in w.accounts && !(w.pc.Syncing? && w.pc.id == id)
      ensures w.accounts[id].delivered == RecordsOf(w.accounts[id].verified)
    {
      RetiresClean(SettingsOf(cfg, id), w.accounts[id]);
    }
  }

  // ---------- a record dropped with its machine ----------

  /** The one machine there is, "a", is what acts make of it, and none has been dropped. */
  ghost predicate OnlyOne(cfg: Config, now: Time, w: World, acts: seq<Action>) {
    && w.check.Free? && w.wildcard && w.retired == [map[]]
    && w.accounts == map["a" := Run(SettingsOf(cfg, "a"), Fresh(now), acts)]
  }

  lemma AskedAndListed(cfg: Config, now: Time, w: World)
    requires w.pc.Ensuring? && w.pc == Ensuring([], Starting) && w.wildcard && w.lastResolve == NO_TIME && w.check.Free?
    requires w.accounts == map[] && w.missing == map[]
    ensures WorldRun(cfg, w, [EnsureDone, ResolveOrSkip] + [Enumerated(["a"])]) ==
      w.(lastResolve := w.clock, queries := w.queries + [w.clock], resolved := ["a"],
         retired := w.retired + [map[]], pc := Scan)
  {
    RunTwo(cfg, w, EnsureDone, ResolveOrSkip);
    WorldSnoc(cfg, w, [EnsureDone, ResolveOrSkip], Enumerated(["a"]));
  }

  lemma MissingToEnsured(cfg: Config, w: World)
    requires w.pc.Scan? && w.check.Free? && w.resolved == ["a"] && w.accounts == map[] && w.missing == map[]
    ensures WorldRun(cfg, w, [ScanMissing, EnsureOne(true)]) ==
      w.(accounts := map["a" := Fresh(w.clock)], pc := Ensuring([], Retrying))
  {
    assert w.accounts.Keys == {} && RetryList(["a"], {}, map[], w.clock) == ["a"];
    var asked := w.(pc := Ensuring(["a"], Retrying));
    assert Do(cfg, w, ScanMissing) == asked;
    assert w.missing - {"a"} == w.missing && w.accounts["a" := Fresh(w.clock)] == map["a" := Fresh(w.clock)];
    assert ["a"][0] == "a" && ["a"][1..] == [];
    assert Do(cfg, asked, EnsureOne(true)) == w.(accounts := map["a" := Fresh(w.clock)], pc := Ensuring([], Retrying));
    RunTwo(cfg, w, ScanMissing, EnsureOne(true));
  }

  lemma EnsuredToForced(cfg: Config, w: World)
    requires w.pc == Ensuring([], Retrying) && w.check.Free? && w.accounts == map["a" := Fresh(w.clock)]
    ensures var v := WorldRun(cfg, w, [EnsureDone, ForceAccount("a")]);
      v == w.(nudges := v.nudges, pc := Pick,
              accounts := map["a" := Apply(SettingsOf(cfg, "a"), Fresh(w.clock), Force(w.clock))])
  {
    RunTwo(cfg, w, EnsureDone, ForceAccount("a"));
  }

  /** From the start of a worker that serves every listed account, to a manual reset of "a". */
  lemma ListedAndForced(cfg: Config, now: Time) returns (steps: seq<Step>)
    requires now > 0 && EnablesAll(cfg.enabledAccounts)
    ensures var w := WorldRun(cfg, Initial(now, cfg), steps);
      w.pc.Pick? && w.clock == now && OnlyOne(cfg, now, w, [Force(now)])
  {
    var w0 := Initial(now, cfg);
    var s1, s2 := [EnsureDone, ResolveOrSkip] + [Enumerated(["a"])], [ScanMissing, EnsureOne(true)];
    AskedAndListed(cfg, now, w0);
    MissingToEnsured(cfg, WorldRun(cfg, w0, s1));
    RunAppend(cfg, w0, s1, s2);
    EnsuredToForced(cfg, WorldRun(cfg, w0, s1 + s2));
    RunAppend(cfg, w0, s1 + s2, [EnsureDone, ForceAccount("a")]);
    steps := s1 + s2 + [EnsureDone, ForceAccount("a")];
    assert [Force(now)][..0] == [];
  }

  lemma OnlyIsDue(cfg: Config, now: Time, w: World, acts: seq<Action>, st: State, id: string)
    requires OnlyOne(cfg, now, w, acts) && CleanAt(SettingsOf(cfg, "a"), now, acts, st, w.clock)
    requires id != "" && id !in Run(SettingsOf(cfg, "a"), Fresh(now), acts).minted
    ensures CanPick(w.accounts, "a") && w.accounts["a"].fsm.nextWake <= w.clock
    ensures Due(w.accounts["a"], AnswersAt(w.clock, id))
  {
  }

  lemma TickedOnce(cfg: Config, now: Time, w: World, v: World, acts: seq<Action>, e: Env)
    requires now > 0 && OnlyOne(cfg, now, w, acts) && Due(w.accounts["a"], e)
    requires Legal(SettingsOf(cfg, "a"), Fresh(now), acts)
    requires v.check.Free? && v.wildcard && v.retired == w.retired
    requires v.accounts == w.accounts["a" := TickAndSync(SettingsOf(cfg, "a"), w.accounts["a"], e)]
    ensures OnlyOne(cfg, now, v, acts + Clean(e))
  {
    CleanTick(SettingsOf(cfg, "a"), now, acts, e);
  }

  /** A tick whose answers are good, and its sync. */
  lemma CleanRound(cfg: Config, now: Time, w: World, acts: seq<Action>, st: State, id: string) returns (steps: seq<Step>)
    requires now > 0 && (w.pc.Top? || w.pc.Pick?) && OnlyOne(cfg, now, w, acts)
    requires CleanAt(SettingsOf(cfg, "a"), now, acts, st, w.clock)
    requires id != "" && id !in Run(SettingsOf(cfg, "a"), Fresh(now), acts).minted
    ensures var v := WorldRun(cfg, w, steps);
      v.pc.Top? && v.clock == w.clock && OnlyOne(cfg, now, v, acts + Clean(AnswersAt(w.clock, id)))
  {
    var e := AnswersAt(w.clock, id);
    OnlyIsDue(cfg, now, w, acts, st, id);
    if w.pc.Top? { steps := Round(cfg, w, "a", e); } else { steps := PickRound(cfg, w, "a", e); }
    TickedOnce(cfg, now, w, WorldRun(cfg, w, steps), acts, e);
  }

  /** A tick whose sync panics before it takes the record, and the recovery. */
  lemma BumpyRound(cfg: Config, now: Time, w: World, acts: seq<Action>, id: string) returns (steps: seq<Step>)
    requires now > 0 && w.pc.Top? && OnlyOne(cfg, now, w, acts)
    requires CleanAt(SettingsOf(cfg, "a"), now, acts, Verifying, w.clock)
    requires id != "" && id !in Run(SettingsOf(cfg, "a"), Fresh(now), acts).minted
    ensures var v := WorldRun(cfg, w, steps);
      v.pc.Top? && v.clock == w.clock && OnlyOne(cfg, now, v, acts + Bumpy(AnswersAt(w.clock, id)))
  {
    var e := AnswersAt(w.clock, id);
    var bumpy := [RunTick(e)] + [SyncPanicked(false), RecoverPanic];
    OnlyIsDue(cfg, now, w, acts, Verifying, id);
    BumpyRun(SettingsOf(cfg, "a"), now, acts, e);
    steps := TopToTick(cfg, w, "a");
    TickThenPanic(cfg, WorldRun(cfg, w, steps), e);
    RunAppend(cfg, w, steps, bumpy);
    steps := steps + bumpy;
  }

  lemma BumpyRun(p: Settings, start: Time, acts: seq<Action>, e: Env)
    ensures Run(p, Fresh(start), acts + Bumpy(e)) == TickAndRecover(p, Run(p, Fresh(start), acts), e)
  {
    RunSnoc(p, Fresh(start), acts, Tick(e));
    RunSnoc(p, Fresh(start), acts + [Tick(e)], SyncPanic(false));
    RunSnoc(p, Fresh(start), acts + [Tick(e)] + [SyncPanic(false)], Recover(e.later));
    assert acts + Bumpy(e) == acts + [Tick(e)] + [SyncPanic(false)] + [Recover(e.later)];
  }

  /** The record waits in an IDLE machine. */
  lemma VerifiedUnsynced(p: Settings, start: Time, acts: seq<Action>, wake: Time)
    requires start > 0 && CleanAt(p, start, acts, Verifying, wake)
    ensures var a := Run(p, Fresh(start), acts + Bumpy(AnswersAt(wake, "spare")));
      a.fsm.state.Idle? && a.fsm.pending.Some? && |a.verified| == 1 && a.delivered == [] && AllAccounted(a)
  {
    var e := AnswersAt(wake, "spare");
    BumpyRun(p, start, acts, e);
    TickAccounts(p, Run(p, Fresh(start), acts), e);
    RecordsSnoc([], Verify(p, Run(p, Fresh(start), acts).fsm, e));
  }

  /** The next enumeration no longer lists the account. */
  lemma Unlisted(cfg: Config, w: World)
    requires w.pc.Top? && w.check.Free? && w.wildcard && w.lastResolve <= w.clock
    ensures var steps := [Advance(w.clock + WILDCARD_RESOLVE), ResolveOrSkip] + [Enumerated([])];
      WorldRun(cfg, w, steps).retired == w.retired + [Dropped(w.accounts, [])]
  {
    var later := w.clock + WILDCARD_RESOLVE;
    RunTwo(cfg, w, Advance(later), ResolveOrSkip);
    WorldSnoc(cfg, w, [Advance(later), ResolveOrSkip], Enumerated([]));
  }

  lemma AcceptedOnce(cfg: Config, now: Time) returns (steps: seq<Step>, acts: seq<Action>)
    requires now > 0 && EnablesAll(cfg.enabledAccounts)
    ensures var w := WorldRun(cfg, Initial(now, cfg), steps);
      w.pc.Top? && OnlyOne(cfg, now, w, acts) && CleanAt(SettingsOf(cfg, "a"), now, acts, Verifying, w.clock)
  {
    var p, w0 := SettingsOf(cfg, "a"), Initial(now, cfg);
    acts := [Force(now)] + Clean(AnswersAt(now, "key"));
    ForcedClean(p, now);
    ConfirmedClean(p, now, [Force(now)], now);
    AcceptedClean(p, now, acts, now);
    steps := ListedAndForced(cfg, now);
    var more := CleanRound(cfg, now, WorldRun(cfg, w0, steps), [Force(now)], Confirming, "key");
    RunAppend(cfg, w0, steps, more);
    steps := steps + more;
    more := CleanRound(cfg, now, WorldRun(cfg, w0, steps), acts, Resetting, "spare");
    RunAppend(cfg, w0, steps, more);
    steps := steps + more;
    acts := acts + Clean(AnswersAt(now, "spare"));
    RunOne(cfg, WorldRun(cfg, w0, steps), Advance(now + VERIFY_DELAY));
    RunAppend(cfg, w0, steps, [Advance(now + VERIFY_DELAY)]);
    steps := steps + [Advance(now + VERIFY_DELAY)];
  }

  /** One manual cycle that the POST and both verification fetches complete, and no log call
      panics; its sync panics before it takes the record, and the next enumeration no longer
      lists the account: the record goes with the machine, for good. */
  lemma DropLosesRecord(cfg: Config, now: Time) returns (steps: seq<Step>)
    requires now > 0 && EnablesAll(cfg.enabledAccounts)
    ensures var gone := WorldRun(cfg, Initial(now, cfg), steps).retired;
      && |gone| == 2 && gone[1].Keys == {"a"}
      && var a := gone[1]["a"];
      && AllAccounted(a) && a.fsm.pending.Some? && |a.verified| == 1 && a.delivered == []
    ensures forall more :: !WorldAccounted(WorldRun(cfg, Initial(now, cfg), steps + more))
  {
    var p, w0, acts := SettingsOf(cfg, "a"), Initial(now, cfg), [];
    steps, acts := AcceptedOnce(cfg, now);
    var w := WorldRun(cfg, w0, steps);
    VerifiedUnsynced(p, now, acts, w.clock);
    var more := BumpyRound(cfg, now, w, acts, "spare");
    RunAppend(cfg, w0, steps, more);
    steps := steps + more;
    w := WorldRun(cfg, w0, steps);
    RunKeepsTables(cfg, now, steps);
    Unlisted(cfg, w);
    more := [Advance(w.clock + WILDCARD_RESOLVE), ResolveOrSkip] + [Enumerated([])];
    RunAppend(cfg, w0, steps, more);
    steps := steps + more;
    assert Dropped(w.accounts, []) == w.accounts;
    var gone := WorldRun(cfg, w0, steps).retired;
    assert gone == [map[], w.accounts];
    DroppedForEver(cfg, now, steps, 1, "a");
  }

  lemma DroppedForEver(cfg: Config, now: Time, steps: seq<Step>, k: nat, id: string)
    requires now > 0
    requires var gone := WorldRun(cfg, Initial(now, cfg), steps).retired;
      k < |gone| && id in gone[k] && gone[k][id].delivered == [] && |gone[k][id].verified| == 1
    ensures forall more :: !WorldAccounted(WorldRun(cfg, Initial(now, cfg), steps + more))
  {
    var w := WorldRun(cfg, Initial(now, cfg), steps);
    assert !AllDelivered(w.retired[k]);
    forall more ensures !WorldAccounted(WorldRun(cfg, Initial(now, cfg), steps + more)) {
      WorldLossIsFinal(cfg, now, steps, more);
    }
  }
}
