// How the loop comes round to an account: the steps from its top to a tick, in any world.

module WorkerRounds {
  import opened Models
  import opened Machine
  import opened Account
  import opened Progress
  import opened Worker
  import opened WorkerSchedule

  /** Only the books of the retry pass and of the host queries may differ. */
  predicate SameButBooks(v: World, w: World, pc: Pc) {
    v == w.(pc := pc, missing := v.missing, lastResolve := v.lastResolve, queries := v.queries)
  }

  lemma RunTwo(cfg: Config, w: World, a: Step, b: Step)
    requires Can(w, a) && Can(Do(cfg, w, a), b)
    ensures WorldRun(cfg, w, [a, b]) == Do(cfg, Do(cfg, w, a), b)
  {
    WorldSnoc(cfg, w, [], a);
    WorldSnoc(cfg, w, [a], b);
    assert [] + [a] == [a] && [a] + [b] == [a, b];
  }

  lemma RunOne(cfg: Config, w: World, a: Step)
    requires Can(w, a)
    ensures WorldRun(cfg, w, [a]) == Do(cfg, w, a)
  {
    WorldSnoc(cfg, w, [], a);
    assert [] + [a] == [a];
  }

  /** From the top to the retry pass: skip the enumeration, or let it fail. */
  lemma TopToScan(cfg: Config, w: World) returns (steps: seq<Step>)
    requires w.pc.Top? && w.check.Free?
    ensures SameButBooks(WorldRun(cfg, w, steps), w, Scan)
  {
    steps := [ResolveOrSkip];
    RunOne(cfg, w, ResolveOrSkip);
    var v := Do(cfg, w, ResolveOrSkip);
    if v.pc.Enumerating? {
      steps := [ResolveOrSkip, EnumerationFailed];
      RunTwo(cfg, w, ResolveOrSkip, EnumerationFailed);
    }
  }

  /** The pass over absent accounts, every load failing. */
  lemma {:induction false} FailEach(cfg: Config, w: World) returns (steps: seq<Step>)
    requires w.pc.Ensuring? && w.check.Free?
    ensures SameButBooks(WorldRun(cfg, w, steps), w, Ensuring([], w.pc.pass))
    decreases |w.pc.todo|
  {
    if w.pc.todo == [] {
      steps := [];
    } else if w.pc.todo[0] in w.accounts {
      var v := Do(cfg, w, EnsureOne(true));
      assert v == w.(pc := Ensuring(w.pc.todo[1..], w.pc.pass));
      var rest := FailEach(cfg, v);
      RunOne(cfg, w, EnsureOne(true));
      RunAppend(cfg, w, [EnsureOne(true)], rest);
      steps := [EnsureOne(true)] + rest;
    } else {
      var v := Do(cfg, w, EnsureOne(false));
      assert SameButBooks(v, w, Ensuring(w.pc.todo[1..], w.pc.pass));
      var rest := FailEach(cfg, v);
      RunOne(cfg, w, EnsureOne(false));
      RunAppend(cfg, w, [EnsureOne(false)], rest);
      steps := [EnsureOne(false)] + rest;
    }
  }

  lemma ScanToPick(cfg: Config, w: World) returns (steps: seq<Step>)
    requires w.pc.Scan? && w.check.Free?
    ensures SameButBooks(WorldRun(cfg, w, steps), w, Pick)
  {
    var v := Do(cfg, w, ScanMissing);
    RunOne(cfg, w, ScanMissing);
    var pass := FailEach(cfg, v);
    var u := WorldRun(cfg, v, pass);
    RunAppend(cfg, w, [ScanMissing], pass);
    RunOne(cfg, u, EnsureDone);
    RunAppend(cfg, w, [ScanMissing] + pass, [EnsureDone]);
    steps := [ScanMissing] + pass + [EnsureDone];
  }

  lemma TopToPick(cfg: Config, w: World) returns (steps: seq<Step>)
    requires w.pc.Top? && w.check.Free?
    ensures SameButBooks(WorldRun(cfg, w, steps), w, Pick)
  {
    var first := TopToScan(cfg, w);
    var second := ScanToPick(cfg, WorldRun(cfg, w, first));
    RunAppend(cfg, w, first, second);
    steps := first + second;
  }

  function ToTick(id: string): seq<Step> { [PickSoonest(id), SleepOrStep] + [CredentialsLoaded] }

  lemma DoPickAndStep(cfg: Config, w: World, id: string)
    requires Can(w, PickSoonest(id)) && w.accounts[id].fsm.nextWake <= w.clock
    ensures var v := Do(cfg, w, PickSoonest(id)); Can(v, SleepOrStep) && Do(cfg, v, SleepOrStep) == w.(pc := Loading(id, w.clock))
  {
    assert Do(cfg, w, PickSoonest(id)) == w.(pc := Picked(id, w.accounts[id].fsm.nextWake));
  }

  lemma PickToTick(cfg: Config, w: World, id: string)
    requires w.pc.Pick? && w.check.Free? && CanPick(w.accounts, id) && w.accounts[id].fsm.nextWake <= w.clock
    ensures WorldRun(cfg, w, ToTick(id)) == w.(pc := Ticking(id, w.clock))
  {
    DoPickAndStep(cfg, w, id);
    RunTwo(cfg, w, PickSoonest(id), SleepOrStep);
    WorldSnoc(cfg, w, [PickSoonest(id), SleepOrStep], CredentialsLoaded);
  }

  /** From the top to the tick of any account the search can return and that is due. */
  lemma TopToTick(cfg: Config, w: World, id: string) returns (steps: seq<Step>)
    requires w.pc.Top? && w.check.Free? && CanPick(w.accounts, id) && w.accounts[id].fsm.nextWake <= w.clock
    ensures SameButBooks(WorldRun(cfg, w, steps), w, Ticking(id, w.clock))
  {
    var first := TopToPick(cfg, w);
    var v := WorldRun(cfg, w, first);
    PickToTick(cfg, v, id);
    RunAppend(cfg, w, first, ToTick(id));
    steps := first + ToTick(id);
  }

  lemma DoTick(cfg: Config, w: World, e: Env)
    requires Can(w, RunTick(e)) && w.pc.id in w.accounts
    ensures Do(cfg, w, RunTick(e)) == w.(pc := Syncing(w.pc.id),
      accounts := w.accounts[w.pc.id := Apply(SettingsOf(cfg, w.pc.id), w.accounts[w.pc.id], Tick(e))])
  {
  }

  /** A tick and its state sync. */
  lemma TickThenSync(cfg: Config, w: World, e: Env)
    requires w.pc.Ticking? && w.pc.id in w.accounts && Can(w, RunTick(e))
    ensures WorldRun(cfg, w, [RunTick(e), Synced]) ==
      w.(pc := Top, accounts := w.accounts[w.pc.id := TickAndSync(SettingsOf(cfg, w.pc.id), w.accounts[w.pc.id], e)])
  {
    DoTick(cfg, w, e);
    RunTwo(cfg, w, RunTick(e), Synced);
  }

  lemma DoSyncPanic(cfg: Config, w: World)
    requires w.pc.Syncing? && w.pc.id in w.accounts
    ensures Do(cfg, w, SyncPanicked(false)) == w.(pc := Pc.Recovering(w.pc.id),
      accounts := w.accounts[w.pc.id := Apply(SettingsOf(cfg, w.pc.id), w.accounts[w.pc.id], SyncPanic(false))])
  {
  }

  lemma DoRecover(cfg: Config, w: World)
    requires w.pc.Recovering? && w.pc.id in w.accounts && w.check.Free?
    ensures Do(cfg, w, RecoverPanic) == w.(pc := Top,
      accounts := w.accounts[w.pc.id := Apply(SettingsOf(cfg, w.pc.id), w.accounts[w.pc.id], Recover(w.clock))])
  {
  }

  function TickAndRecover(p: Settings, a: Account, e: Env): Account {
    Apply(p, Apply(p, Apply(p, a, Tick(e)), SyncPanic(false)), Recover(e.later))
  }

  lemma PanicThenRecover(cfg: Config, w: World)
    requires w.pc.Syncing? && w.pc.id in w.accounts && w.check.Free?
    ensures var id, p := w.pc.id, SettingsOf(cfg, w.pc.id);
      WorldRun(cfg, w, [SyncPanicked(false), RecoverPanic]) == w.(pc := Top,
        accounts := w.accounts[id := Apply(p, Apply(p, w.accounts[id], SyncPanic(false)), Recover(w.clock))])
  {
    DoSyncPanic(cfg, w);
    DoRecover(cfg, Do(cfg, w, SyncPanicked(false)));
    RunTwo(cfg, w, SyncPanicked(false), RecoverPanic);
  }

  /** A tick whose sync panics before it takes the record, and the recovery. */
  lemma TickThenPanic(cfg: Config, w: World, e: Env)
    requires w.pc.Ticking? && w.pc.id in w.accounts && w.check.Free? && Can(w, RunTick(e))
    ensures WorldRun(cfg, w, [RunTick(e)] + [SyncPanicked(false), RecoverPanic]) ==
      w.(pc := Top, accounts := w.accounts[w.pc.id :=
           TickAndRecover(SettingsOf(cfg, w.pc.id), w.accounts[w.pc.id], e)])
  {
    DoTick(cfg, w, e);
    RunOne(cfg, w, RunTick(e));
    PanicThenRecover(cfg, Do(cfg, w, RunTick(e)));
    RunAppend(cfg, w, [RunTick(e)], [SyncPanicked(false), RecoverPanic]);
  }

  /** A round from the search: over the tick and its sync, to the top. */
  lemma PickRound(cfg: Config, w: World, id: string, e: Env) returns (steps: seq<Step>)
    requires w.pc.Pick? && w.check.Free? && CanPick(w.accounts, id) && w.accounts[id].fsm.nextWake <= w.clock
    requires e.now == e.later == w.clock && Due(w.accounts[id], e)
    ensures WorldRun(cfg, w, steps) ==
      w.(pc := Top, accounts := w.accounts[id := TickAndSync(SettingsOf(cfg, id), w.accounts[id], e)])
  {
    PickToTick(cfg, w, id);
    TickThenSync(cfg, w.(pc := Ticking(id, w.clock)), e);
    RunAppend(cfg, w, ToTick(id), [RunTick(e), Synced]);
    steps := ToTick(id) + [RunTick(e), Synced];
  }

  /** A whole round: from the top, over a tick and its sync, back to the top. */
  lemma Round(cfg: Config, w: World, id: string, e: Env) returns (steps: seq<Step>)
    requires w.pc.Top? && w.check.Free? && CanPick(w.accounts, id) && w.accounts[id].fsm.nextWake <= w.clock
    requires e.now == e.later == w.clock && Due(w.accounts[id], e)
    ensures var a := TickAndSync(SettingsOf(cfg, id), w.accounts[id], e);
      SameButBooks(WorldRun(cfg, w, steps), w.(accounts := w.accounts[id := a]), Top)
  {
    var first := TopToPick(cfg, w);
    var second := PickRound(cfg, WorldRun(cfg, w, first), id, e);
    RunAppend(cfg, w, first, second);
    steps := first + second;
  }
}
