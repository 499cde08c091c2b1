// The backoffs around credentials: when an account whose credentials do not load is tried
// again, and what the tables of the worker hold until then.

module WorkerRetries {
  import opened Models
  import opened Machine
  import opened Account
  import opened Worker
  import opened WorkerSafety
  import opened WorkerSchedule
  import opened WorkerRounds
  import opened WorkerLoops

  const HALF_HOUR: int := 30 * 60 * 1_000_000_000

  // ---------- accounts without a machine ----------

  /** An id is ensured in a pass exactly when it is enabled, has no machine, and its retry
      time, if it has one, has come; as often as it is listed. */
  lemma {:induction false} RetryListIsExact(resolved: seq<string>, present: set<string>, missing: map<string, Time>, now: Time, id: string)
    ensures var tried := id !in present && (id !in missing || missing[id] <= now);
      && multiset(RetryList(resolved, present, missing, now))[id] == (if tried then multiset(resolved)[id] else 0)
      && (id in RetryList(resolved, present, missing, now) <==> id in resolved && tried)
  {
    if resolved == [] {
    } else {
      var init, last := resolved[..|resolved| - 1], resolved[|resolved| - 1];
      RetryListIsExact(init, present, missing, now, id);
      assert resolved == init + [last];
    }
  }

  /** ... in the order of the listing. */
  lemma {:induction false} RetryListKeepsOrder(resolved: seq<string>, more: seq<string>, present: set<string>, missing: map<string, Time>, now: Time)
    ensures RetryList(resolved, present, missing, now) <= RetryList(resolved + more, present, missing, now)
  {
    if more == [] {
      assert resolved + more == resolved;
    } else {
      RetryListKeepsOrder(resolved, more[..|more| - 1], present, missing, now);
      assert (resolved + more)[..|resolved + more| - 1] == resolved + more[..|more| - 1];
    }
  }

  /** Ensuring an id that has a machine does nothing; one that loads gets a machine that is
      IDLE and due now; one that does not is left for half an hour.  No other id is touched. */
  lemma EnsuringAccount(cfg: Config, w: World, loaded: bool)
    requires Can(w, EnsureOne(loaded))
    ensures var id, v := w.pc.todo[0], Do(cfg, w, EnsureOne(loaded));
      && v == w.(accounts := v.accounts, missing := v.missing, pc := Ensuring(w.pc.todo[1..], w.pc.pass))
      && v.accounts - {id} == w.accounts - {id} && v.missing - {id} == w.missing - {id}
      && if id in w.accounts then v.accounts == w.accounts && v.missing == w.missing
         else if loaded then
           && id in v.accounts && id !in v.missing
           && v.accounts[id].fsm == FRESH.(nextWake := w.clock) && v.accounts[id].fsm.state.Idle?
         else
           && id !in v.accounts && id in v.missing && v.missing[id] == w.clock + HALF_HOUR
  {
  }

  /** With no wake to wait for the loop sleeps to the earliest retry, or comes straight back
      when one is due or was never tried; with none to wait for either, a tenth of a second. */
  lemma SleepForMissing(cfg: Config, w: World)
    requires Can(w, MissingDelay)
    ensures var v := Do(cfg, w, MissingDelay);
      && v == w.(pc := v.pc)
      && ((forall id :: !Absent(w, id)) ==> v.pc == Sleeping(w.clock + 100_000_000))
      && ((exists id :: Absent(w, id) && (id !in w.missing || w.missing[id] <= w.clock)) ==> v.pc.Top?)
      && ((exists id :: Absent(w, id)) && (forall id :: Absent(w, id) ==> id in w.missing && w.missing[id] > w.clock) ==>
            && v.pc.Sleeping?
            && (exists id :: Absent(w, id) && v.pc.until == w.missing[id])
            && (forall id :: Absent(w, id) ==> v.pc.until <= w.missing[id]))
  {
    SoonestMissingIsMinimum(w.resolved, w.accounts.Keys, w.missing);
    assert forall id :: Absent(w, id) <==> id in w.resolved && id !in w.accounts.Keys;
  }

  predicate Absent(w: World, id: string) { id in w.resolved && id !in w.accounts }

  // ---------- enumerations ----------

  /** The host is asked only by a worker that serves every account, and not again within a
      minute. */
  lemma AsksHost(cfg: Config, w: World)
    requires Can(w, ResolveOrSkip)
    ensures var v := Do(cfg, w, ResolveOrSkip);
      if w.wildcard && (w.lastResolve == 0 || w.clock >= w.lastResolve + 60 * 1_000_000_000)
      then v == w.(pc := Enumerating, lastResolve := w.clock, queries := w.queries + [w.clock])
      else v == w.(pc := Scan)
  {
  }

  /** What it answers is served from then on: the retry times of ids it no longer lists are
      forgotten, the others and every machine that stays are as they were. */
  lemma ListingReplaces(cfg: Config, w: World, ids: seq<string>)
    requires Can(w, Enumerated(ids))
    ensures var v := Do(cfg, w, Enumerated(ids));
      && v == w.(resolved := ids, accounts := v.accounts, missing := v.missing, retired := v.retired, pc := Scan)
      && (forall id :: id in v.missing <==> id in w.missing && id in ids)
      && (forall id :: id in v.missing ==> v.missing[id] == w.missing[id])
      && (forall id :: id in v.accounts <==> id in w.accounts && (id in ids || w.accounts[id].fsm.state != Idle))
      && (forall id :: id in v.accounts ==> v.accounts[id] == w.accounts[id])
  {
  }

  /** A failed enumeration keeps the accounts served so far. */
  lemma FailedListingKeeps(cfg: Config, w: World)
    requires Can(w, EnumerationFailed)
    ensures Do(cfg, w, EnumerationFailed) == w.(pc := Scan)
  {
  }

  // ---------- the start ----------

  function LoadEach(n: nat): seq<Step> { if n == 0 then [] else [EnsureOne(true)] + LoadEach(n - 1) }

  lemma LoadOne(cfg: Config, w: World)
    requires w.pc.Ensuring? && w.pc.todo != [] && w.check.Free?
    ensures var id, v := w.pc.todo[0], Do(cfg, w, EnsureOne(true));
      && Can(w, EnsureOne(true))
      && v == w.(accounts := v.accounts, missing := v.missing, pc := Ensuring(w.pc.todo[1..], w.pc.pass))
      && v.accounts == if id in w.accounts then w.accounts else w.accounts[id := Fresh(w.clock)]
  {
  }

  /** The new machines are those of ids. */
  ghost predicate Loaded(before: map<string, Account>, after: map<string, Account>, ids: seq<string>, now: Time) {
    && (forall id :: id in after <==> id in before || id in ids)
    && (forall id :: id in after ==> after[id] == if id in before then before[id] else Fresh(now))
  }

  lemma LoadedThen(before: map<string, Account>, after: map<string, Account>, id: string, ids: seq<string>, now: Time)
    requires Loaded(if id in before then before else before[id := Fresh(now)], after, ids, now)
    ensures Loaded(before, after, [id] + ids, now)
  {
  }

  lemma {:induction false} LoadingEach(cfg: Config, w: World)
    requires w.pc.Ensuring? && w.check.Free?
    ensures var v := WorldRun(cfg, w, LoadEach(|w.pc.todo|));
      && v == w.(accounts := v.accounts, missing := v.missing, pc := Ensuring([], w.pc.pass))
      && Loaded(w.accounts, v.accounts, w.pc.todo, w.clock)
    decreases |w.pc.todo|
  {
    if w.pc.todo == [] {
    } else {
      var st, rest := EnsureOne(true), LoadEach(|w.pc.todo| - 1);
      LoadOne(cfg, w);
      LoadingEach(cfg, Do(cfg, w, st));
      RunOne(cfg, w, st);
      RunAppend(cfg, w, [st], rest);
      LoadedThen(w.accounts, WorldRun(cfg, w, [st] + rest).accounts, w.pc.todo[0], w.pc.todo[1..], w.clock);
      assert w.pc.todo == [w.pc.todo[0]] + w.pc.todo[1..];
    }
  }

  /** A worker whose credentials all load starts with a machine, IDLE and due at once, for
      exactly the accounts its configuration names; with the wildcard it starts with none and
      asks the host first. */
  lemma StartsServing(cfg: Config, now: Time)
    ensures var n := if "*" in cfg.enabledAccounts then 0 else |cfg.enabledAccounts|;
      var v := WorldRun(cfg, Initial(now, cfg), LoadEach(n) + [EnsureDone]);
      && v.pc.Top? && v.clock == now && v.lastResolve == 0 && v.wildcard == ("*" in cfg.enabledAccounts)
      && (forall id :: id in v.accounts <==> "*" !in cfg.enabledAccounts && id in cfg.enabledAccounts)
      && (forall id :: id in v.accounts ==> v.accounts[id].fsm.state.Idle? && v.accounts[id].fsm.nextWake == now)
  {
    var w := Initial(now, cfg);
    var loaded := WorldRun(cfg, w, LoadEach(|w.pc.todo|));
    LoadingEach(cfg, w);
    StartDone(cfg, loaded);
    RunOne(cfg, loaded, EnsureDone);
    RunAppend(cfg, w, LoadEach(|w.pc.todo|), [EnsureDone]);
  }

  lemma StartDone(cfg: Config, w: World)
    requires w.pc == Ensuring([], Starting)
    ensures Can(w, EnsureDone) && Do(cfg, w, EnsureDone) == w.(pc := Top)
  {
  }

  // ---------- accounts with a machine ----------

  /** Account id stands at b, and the loop is not busy with it. */
  ghost predicate Rests(w: World, id: string, b: Account) {
    && w.check.Free? && id in w.accounts && w.accounts[id] == b
    && !((w.pc.Loading? || w.pc.Ticking? || w.pc.Syncing? || w.pc.Recovering?) && w.pc.id == id)
    && (w.pc.Picked? && w.pc.id == id ==> w.pc.wake == b.fsm.nextWake)
  }

  predicate LeavesAlone(st: Step, id: string) {
    !st.Enumerated? && !st.CheckBegin? && st != ForceAccount(id)
  }

  lemma EffectLeavesResting(w: World, st: Step, id: string, b: Account)
    requires Rests(w, id, b) && LeavesAlone(st, id) && Can(w, st)
    ensures EffectOf(w, st).NoEffect? || EffectOf(w, st).id != id
  {
  }

  lemma CheckStaysFree(w: World, st: Step)
    requires Can(w, st) && w.check.Free? && !st.CheckBegin?
    ensures Control(w, st).check.Free?
  {
    match st
    case SleepOrStep =>
    case ScanMissing =>
    case _ =>
  }

  lemma PcLeavesResting(w: World, st: Step, id: string, b: Account)
    requires Rests(w, id, b) && LeavesAlone(st, id) && Can(w, st) && w.clock < b.fsm.nextWake
    ensures var pc := Control(w, st).pc;
      && !((pc.Loading? || pc.Ticking? || pc.Syncing? || pc.Recovering?) && pc.id == id)
      && (pc.Picked? && pc.id == id ==> pc.wake == b.fsm.nextWake)
  {
    match st
    case PickSoonest(_) =>
    case SleepOrStep =>
    case ScanMissing =>
    case _ =>
  }

  lemma StepLeavesResting(cfg: Config, w: World, st: Step, id: string, b: Account)
    requires Rests(w, id, b) && LeavesAlone(st, id) && Can(w, st) && w.clock < b.fsm.nextWake
    ensures Rests(Do(cfg, w, st), id, b)
  {
    EffectLeavesResting(w, st, id, b);
    CheckStaysFree(w, st);
    PcLeavesResting(w, st, id, b);
    if st.EnsureOne? { EnsureAccounts(w, st.loaded); } else { OtherTables(w, st); }
  }

  lemma StepAdvances(cfg: Config, w: World, st: Step)
    requires Can(w, st)
    ensures Do(cfg, w, st).clock >= w.clock
  {
    ClockAdvances(w, st);
  }

  lemma {:induction false} RunLeavesResting(cfg: Config, w: World, steps: seq<Step>, id: string, b: Account)
    requires Rests(w, id, b) && forall i :: 0 <= i < |steps| ==> LeavesAlone(steps[i], id)
    requires WorldRun(cfg, w, steps).clock < b.fsm.nextWake
    ensures Rests(WorldRun(cfg, w, steps), id, b)
  {
    if steps == [] {
    } else {
      var init, st := steps[..|steps| - 1], steps[|steps| - 1];
      var v := WorldRun(cfg, w, init);
      if Can(v, st) { StepAdvances(cfg, v, st); }
      RunLeavesResting(cfg, w, init, id, b);
      if Can(v, st) { StepLeavesResting(cfg, v, st, id, b); }
    }
  }

  /** An account whose credentials do not load keeps its cycle, and under every schedule that
      neither triggers it nor enumerates the host it is not loaded or ticked again for half an
      hour, and then it is due. */
  lemma LoadBacksOff(cfg: Config, w: World, steps: seq<Step>)
    requires w.pc.Loading? && w.pc.id in w.accounts && w.check.Free?
    requires forall i :: 0 <= i < |steps| ==> LeavesAlone(steps[i], w.pc.id)
    ensures var id, v := w.pc.id, WorldRun(cfg, Do(cfg, w, CredentialsFailed), steps);
      v.clock < w.clock + HALF_HOUR ==>
        && id in v.accounts && v.accounts[id].fsm == w.accounts[id].fsm.(nextWake := w.clock + HALF_HOUR)
        && !HoldsTick(v.pc, id)
  {
    var id := w.pc.id;
    var after := Do(cfg, w, CredentialsFailed);
    var b := w.accounts[id].(fsm := w.accounts[id].fsm.(nextWake := w.clock + HALF_HOUR), clock := w.clock);
    assert after == w.(pc := Top, accounts := w.accounts[id := b]);
    if WorldRun(cfg, after, steps).clock < w.clock + HALF_HOUR { RunLeavesResting(cfg, after, steps, id, b); }
  }
}
