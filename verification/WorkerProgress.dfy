// When the loop can still come to an account: exactly until a panic ends the loop itself.

module WorkerProgress {
  import opened Models
  import opened Machine
  import opened Account
  import opened Retry
  import opened Schedulability
  import opened Worker
  import opened WorkerSafety
  import opened WorkerSchedule
  import opened WorkerRounds

  /** Some continuation has the loop about to tick the account. */
  ghost predicate ComesTo(cfg: Config, w: World, id: string) {
    exists steps :: TicksNext(WorldRun(cfg, w, steps), id)
  }

  predicate TicksNext(w: World, id: string) { w.pc.Ticking? && w.pc.id == id && id in w.accounts }

  // ---------- what ends the loop ----------

  /** A panic that no recovery of the loop catches: in the host's enumeration, or in the
      loader while accounts are ensured outside a step. */
  predicate EndsLoop(w: World, st: Step) {
    st.EnumerationPanicked? || (st.EnsurePanicked? && w.pc.Ensuring? && !w.pc.pass.Stepping?)
  }

  predicate LoopPanicked(cfg: Config, w: World, steps: seq<Step>) {
    steps != [] && (
      var init, st := steps[..|steps| - 1], steps[|steps| - 1];
      var v := WorldRun(cfg, w, init);
      LoopPanicked(cfg, w, init) || (Can(v, st) && EndsLoop(v, st)))
  }

  lemma StepEnds(w: World, st: Step)
    requires Can(w, st)
    ensures Control(w, st).pc.Ended? <==> w.pc.Ended? || EndsLoop(w, st)
  {
    match st
    case EnumerationPanicked =>
    case EnsurePanicked =>
    case ScanMissing =>
    case SleepOrStep =>
    case _ =>
  }

  lemma {:induction false} EndedExactlyByPanic(cfg: Config, w: World, steps: seq<Step>)
    requires !w.pc.Ended?
    ensures WorldRun(cfg, w, steps).pc.Ended? <==> LoopPanicked(cfg, w, steps)
  {
    if steps == [] {
    } else {
      var init, st := steps[..|steps| - 1], steps[|steps| - 1];
      var v := WorldRun(cfg, w, init);
      EndedExactlyByPanic(cfg, w, init);
      if Can(v, st) { StepEnds(v, st); }
    }
  }

  lemma {:induction false} EndedStays(cfg: Config, w: World, steps: seq<Step>)
    requires w.pc.Ended?
    ensures WorldRun(cfg, w, steps).pc.Ended?
  {
    if steps == [] {
    } else {
      var v := WorldRun(cfg, w, steps[..|steps| - 1]);
      EndedStays(cfg, w, steps[..|steps| - 1]);
      if Can(v, steps[|steps| - 1]) { StepEnds(v, steps[|steps| - 1]); }
    }
  }

  // ---------- the nameless account ----------

  predicate NamedPick(pc: Pc) { (pc.Picked? || pc.Loading? || pc.Ticking?) ==> pc.id != "" }

  lemma StepNames(w: World, st: Step)
    requires Can(w, st) && NamedPick(w.pc)
    ensures NamedPick(Control(w, st).pc)
  {
    match st
    case PickSoonest(_) =>
    case SleepOrStep =>
    case CredentialsLoaded =>
    case ScanMissing =>
    case _ =>
  }

  lemma {:induction false} RunNames(cfg: Config, w: World, steps: seq<Step>)
    requires NamedPick(w.pc)
    ensures NamedPick(WorldRun(cfg, w, steps).pc)
  {
    if steps == [] {
    } else {
      var v := WorldRun(cfg, w, steps[..|steps| - 1]);
      RunNames(cfg, w, steps[..|steps| - 1]);
      if Can(v, steps[|steps| - 1]) { StepNames(v, steps[|steps| - 1]); }
    }
  }

  // ---------- back to the top ----------

  lemma {:induction false} RunKeepsSafe(cfg: Config, w: World, steps: seq<Step>)
    requires Safe(cfg, w)
    ensures Safe(cfg, WorldRun(cfg, w, steps))
  {
    if steps == [] {
    } else {
      var v := WorldRun(cfg, w, steps[..|steps| - 1]);
      RunKeepsSafe(cfg, w, steps[..|steps| - 1]);
      if Can(v, steps[|steps| - 1]) { StepKeepsSafe(cfg, v, steps[|steps| - 1]); }
    }
  }

  /** Nothing is lost on the way from w to v. */
  ghost predicate Keeps(cfg: Config, w: World, v: World) {
    Safe(cfg, v) && w.accounts.Keys <= v.accounts.Keys
  }

  lemma StepKeeps(cfg: Config, w: World, st: Step)
    requires Safe(cfg, w) && Can(w, st) && !st.Enumerated?
    ensures Keeps(cfg, w, Do(cfg, w, st))
  {
    StepKeepsSafe(cfg, w, st);
    forall id | id in w.accounts ensures id in Do(cfg, w, st).accounts {
      OnlyEnumerationDrops(w, st, id);
    }
  }

  function CheckLeft(c: Check): nat
    requires c.Checking?
  {
    2 * |c.todo| + if c.seen.Some? then 1 else 0
  }

  /** What a running check does next. */
  lemma NextOfCheck(w: World) returns (st: Step)
    requires w.check.Checking?
    ensures Can(w, st) && !st.Enumerated?
    ensures var v := Control(w, st);
      v.pc == w.pc && (v.check.Checking? ==> CheckLeft(v.check) < CheckLeft(w.check))
  {
    if w.check.seen.Some? {
      st := CheckStore;
    } else if w.check.todo == {} {
      st := CheckEnd;
    } else {
      var id :| id in w.check.todo;
      st := CheckRead(id);
      assert |w.check.todo - {id}| == |w.check.todo| - 1;
      assert Control(w, st).pc == w.pc && Control(w, st).check.todo == w.check.todo - {id};
    }
  }

  lemma DoKeepsControl(cfg: Config, w: World, st: Step)
    requires Can(w, st)
    ensures Do(cfg, w, st).pc == Control(w, st).pc && Do(cfg, w, st).check == Control(w, st).check
    ensures Do(cfg, w, st).clock == Control(w, st).clock
  {
  }

  /** A running check comes to its end. */
  lemma {:induction false} FinishCheck(cfg: Config, w: World) returns (steps: seq<Step>)
    requires Safe(cfg, w)
    ensures var v := WorldRun(cfg, w, steps); Keeps(cfg, w, v) && v.pc == w.pc && v.check.Free?
    decreases if w.check.Free? then 0 else 1 + CheckLeft(w.check)
  {
    if w.check.Free? {
      steps := [];
    } else {
      var st := NextOfCheck(w);
      DoKeepsControl(cfg, w, st);
      StepKeeps(cfg, w, st);
      RunOne(cfg, w, st);
      var rest := FinishCheck(cfg, Do(cfg, w, st));
      RunAppend(cfg, w, [st], rest);
      steps := [st] + rest;
    }
  }

  // ---------- a key no one has used ----------

  lemma {:induction false} LongerThanAll(keys: set<string>) returns (n: nat)
    ensures forall k :: k in keys ==> |k| <= n
  {
    if keys == {} {
      n := 0;
    } else {
      var some :| some in keys;
      n := LongerThanAll(keys - {some});
      if n < |some| { n := |some|; }
    }
  }

  lemma UnusedKey(minted: map<string, string>) returns (key: string)
    ensures key != "" && key !in minted
  {
    var n := LongerThanAll(minted.Keys);
    key := KeyAt(n);
    assert |key| == n + 1 && key !in minted.Keys;
  }

  // ---------- to the search ----------

  /** One step after which the loop is nearer to a search. */
  function Nearness(pc: Pc): nat {
    match pc
    case Pick => 0
    case Ensuring(_, Retrying) => 1
    case Scan => 2
    case Enumerating => 3
    case Top => 4
    case Ensuring(_, _) => 5
    case Sleeping(_) => 5
    case Nothing => 6
    case Loading(_, _) => 5
    case Syncing(_) => 5
    case Recovering(_) => 5
    case Ticking(_, _) => 6
    case Picked(_, _) => 7
    case Ended => 0
  }

  function StepsLeft(w: World): nat {
    if w.pc.Ensuring? then |w.pc.todo| else if w.pc.Sleeping? && w.clock < w.pc.until then 1 else 0
  }

  predicate Nearer(w: World, v: World) {
    && v.check.Free? && !v.pc.Ended?
    && (Nearness(v.pc) < Nearness(w.pc) || (Nearness(v.pc) == Nearness(w.pc) && StepsLeft(v) < StepsLeft(w)))
  }

  /** Every credential load fails, and so does every call of a tick already begun. */
  function Onward(w: World, key: string): Step {
    match w.pc
    case Enumerating => EnumerationFailed
    case Scan => ScanMissing
    case Ensuring(todo, _) => if todo == [] then EnsureDone else EnsureOne(false)
    case Nothing => MissingDelay
    case Picked(_, _) => SleepOrStep
    case Sleeping(until) => if w.clock < until then Advance(until) else TimerWake
    case Loading(_, _) => CredentialsFailed
    case Ticking(id, _) => RunTick(Env(w.clock, w.clock, None, None, NoAnswer, key))
    case Syncing(_) => Synced
    case Recovering(_) => RecoverPanic
    case _ => ResolveOrSkip
  }

  lemma OnwardInPass(w: World, key: string)
    requires w.check.Free? && (w.pc.Top? || w.pc.Enumerating? || w.pc.Scan? || w.pc.Ensuring?)
    ensures Can(w, Onward(w, key)) && Nearer(w, Control(w, Onward(w, key))) && !Onward(w, key).Enumerated?
  {
    match w.pc
    case Enumerating =>
    case Scan =>
    case Ensuring(_, _) =>
    case _ =>
  }

  lemma OnwardToSleep(w: World, key: string)
    requires w.check.Free? && (w.pc.Nothing? || w.pc.Picked? || w.pc.Sleeping?)
    ensures Can(w, Onward(w, key)) && Nearer(w, Control(w, Onward(w, key))) && !Onward(w, key).Enumerated?
  {
    match w.pc
    case Nothing =>
    case Picked(_, _) =>
    case _ =>
  }

  lemma OnwardInStep(w: World, key: string)
    requires w.check.Free? && (w.pc.Loading? || w.pc.Ticking? || w.pc.Syncing? || w.pc.Recovering?)
    requires w.pc.Ticking? ==> Can(w, Onward(w, key))
    ensures Can(w, Onward(w, key)) && Nearer(w, Control(w, Onward(w, key))) && !Onward(w, key).Enumerated?
  {
    match w.pc
    case Loading(_, _) =>
    case Ticking(_, _) =>
    case Syncing(_) =>
    case _ =>
  }

  lemma OnwardIsNearer(cfg: Config, w: World) returns (st: Step)
    requires Safe(cfg, w) && w.check.Free? && !w.pc.Pick? && !w.pc.Ended?
    ensures Can(w, st) && Nearer(w, Control(w, st)) && !st.Enumerated?
  {
    var key := "";
    if w.pc.Ticking? { key := UnusedKey(w.accounts[w.pc.id].minted); }
    st := Onward(w, key);
    if w.pc.Nothing? || w.pc.Picked? || w.pc.Sleeping? { OnwardToSleep(w, key); }
    else if w.pc.Loading? || w.pc.Ticking? || w.pc.Syncing? || w.pc.Recovering? { OnwardInStep(w, key); }
    else { OnwardInPass(w, key); }
  }

  /** From wherever the loop stands it can come to its next search. */
  lemma {:induction false} ToSearch(cfg: Config, w: World) returns (steps: seq<Step>)
    requires Safe(cfg, w) && w.check.Free? && !w.pc.Ended?
    ensures var v := WorldRun(cfg, w, steps); Keeps(cfg, w, v) && v.pc.Pick? && v.check.Free?
    decreases Nearness(w.pc), StepsLeft(w)
  {
    if w.pc.Pick? {
      steps := [];
    } else {
      var st := OnwardIsNearer(cfg, w);
      DoKeepsControl(cfg, w, st);
      StepKeeps(cfg, w, st);
      RunOne(cfg, w, st);
      var rest := ToSearch(cfg, Do(cfg, w, st));
      RunAppend(cfg, w, [st], rest);
      steps := [st] + rest;
    }
  }

  // ---------- from the search to a tick ----------

  ghost predicate AllWaiting(accounts: map<string, Account>) {
    forall id :: id in accounts ==> Waiting(accounts, id)
  }

  /** The named accounts that come before id. */
  function Before(accounts: map<string, Account>, id: string): set<string>
    requires id in accounts
  {
    set j | j in accounts && j != "" && accounts[j].fsm.nextWake < accounts[id].fsm.nextWake
  }

  /** An account the search can return: id itself, or a named one that comes before it. */
  lemma {:induction false} FirstInLine(accounts: map<string, Account>, id: string, among: set<string>) returns (j: string)
    requires AllWaiting(accounts) && id in accounts && id != "" && among <= Before(accounts, id)
    ensures j == id || j in among
    ensures accounts[j].fsm.nextWake <= accounts[id].fsm.nextWake
    ensures forall k :: k in among ==> accounts[j].fsm.nextWake <= accounts[k].fsm.nextWake
  {
    if among == {} {
      j := id;
    } else {
      var k :| k in among;
      j := FirstInLine(accounts, id, among - {k});
      if accounts[k].fsm.nextWake < accounts[j].fsm.nextWake { j := k; }
    }
  }

  lemma FirstCanBePicked(accounts: map<string, Account>, id: string) returns (j: string)
    requires AllWaiting(accounts) && id in accounts && id != ""
    ensures j == id || j in Before(accounts, id)
    ensures CanPick(accounts, j) && accounts[j].fsm.nextWake <= accounts[id].fsm.nextWake
  {
    j := FirstInLine(accounts, id, Before(accounts, id));
    assert Waiting(accounts, j);
    forall k | k in accounts && k != "" ensures accounts[j].fsm.nextWake <= accounts[k].fsm.nextWake {
      if k !in Before(accounts, id) { assert accounts[k].fsm.nextWake >= accounts[id].fsm.nextWake; }
    }
  }

  /** A due account whose credentials do not load goes to the back of the line. */
  lemma Postpone(cfg: Config, w: World, j: string)
    requires w.pc.Pick? && w.check.Free? && CanPick(w.accounts, j) && w.accounts[j].fsm.nextWake <= w.clock
    ensures WorldRun(cfg, w, [PickSoonest(j), SleepOrStep] + [CredentialsFailed]) ==
      w.(pc := Top, accounts := w.accounts[j := Apply(SettingsOf(cfg, j), w.accounts[j], LoadFailed(w.clock))])
  {
    DoPickAndStep(cfg, w, j);
    RunTwo(cfg, w, PickSoonest(j), SleepOrStep);
    WorldSnoc(cfg, w, [PickSoonest(j), SleepOrStep], CredentialsFailed);
  }

  lemma PostponedIsBehind(accounts: map<string, Account>, id: string, j: string, a: Account)
    requires id in accounts && j in Before(accounts, id) && a.fsm.nextWake >= accounts[id].fsm.nextWake
    ensures |Before(accounts[j := a], id)| < |Before(accounts, id)|
  {
    var after := Before(accounts[j := a], id);
    assert after <= Before(accounts, id) - {j};
    SubsetSize(after, Before(accounts, id) - {j});
  }

  lemma {:induction false} SubsetSize(a: set<string>, b: set<string>)
    requires a <= b
    ensures |a| <= |b|
  {
    if a != {} {
      var x :| x in a;
      SubsetSize(a - {x}, b - {x});
    }
  }

  lemma {:induction false} SearchToTick(cfg: Config, w: World, id: string) returns (steps: seq<Step>)
    requires w.clock > 0 && w.pc.Pick? && w.check.Free? && AllWaiting(w.accounts)
    requires id != "" && id in w.accounts && w.accounts[id].fsm.nextWake <= w.clock
    ensures TicksNext(WorldRun(cfg, w, steps), id)
    decreases |Before(w.accounts, id)|
  {
    var j := FirstCanBePicked(w.accounts, id);
    if j == id {
      steps := ToTick(id);
      PickToTick(cfg, w, id);
    } else {
      var a := Apply(SettingsOf(cfg, j), w.accounts[j], LoadFailed(w.clock));
      var first := [PickSoonest(j), SleepOrStep] + [CredentialsFailed];
      Postpone(cfg, w, j);
      PostponedIsBehind(w.accounts, id, j, a);
      var v := WorldRun(cfg, w, first);
      var second := TopToPick(cfg, v);
      RunAppend(cfg, w, first, second);
      steps := SearchToTick(cfg, WorldRun(cfg, v, second), id);
      RunAppend(cfg, w, first + second, steps);
      steps := first + second + steps;
    }
  }

  /** From any safe state whose loop has not ended, to a tick of any named account. */
  lemma LoopReaches(cfg: Config, w: World, id: string) returns (steps: seq<Step>)
    requires Safe(cfg, w) && cfg.refreshInterval > 0 && !w.pc.Ended? && id != "" && id in w.accounts
    ensures TicksNext(WorldRun(cfg, w, steps), id)
  {
    var checked := FinishCheck(cfg, w);
    var found := ToSearch(cfg, WorldRun(cfg, w, checked));
    RunAppend(cfg, w, checked, found);
    var v := WorldRun(cfg, w, checked + found);
    var late := Schedule.Max(v.clock, v.accounts[id].fsm.nextWake);
    RunOne(cfg, v, Advance(late));
    AccountsHaveWakes(cfg, v);
    var ticked := SearchToTick(cfg, v.(clock := late), id);
    RunAppend(cfg, w, checked + found, [Advance(late)]);
    RunAppend(cfg, w, checked + found + [Advance(late)], ticked);
    steps := checked + found + [Advance(late)] + ticked;
  }

  /** No account is ever stranded, exactly: in every state a schedule leads to, every account
      has a wake, and the loop can still come to tick it if and only if it has a name and no
      enumeration, and no load outside a step, has panicked. */
  lemma WorkerNeverStrands(cfg: Config, now: Time, steps: seq<Step>, id: string)
    requires now > 0 && cfg.refreshInterval > 0
    requires id in WorldRun(cfg, Initial(now, cfg), steps).accounts
    ensures var w := WorldRun(cfg, Initial(now, cfg), steps);
      && w.accounts[id].fsm.nextWake != NO_TIME
      && (ComesTo(cfg, w, id) <==> id != "" && !LoopPanicked(cfg, Initial(now, cfg), steps))
  {
    var w := WorldRun(cfg, Initial(now, cfg), steps);
    WorkerIsSafe(cfg, now, steps);
    AccountsHaveWakes(cfg, w);
    EndedExactlyByPanic(cfg, Initial(now, cfg), steps);
    if id != "" && !w.pc.Ended? {
      var more := LoopReaches(cfg, w, id);
    }
    if ComesTo(cfg, w, id) {
      var more :| TicksNext(WorldRun(cfg, w, more), id);
      RunNames(cfg, Initial(now, cfg), steps);
      RunNames(cfg, w, more);
      if w.pc.Ended? { EndedStays(cfg, w, more); }
    }
  }
}
