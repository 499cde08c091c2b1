// A worker that serves one account and is never held up: its schedules are exactly the
// on-time runs, so the schedulability theorem is about the worker.

module WorkerOnTime {
  import opened Models
  import opened Machine
  import opened Account
  import opened Progress
  import opened Schedule
  import opened Schedulability
  import opened Worker
  import opened WorkerSafety

  /** The step makes no one wait: time passes only in a sleep and not beyond its end, every
      call succeeds and is answered honestly, nothing panics and nothing is triggered. */
  ghost predicate PromptStep(w: World, st: Step, id: string, store: seq<Credit>) {
    match st
    case Advance(to) => w.pc.Sleeping? && to <= w.pc.until
    case EnsureOne(loaded) => loaded
    case RunTick(e) => id in w.accounts && Honest(w.accounts[id], e, store)
    case EnsurePanicked => false
    case CredentialsFailed => false
    case CredentialsPanicked => false
    case TickPanicked(_, _) => false
    case SyncPanicked(_) => false
    case CheckBegin(_) => false
    case ForceAccount(_) => false
    case _ => true
  }

  ghost predicate Prompt(cfg: Config, w: World, steps: seq<Step>, id: string, store: seq<Credit>) {
    steps == [] || (
      var init, st := steps[..|steps| - 1], steps[|steps| - 1];
      var v := WorldRun(cfg, w, init);
      Prompt(cfg, w, init, id, store) && (Can(v, st) ==> PromptStep(v, st, id, store)))
  }

  /** The configuration names one account. */
  predicate Single(cfg: Config, id: string) {
    cfg.enabledAccounts == [id] && id != "" && !EnablesAll(cfg.enabledAccounts)
  }

  /** The account after its first ticks and their syncs. */
  function Ticked(p: Settings, start: Time, es: seq<Env>): Account {
    if es == [] then Fresh(start)
    else TickAndSync(p, Ticked(p, start, es[..|es| - 1]), es[|es| - 1])
  }

  ghost predicate AllOnTime(p: Settings, start: Time, es: seq<Env>, store: seq<Credit>) {
    es == [] || (
      var init := es[..|es| - 1];
      AllOnTime(p, start, init, store) && OnTime(Ticked(p, start, init), es[|es| - 1], store))
  }

  /** Nothing disturbs the loop, and it knows one account. */
  predicate Quiet(w: World, id: string) {
    && w.check.Free? && !w.token && w.nudges == 0 && !w.wildcard && w.resolved == [id] && w.missing == map[]
    && w.clock > 0 && id != ""
  }

  /** The account's wake has not passed, wherever the loop stands. */
  predicate Punctual(pc: Pc, id: string, wake: Time, clock: Time) {
    && clock <= wake
    && match pc
       case Top => true
       case Scan => true
       case Pick => true
       case Syncing(j) => j == id
       case Ensuring(todo, pass) => todo == [] && !pass.Stepping?
       case Picked(j, at) => j == id && at == wake
       case Sleeping(until) => until == wake
       case Loading(j, since) => j == id && since == clock == wake
       case Ticking(j, since) => j == id && since == clock == wake
       case _ => false
  }

  /** The world after the ticks answered by es: all of them on time. */
  ghost predicate Follows(p: Settings, start: Time, id: string, w: World, es: seq<Env>, store: seq<Credit>) {
    && Quiet(w, id) && AllOnTime(p, start, es, store)
    && if id !in w.accounts then
         w.accounts == map[] && w.pc == Ensuring([id], Starting) && w.clock == start && es == []
       else
         && w.accounts.Keys == {id}
         && Punctual(w.pc, id, w.accounts[id].fsm.nextWake, w.clock)
         && if w.pc.Syncing?
            then es != [] && w.accounts[id] == Apply(p, Ticked(p, start, es[..|es| - 1]), Tick(es[|es| - 1]))
            else w.accounts[id] == Ticked(p, start, es)
  }

  // ---------- every prompt schedule is on time ----------

  function Heard(es: seq<Env>, st: Step): seq<Env> { if st.RunTick? then es + [st.e] else es }

  lemma QuietStays(w: World, st: Step, id: string, store: seq<Credit>)
    requires Quiet(w, id) && Can(w, st) && PromptStep(w, st, id, store) && !w.pc.Enumerating?
    ensures Quiet(Control(w, st), id)
  {
    if st.EnsureOne? { assert w.missing - {w.pc.todo[0]} == map[]; } else { OtherTables(w, st); ClockAdvances(w, st); }
  }

  lemma CreationFollows(cfg: Config, start: Time, id: string, w: World, st: Step, es: seq<Env>, store: seq<Credit>)
    requires Follows(SettingsOf(cfg, id), start, id, w, es, store) && id !in w.accounts
    requires Can(w, st) && PromptStep(w, st, id, store)
    ensures !st.RunTick? && Follows(SettingsOf(cfg, id), start, id, Do(cfg, w, st), es, store)
  {
    QuietStays(w, st, id, store);
    assert st.EnsureOne? && [id][0] == id && [id][1..] == [];
  }

  /** The wait for the wake, up to the tick. */
  lemma WaitFollows(w: World, st: Step, id: string, store: seq<Credit>)
    requires Quiet(w, id) && w.accounts.Keys == {id} && Punctual(w.pc, id, w.accounts[id].fsm.nextWake, w.clock)
    requires Can(w, st) && PromptStep(w, st, id, store) && !st.RunTick? && !st.Synced?
    ensures EffectOf(w, st).NoEffect? && Control(w, st).accounts == w.accounts
    ensures Punctual(Control(w, st).pc, id, w.accounts[id].fsm.nextWake, Control(w, st).clock)
    ensures Control(w, st).pc.Syncing? <==> w.pc.Syncing?
  {
    match st
    case Advance(_) =>
    case ResolveOrSkip =>
    case ScanMissing => assert RetryList([id], {id}, map[], w.clock) == [];
    case EnsureDone =>
    case PickSoonest(_) =>
    case PickNone => assert Waiting(w.accounts, id);
    case SleepOrStep =>
    case TimerWake =>
    case CredentialsLoaded =>
    case _ =>
  }

  lemma TickFollows(cfg: Config, start: Time, id: string, w: World, e: Env, es: seq<Env>, store: seq<Credit>)
    requires Normalized(SettingsOf(cfg, id)) && Follows(SettingsOf(cfg, id), start, id, w, es, store)
    requires Can(w, RunTick(e)) && PromptStep(w, RunTick(e), id, store)
    ensures Follows(SettingsOf(cfg, id), start, id, Do(cfg, w, RunTick(e)), es + [e], store)
  {
    QuietStays(w, RunTick(e), id, store);
    WakeNotEarlier(SettingsOf(cfg, id), w.accounts[id], e);
    assert (es + [e])[..|es|] == es;
  }

  lemma SyncFollows(cfg: Config, start: Time, id: string, w: World, es: seq<Env>, store: seq<Credit>)
    requires Follows(SettingsOf(cfg, id), start, id, w, es, store) && Can(w, Synced)
    ensures Follows(SettingsOf(cfg, id), start, id, Do(cfg, w, Synced), es, store)
  {
    QuietStays(w, Synced, id, store);
  }

  lemma StepFollows(cfg: Config, start: Time, id: string, w: World, st: Step, es: seq<Env>, store: seq<Credit>)
    requires Normalized(SettingsOf(cfg, id)) && Follows(SettingsOf(cfg, id), start, id, w, es, store)
    requires Can(w, st) && PromptStep(w, st, id, store)
    ensures Follows(SettingsOf(cfg, id), start, id, Do(cfg, w, st), Heard(es, st), store)
  {
    if id !in w.accounts { CreationFollows(cfg, start, id, w, st, es, store); }
    else if st.RunTick? { TickFollows(cfg, start, id, w, st.e, es, store); }
    else if st.Synced? { SyncFollows(cfg, start, id, w, es, store); }
    else { QuietStays(w, st, id, store); WaitFollows(w, st, id, store); }
  }

  /** The answers of the ticks a schedule runs. */
  function TicksOf(cfg: Config, w: World, steps: seq<Step>): seq<Env> {
    if steps == [] then []
    else
      var init, st := steps[..|steps| - 1], steps[|steps| - 1];
      var es := TicksOf(cfg, w, init);
      if Can(WorldRun(cfg, w, init), st) then Heard(es, st) else es
  }

  lemma {:induction false} PromptFollows(cfg: Config, now: Time, steps: seq<Step>, id: string, store: seq<Credit>)
    requires now > 0 && Single(cfg, id) && Normalized(SettingsOf(cfg, id))
    requires Prompt(cfg, Initial(now, cfg), steps, id, store)
    ensures Follows(SettingsOf(cfg, id), now, id, WorldRun(cfg, Initial(now, cfg), steps),
                    TicksOf(cfg, Initial(now, cfg), steps), store)
  {
    if steps == [] {
    } else {
      var init, st := steps[..|steps| - 1], steps[|steps| - 1];
      var v := WorldRun(cfg, Initial(now, cfg), init);
      PromptFollows(cfg, now, init, id, store);
      if Can(v, st) { StepFollows(cfg, now, id, v, st, TicksOf(cfg, Initial(now, cfg), init), store); }
    }
  }

  // ---------- a prompt schedule is the start of an on-time run ----------

  lemma {:induction false} GivenTicks(p: Settings, start: Time, store: seq<Credit>, es: seq<Env>, i: nat)
    requires i <= |es|
    ensures OnTimeState(p, start, store, es, i) == Ticked(p, start, es[..i])
  {
    if i == 0 {
    } else {
      assert es[..i][..i - 1] == es[..i - 1] && es[..i][i - 1] == es[i - 1];
      GivenTicks(p, start, store, es, i - 1);
    }
  }

  lemma {:induction false} EachOnTime(p: Settings, start: Time, store: seq<Credit>, es: seq<Env>, j: nat)
    requires j < |es| && AllOnTime(p, start, es, store)
    ensures OnTime(Ticked(p, start, es[..j]), es[j], store)
  {
    var init := es[..|es| - 1];
    if j < |init| {
      EachOnTime(p, start, store, init, j);
      assert init[..j] == es[..j];
    }
  }

  lemma GivenIsIdeal(p: Settings, start: Time, store: seq<Credit>, es: seq<Env>)
    requires AllOnTime(p, start, es, store)
    ensures IdealRun(p, start, OnTimeRun(p, start, store, es), OnTimeEnvs(p, start, store, es), store)
    ensures OnTimeRun(p, start, store, es)(|es|) == Ticked(p, start, es)
  {
    assert es[..|es|] == es;
    GivenTicks(p, start, store, es, |es|);
    var run, answers := OnTimeRun(p, start, store, es), OnTimeEnvs(p, start, store, es);
    forall i: nat | TickIndex(i) ensures OnTime(run(i), answers(i), store) {
      if i < |es| {
        GivenTicks(p, start, store, es, i);
        EachOnTime(p, start, store, es, i);
      }
    }
  }

  function PostsOf(w: World, id: string): seq<Post> { if id in w.accounts then w.accounts[id].posts else [] }

  /** Where a prompt schedule has taken the account is where some on-time run takes it. */
  lemma PromptIsIdeal(cfg: Config, now: Time, steps: seq<Step>, id: string, store: seq<Credit>)
    returns (run: nat -> Account, es: nat -> Env)
    requires now > 0 && Single(cfg, id) && Normalized(SettingsOf(cfg, id))
    requires Prompt(cfg, Initial(now, cfg), steps, id, store)
    ensures IdealRun(SettingsOf(cfg, id), now, run, es, store)
    ensures var w, ticks := WorldRun(cfg, Initial(now, cfg), steps), TicksOf(cfg, Initial(now, cfg), steps);
      && PostsOf(w, id) == run(|ticks|).posts && w.clock <= run(|ticks|).fsm.nextWake
      && (id in w.accounts && !w.pc.Syncing? ==> w.accounts[id] == run(|ticks|))
      && (id !in w.accounts ==> ticks == [])
  {
    var p, ticks := SettingsOf(cfg, id), TicksOf(cfg, Initial(now, cfg), steps);
    PromptFollows(cfg, now, steps, id, store);
    run, es := OnTimeRun(p, now, store, ticks), OnTimeEnvs(p, now, store, ticks);
    GivenIsIdeal(p, now, store, ticks);
  }

  // ---------- every on-time run is one of the worker ----------

  /** What an undisturbed loop does next; e answers its next tick. */
  function Next(w: World, id: string, e: Env): Step {
    match w.pc
    case Scan => ScanMissing
    case Ensuring(todo, _) => if todo == [] then EnsureDone else EnsureOne(true)
    case Pick => PickSoonest(id)
    case Picked(_, _) => SleepOrStep
    case Sleeping(until) => if w.clock < until then Advance(until) else TimerWake
    case Loading(_, _) => CredentialsLoaded
    case Ticking(_, _) => RunTick(e)
    case _ => ResolveOrSkip
  }

  /** How far the next tick is. */
  function Distance(w: World, id: string): nat {
    var early := if id !in w.accounts || w.clock < w.accounts[id].fsm.nextWake then 20 else 0;
    match w.pc
    case Ensuring(_, Starting) => 9 + early
    case Top => 8 + early
    case Scan => 7 + early
    case Ensuring(_, _) => 6 + early
    case Pick => 5 + early
    case Picked(_, _) => 4 + early
    case Sleeping(_) => if early > 0 then 15 else 9
    case Loading(_, _) => 3
    case _ => 2
  }

  ghost predicate GoodNext(cfg: Config, w: World, id: string, e: Env, store: seq<Credit>) {
    var st := Next(w, id, e);
    && Can(w, st) && PromptStep(w, st, id, store)
    && (st.RunTick? <==> w.pc.Ticking?)
    && (!st.RunTick? ==> !Control(w, st).pc.Syncing? && Distance(Do(cfg, w, st), id) < Distance(w, id))
  }

  lemma NextCreates(cfg: Config, w: World, id: string, e: Env, store: seq<Credit>)
    requires Quiet(w, id) && id !in w.accounts && w.pc == Ensuring([id], Starting)
    ensures GoodNext(cfg, w, id, e, store)
  {
  }

  lemma NextSearches(cfg: Config, w: World, id: string, e: Env, store: seq<Credit>)
    requires Quiet(w, id) && w.accounts.Keys == {id} && Punctual(w.pc, id, w.accounts[id].fsm.nextWake, w.clock)
    requires w.pc.Top? || w.pc.Scan? || w.pc.Ensuring?
    ensures GoodNext(cfg, w, id, e, store)
  {
    match w.pc
    case Top =>
    case Scan =>
      assert RetryList([id], {id}, map[], w.clock) == [];
      assert Do(cfg, w, ScanMissing) == w.(pc := Ensuring([], Retrying));
    case Ensuring(_, pass) =>
      assert Do(cfg, w, EnsureDone) == w.(pc := if pass.Retrying? then Pick else Top);
  }

  lemma NextWaits(cfg: Config, w: World, id: string, e: Env, store: seq<Credit>)
    requires Quiet(w, id) && w.accounts.Keys == {id} && Punctual(w.pc, id, w.accounts[id].fsm.nextWake, w.clock)
    requires w.pc.Pick? || w.pc.Picked? || w.pc.Sleeping? || w.pc.Loading?
    ensures GoodNext(cfg, w, id, e, store)
  {
    var wake := w.accounts[id].fsm.nextWake;
    match w.pc
    case Pick =>
      assert Waiting(w.accounts, id);
      assert Do(cfg, w, PickSoonest(id)) == w.(pc := Picked(id, wake));
    case Picked(_, _) =>
      assert Do(cfg, w, SleepOrStep) == w.(pc := if wake > w.clock then Sleeping(wake) else Loading(id, w.clock));
    case Sleeping(_) =>
    case _ =>
  }

  lemma NextIsGood(cfg: Config, start: Time, id: string, w: World, es: seq<Env>, e: Env, store: seq<Credit>)
    requires Follows(SettingsOf(cfg, id), start, id, w, es, store) && !w.pc.Syncing?
    requires OnTime(Ticked(SettingsOf(cfg, id), start, es), e, store) && Due(Ticked(SettingsOf(cfg, id), start, es), e)
    ensures GoodNext(cfg, w, id, e, store)
  {
    if id !in w.accounts { NextCreates(cfg, w, id, e, store); }
    else if w.pc.Top? || w.pc.Scan? || w.pc.Ensuring? { NextSearches(cfg, w, id, e, store); }
    else if !w.pc.Ticking? { NextWaits(cfg, w, id, e, store); }
  }

  lemma Snoc(cfg: Config, w: World, steps: seq<Step>, st: Step, id: string, store: seq<Credit>)
    requires var v := WorldRun(cfg, w, steps); Prompt(cfg, w, steps, id, store) && Can(v, st) && PromptStep(v, st, id, store)
    ensures Prompt(cfg, w, steps + [st], id, store)
    ensures WorldRun(cfg, w, steps + [st]) == Do(cfg, WorldRun(cfg, w, steps), st)
    ensures TicksOf(cfg, w, steps + [st]) == Heard(TicksOf(cfg, w, steps), st)
  {
    assert (steps + [st])[..|steps|] == steps;
  }

  /** The next tick of an on-time run, run by the worker. */
  lemma {:induction false} ToNextTick(cfg: Config, now: Time, steps: seq<Step>, id: string, store: seq<Credit>, e: Env)
    returns (more: seq<Step>)
    requires now > 0 && Single(cfg, id) && Normalized(SettingsOf(cfg, id))
    requires Prompt(cfg, Initial(now, cfg), steps, id, store) && !WorldRun(cfg, Initial(now, cfg), steps).pc.Syncing?
    requires var a := Ticked(SettingsOf(cfg, id), now, TicksOf(cfg, Initial(now, cfg), steps)); OnTime(a, e, store) && Due(a, e)
    ensures Prompt(cfg, Initial(now, cfg), more, id, store) && WorldRun(cfg, Initial(now, cfg), more).pc.Top?
    ensures TicksOf(cfg, Initial(now, cfg), more) == TicksOf(cfg, Initial(now, cfg), steps) + [e]
    decreases Distance(WorldRun(cfg, Initial(now, cfg), steps), id)
  {
    var w0, w := Initial(now, cfg), WorldRun(cfg, Initial(now, cfg), steps);
    PromptFollows(cfg, now, steps, id, store);
    NextIsGood(cfg, now, id, w, TicksOf(cfg, w0, steps), e, store);
    var st := Next(w, id, e);
    Snoc(cfg, w0, steps, st, id, store);
    if st.RunTick? {
      Snoc(cfg, w0, steps + [st], Synced, id, store);
      more := steps + [st] + [Synced];
    } else {
      more := ToNextTick(cfg, now, steps + [st], id, store, e);
    }
  }

  function First(es: nat -> Env, n: nat): (r: seq<Env>)
    ensures |r| == n
  {
    if n == 0 then [] else First(es, n - 1) + [es(n - 1)]
  }

  lemma {:induction false} TickedIsRun(p: Settings, start: Time, run: nat -> Account, es: nat -> Env, n: nat)
    requires Schedule.Ticking(p, start, run, es)
    ensures Ticked(p, start, First(es, n)) == run(n)
  {
    if n == 0 {
    } else {
      assert First(es, n)[..n - 1] == First(es, n - 1) && TickIndex(n - 1);
      TickedIsRun(p, start, run, es, n - 1);
    }
  }

  lemma RunOfTicks(cfg: Config, now: Time, id: string, store: seq<Credit>, run: nat -> Account, es: nat -> Env, n: nat, steps: seq<Step>)
    requires now > 0 && Single(cfg, id) && Normalized(SettingsOf(cfg, id))
    requires Schedule.Ticking(SettingsOf(cfg, id), now, run, es)
    requires Prompt(cfg, Initial(now, cfg), steps, id, store) && !WorldRun(cfg, Initial(now, cfg), steps).pc.Syncing?
    requires TicksOf(cfg, Initial(now, cfg), steps) == First(es, n)
    ensures var w := WorldRun(cfg, Initial(now, cfg), steps); n > 0 ==> id in w.accounts && w.accounts[id] == run(n)
  {
    TickedIsRun(SettingsOf(cfg, id), now, run, es, n);
    PromptFollows(cfg, now, steps, id, store);
  }

  lemma {:induction false} TicksAreRun(cfg: Config, now: Time, id: string, store: seq<Credit>, run: nat -> Account, es: nat -> Env, n: nat)
    returns (steps: seq<Step>)
    requires now > 0 && Single(cfg, id) && Normalized(SettingsOf(cfg, id))
    requires IdealRun(SettingsOf(cfg, id), now, run, es, store) && DueRun(run, es)
    ensures Prompt(cfg, Initial(now, cfg), steps, id, store) && !WorldRun(cfg, Initial(now, cfg), steps).pc.Syncing?
    ensures TicksOf(cfg, Initial(now, cfg), steps) == First(es, n)
  {
    if n == 0 {
      steps := [];
    } else {
      var p := SettingsOf(cfg, id);
      steps := TicksAreRun(cfg, now, id, store, run, es, n - 1);
      TickedIsRun(p, now, run, es, n - 1);
      OnTimeAt(p, now, run, es, store, n - 1);
      assert TickIndex(n - 1);
      steps := ToNextTick(cfg, now, steps, id, store, es(n - 1));
    }
  }

  /** Every on-time run whose ticks have unused keys is what a prompt schedule of the worker
      makes of its account, as far as one likes. */
  lemma IdealIsPrompt(cfg: Config, now: Time, id: string, store: seq<Credit>, run: nat -> Account, es: nat -> Env, n: nat)
    returns (steps: seq<Step>)
    requires now > 0 && Single(cfg, id) && Normalized(SettingsOf(cfg, id))
    requires IdealRun(SettingsOf(cfg, id), now, run, es, store) && DueRun(run, es)
    ensures Prompt(cfg, Initial(now, cfg), steps, id, store) && TicksOf(cfg, Initial(now, cfg), steps) == First(es, n)
    ensures var w := WorldRun(cfg, Initial(now, cfg), steps); n > 0 ==> id in w.accounts && w.accounts[id] == run(n)
  {
    steps := TicksAreRun(cfg, now, id, store, run, es, n);
    RunOfTicks(cfg, now, id, store, run, es, n, steps);
  }

  // ---------- schedulability, of the worker ----------

  ghost predicate AllPosted(store: seq<Credit>, posts: seq<Post>) {
    forall c :: c in store && Queued()(c) ==> exists x :: x in posts && x.target == c.id
  }

  /** In every prompt schedule, as long as no earlier credit is lost: POST k names credit k and
      comes at its timetable instant, and it has come once the clock is past that instant. */
  lemma WorkerPostsOnTimetable(cfg: Config, now: Time, steps: seq<Step>, id: string, store: seq<Credit>, k: nat)
    requires now > 0 && Single(cfg, id) && Normalized(SettingsOf(cfg, id)) && Store(store)
    requires Prompt(cfg, Initial(now, cfg), steps, id, store)
    requires k < |Queue(store)| && Catchable(SettingsOf(cfg, id), now, Queue(store), k + 1)
    ensures var w := WorldRun(cfg, Initial(now, cfg), steps);
      var posts, at := PostsOf(w, id), PostAt(SettingsOf(cfg, id), now, Queue(store), k);
      && (k < |posts| ==> posts[k].target == Queue(store)[k].id && posts[k].at == at)
      && (w.clock > at ==> k < |posts|)
  {
    var p := SettingsOf(cfg, id);
    var run, es := PromptIsIdeal(cfg, now, steps, id, store);
    var i := PostsOnTimetable(p, now, run, es, store, k + 1);
    var n := |TicksOf(cfg, Initial(now, cfg), steps)|;
    if n <= i { LaterPosts(p, now, run, es, store, n, i); } else { LaterPosts(p, now, run, es, store, i, n); }
  }

  /** The worker, undisturbed, redeems every available credit that expires in some schedule if and
      only if the set is schedulable. */
  lemma WorkerSchedulability(cfg: Config, now: Time, id: string, store: seq<Credit>)
    requires now > 0 && Single(cfg, id) && Normalized(SettingsOf(cfg, id)) && Store(store)
    ensures (exists steps :: Prompt(cfg, Initial(now, cfg), steps, id, store)
                             && AllPosted(store, PostsOf(WorldRun(cfg, Initial(now, cfg), steps), id)))
      <==> Schedulable(SettingsOf(cfg, id), now, Queue(store))
  {
    var p, w0 := SettingsOf(cfg, id), Initial(now, cfg);
    if steps :| Prompt(cfg, w0, steps, id, store) && AllPosted(store, PostsOf(WorldRun(cfg, w0, steps), id)) {
      var run, es := PromptIsIdeal(cfg, now, steps, id, store);
      ExactSchedulability(p, now, run, es, store);
      var n := |TicksOf(cfg, w0, steps)|;
      forall c | c in store && Queued()(c) ensures EventuallyRedeemed(run, c) {
        var x :| x in PostsOf(WorldRun(cfg, w0, steps), id) && x.target == c.id;
        assert x in run(n).posts;
      }
    }
    if Schedulable(p, now, Queue(store)) {
      var run, es := IdealRunExists(p, now, store);
      ExactSchedulability(p, now, run, es, store);
      var n: nat :| Redeemed(p, now, Queue(store), |Queue(store)|, run(n).posts);
      var steps := IdealIsPrompt(cfg, now, id, store, run, es, n);
      QueueIsPosted(p, now, store, run(n).posts);
    }
  }

  lemma QueueIsPosted(p: Settings, start: Time, store: seq<Credit>, posts: seq<Post>)
    requires Store(store) && Redeemed(p, start, Queue(store), |Queue(store)|, posts)
    ensures AllPosted(store, posts)
  {
    QueueOfStore(store);
    forall c | c in store && Queued()(c) ensures exists x :: x in posts && x.target == c.id {
      var j :| 0 <= j < |Queue(store)| && Queue(store)[j] == c;
      assert posts[j] in posts && posts[j].target == c.id;
    }
  }
}
