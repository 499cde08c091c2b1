// What a check does: every IDLE account it reads is due at the instant it began, no other
// account is touched, and the loop is told.

module WorkerChecks {
  import opened Models
  import opened Worker
  import opened WorkerSafety
  import opened WorkerSchedule
  import opened WorkerRounds

  // ---------- what a schedule observes of a check ----------

  predicate IsIdle(w: World, id: string) { id in w.accounts && w.accounts[id].fsm.state.Idle? }

  /** The accounts the check has read, and whether each was IDLE when it was. */
  function ReadAs(cfg: Config, w: World, steps: seq<Step>): map<string, bool> {
    if steps == [] then map[]
    else
      var init, st := steps[..|steps| - 1], steps[|steps| - 1];
      var v, asRead := WorldRun(cfg, w, init), ReadAs(cfg, w, init);
      if Can(v, st) && st.CheckRead? then asRead[st.id := IsIdle(v, st.id)] else asRead
  }

  /** The accounts the check has written, and the wake each had right after. */
  function Pulled(cfg: Config, w: World, steps: seq<Step>): map<string, Time> {
    if steps == [] then map[]
    else
      var init, st := steps[..|steps| - 1], steps[|steps| - 1];
      var v, pulled := WorldRun(cfg, w, init), Pulled(cfg, w, init);
      if Can(v, st) && st.CheckStore? && v.check.seen.value in v.accounts
      then pulled[v.check.seen.value := Do(cfg, v, st).accounts[v.check.seen.value].fsm.nextWake]
      else pulled
  }

  // ---------- one step of a check ----------

  lemma ReadControl(w: World, id: string)
    requires Can(w, CheckRead(id))
    ensures Control(w, CheckRead(id)) ==
      w.(check := Checking(w.check.now, w.check.todo - {id}, if IsIdle(w, id) then Some(id) else None))
    ensures EffectOf(w, CheckRead(id)).NoEffect?
  {
  }

  lemma StoreControl(cfg: Config, w: World)
    requires Can(w, CheckStore) && w.check.seen.value in w.accounts
    ensures var id := w.check.seen.value;
      Do(cfg, w, CheckStore) == w.(
        check := Checking(w.check.now, w.check.todo, None),
        accounts := w.accounts[id :=
          w.accounts[id].(fsm := w.accounts[id].fsm.(nextWake := w.check.now), clock := w.clock)])
  {
  }

  lemma OtherKeepsCheck(w: World, st: Step)
    requires Can(w, st) && w.check.Checking? && !st.CheckRead? && !st.CheckStore? && !st.CheckEnd?
    ensures Control(w, st).check == w.check
  {
    match st
    case SleepOrStep =>
    case ScanMissing =>
    case _ =>
  }

  // ---------- the whole check ----------

  /** How far the check has come: each target is still to be read, or was read and, if IDLE,
      has been written or is about to be. */
  ghost predicate CheckStands(w: World, targets: set<string>, t: Time, asRead: map<string, bool>, pulled: map<string, Time>) {
    && w.check.Checking? && w.check.now == t
    && asRead.Keys !! w.check.todo && asRead.Keys + w.check.todo == targets
    && (w.check.seen.Some? ==> w.check.seen.value in asRead && asRead[w.check.seen.value])
    && (forall id :: id in asRead && asRead[id] ==> w.check.seen == Some(id) || (id in pulled && pulled[id] == t))
    && (forall id :: id in pulled ==> id in asRead && asRead[id])
  }

  lemma ReadProgresses(cfg: Config, w: World, id: string, targets: set<string>, t: Time, asRead: map<string, bool>, pulled: map<string, Time>)
    requires Can(w, CheckRead(id)) && CheckStands(w, targets, t, asRead, pulled)
    ensures CheckStands(Do(cfg, w, CheckRead(id)), targets, t, asRead[id := IsIdle(w, id)], pulled)
  {
    ReadControl(w, id);
  }

  lemma StoreProgresses(cfg: Config, w: World, targets: set<string>, t: Time, asRead: map<string, bool>, pulled: map<string, Time>)
    requires Safe(cfg, w) && Can(w, CheckStore) && CheckStands(w, targets, t, asRead, pulled)
    ensures var id, v := w.check.seen.value, Do(cfg, w, CheckStore);
      id in v.accounts && CheckStands(v, targets, t, asRead, pulled[id := v.accounts[id].fsm.nextWake])
  {
    StoreControl(cfg, w);
  }

  lemma {:induction false} CheckProgresses(cfg: Config, w: World, steps: seq<Step>, targets: set<string>, t: Time)
    requires Safe(cfg, w) && w.check == Checking(t, targets, None)
    requires forall i :: 0 <= i < |steps| ==> !steps[i].CheckEnd?
    ensures var v := WorldRun(cfg, w, steps);
      Safe(cfg, v) && CheckStands(v, targets, t, ReadAs(cfg, w, steps), Pulled(cfg, w, steps))
  {
    if steps == [] {
    } else {
      var init, st := steps[..|steps| - 1], steps[|steps| - 1];
      CheckProgresses(cfg, w, init, targets, t);
      var v := WorldRun(cfg, w, init);
      if Can(v, st) {
        StepKeepsSafe(cfg, v, st);
        if st.CheckRead? { ReadProgresses(cfg, v, st.id, targets, t, ReadAs(cfg, w, init), Pulled(cfg, w, init)); }
        else if st.CheckStore? { StoreProgresses(cfg, v, targets, t, ReadAs(cfg, w, init), Pulled(cfg, w, init)); }
        else { OtherKeepsCheck(v, st); }
      }
    }
  }

  lemma BeginControl(cfg: Config, w: World, targets: set<string>)
    requires Can(w, CheckBegin(targets))
    ensures Do(cfg, w, CheckBegin(targets)) == w.(check := Checking(w.clock, targets, None))
  {
  }

  lemma EndControl(cfg: Config, w: World)
    requires Can(w, CheckEnd)
    ensures Do(cfg, w, CheckEnd) == w.(check := Free, nudges := w.nudges + 1)
  {
  }

  lemma ProgressEnds(w: World, targets: set<string>, t: Time, asRead: map<string, bool>, pulled: map<string, Time>)
    requires CheckStands(w, targets, t, asRead, pulled) && Can(w, CheckEnd)
    ensures asRead.Keys == targets
    ensures forall id :: id in targets ==> (id in pulled <==> asRead[id])
    ensures forall id :: id in pulled ==> id in targets && pulled[id] == t
  {
    assert asRead.Keys + {} == asRead.Keys;
  }

  /** Under every schedule, from any check begun in a reachable state to its end: each target
      has been read; those that were IDLE when they were read, and no others, have been written,
      and right after that were due at the instant the check began; and a nudge is on its way. */
  lemma CheckPullsIdle(cfg: Config, now: Time, before: seq<Step>, targets: set<string>, between: seq<Step>)
    requires now > 0 && forall i :: 0 <= i < |between| ==> !between[i].CheckEnd?
    requires var w := WorldRun(cfg, Initial(now, cfg), before);
      Can(w, CheckBegin(targets)) && Can(WorldRun(cfg, Do(cfg, w, CheckBegin(targets)), between), CheckEnd)
    ensures var w := WorldRun(cfg, Initial(now, cfg), before);
      var begun := Do(cfg, w, CheckBegin(targets));
      var asRead, pulled, end := ReadAs(cfg, begun, between), Pulled(cfg, begun, between), Do(cfg, WorldRun(cfg, begun, between), CheckEnd);
      && asRead.Keys == targets
      && (forall id :: id in targets ==> (id in pulled <==> asRead[id]))
      && (forall id :: id in pulled ==> id in targets && pulled[id] == w.clock)
      && end.check.Free? && end.nudges > 0
  {
    var w := WorldRun(cfg, Initial(now, cfg), before);
    var begun := Do(cfg, w, CheckBegin(targets));
    WorkerIsSafe(cfg, now, before);
    StepKeepsSafe(cfg, w, CheckBegin(targets));
    BeginControl(cfg, w, targets);
    CheckProgresses(cfg, begun, between, targets, w.clock);
    ProgressEnds(WorldRun(cfg, begun, between), targets, w.clock, ReadAs(cfg, begun, between), Pulled(cfg, begun, between));
    EndControl(cfg, WorldRun(cfg, begun, between));
  }

  /** A check's steps change no account but the one it has seen, and of that only the wake. */
  lemma CheckTouchesOnlySeen(cfg: Config, w: World, st: Step, id: string)
    requires Safe(cfg, w) && Can(w, st) && (st.CheckBegin? || st.CheckRead? || st.CheckStore? || st.CheckEnd?) && id in w.accounts
    ensures var v := Do(cfg, w, st);
      && id in v.accounts
      && if st.CheckStore? && w.check.seen == Some(id)
         then v.accounts[id] == w.accounts[id].(fsm := w.accounts[id].fsm.(nextWake := w.check.now), clock := w.clock)
         else v.accounts[id] == w.accounts[id]
  {
    if st.CheckStore? { StoreControl(cfg, w); } else { OtherTables(w, st); }
  }

  lemma BeginAndRead(cfg: Config, w: World, id: string)
    requires w.check.Free? && id in w.accounts
    ensures WorldRun(cfg, w, [CheckBegin({id}), CheckRead(id)]) ==
      w.(check := Checking(w.clock, {}, if IsIdle(w, id) then Some(id) else None))
  {
    BeginControl(cfg, w, {id});
    ReadControl(w.(check := Checking(w.clock, {id}, None)), id);
    assert {id} - {id} == {};
    RunTwo(cfg, w, CheckBegin({id}), CheckRead(id));
  }

  lemma StoreAndEnd(cfg: Config, w: World, id: string, t: Time)
    requires w.check == Checking(t, {}, Some(id)) && id in w.accounts
    ensures WorldRun(cfg, w, [CheckStore, CheckEnd]) == w.(check := Free, nudges := w.nudges + 1,
      accounts := w.accounts[id := w.accounts[id].(fsm := w.accounts[id].fsm.(nextWake := t), clock := w.clock)])
  {
    StoreControl(cfg, w);
    EndControl(cfg, Do(cfg, w, CheckStore));
    RunTwo(cfg, w, CheckStore, CheckEnd);
  }

  /** Undisturbed: an IDLE account, however far off its patrol, is due now and the loop will
      hear of it; nothing else changes. */
  lemma IdleCheck(cfg: Config, w: World, id: string)
    requires w.check.Free? && IsIdle(w, id)
    ensures WorldRun(cfg, w, [CheckBegin({id}), CheckRead(id)] + [CheckStore, CheckEnd]) ==
      w.(nudges := w.nudges + 1,
         accounts := w.accounts[id := w.accounts[id].(fsm := w.accounts[id].fsm.(nextWake := w.clock), clock := w.clock)])
  {
    BeginAndRead(cfg, w, id);
    StoreAndEnd(cfg, w.(check := Checking(w.clock, {}, Some(id))), id, w.clock);
    RunAppend(cfg, w, [CheckBegin({id}), CheckRead(id)], [CheckStore, CheckEnd]);
  }

  /** Any other account keeps its wake. */
  lemma BusyCheck(cfg: Config, w: World, id: string)
    requires w.check.Free? && id in w.accounts && !IsIdle(w, id)
    ensures WorldRun(cfg, w, [CheckBegin({id}), CheckRead(id)] + [CheckEnd]) == w.(nudges := w.nudges + 1)
  {
    BeginAndRead(cfg, w, id);
    EndControl(cfg, w.(check := Checking(w.clock, {}, None)));
    RunOne(cfg, w.(check := Checking(w.clock, {}, None)), CheckEnd);
    RunAppend(cfg, w, [CheckBegin({id}), CheckRead(id)], [CheckEnd]);
  }

  /** A manual reset from the management page: any account with no POST or verification in
      flight confirms at once, one with either is left alone, and the loop will hear of it. */
  lemma ForceReaches(cfg: Config, w: World, id: string)
    requires Can(w, ForceAccount(id))
    ensures var v, a := Do(cfg, w, ForceAccount(id)), w.accounts[id];
      && v == w.(nudges := w.nudges + 1, accounts := w.accounts[id := v.accounts[id]])
      && v.accounts[id] == a.(clock := w.clock, fsm := v.accounts[id].fsm)
      && if a.fsm.state.Resetting? || a.fsm.state.Verifying? then v.accounts[id].fsm == a.fsm
         else v.accounts[id].fsm.state.Confirming? && v.accounts[id].fsm.manual && v.accounts[id].fsm.nextWake == w.clock
  {
  }

  /** Hearing of it takes no time: the nudge ends a sleep, whatever its deadline. */
  lemma NudgeEndsSleep(cfg: Config, w: World)
    requires w.pc.Sleeping? && w.nudges > 0
    ensures WorldRun(cfg, w, [Nudge, TokenWake]) == w.(pc := Top, nudges := w.nudges - 1, token := false)
  {
    RunTwo(cfg, w, Nudge, TokenWake);
  }
}
