// What a restart makes of everything a run has logged.

module Restarts {
  import opened Models
  import opened CreditSelection
  import opened Machine
  import opened Account
  import opened Attempts
  import opened History
  import opened Backfilling

  // ---------- which entries count ----------

  /** The entry is of a cycle that ended, and its details are not all absent or empty. */
  predicate Tells(e: LogEntry) {
    e.state == Done && e.details.Some?
    && (e.details.value.preCredits != 0 || e.details.value.postCredits != 0 || e.details.value.creditId != "")
  }

  /** The record and the entry are of one account and one credit, in one second. */
  predicate SameReset(r: ResetRecord, e: LogEntry)
    requires e.details.Some?
  {
    r.authId == e.scope && r.creditId == e.details.value.creditId && r.timestamp / 1_000_000_000 == e.timestamp / 1_000_000_000
  }

  /** Any other entry makes no difference to a restart, wherever it stands. */
  lemma OtherEntriesChangeNothing(history: seq<ResetRecord>, a: seq<LogEntry>, e: LogEntry, b: seq<LogEntry>)
    requires !Tells(e)
    ensures Repair(history, a + [e] + b) == Repair(history, a + b)
  {
    var c := Collapse(history);
    BackfillConcat(c, a + [e], b);
    BackfillConcat(c, a, [e]);
    BackfillConcat(c, a, b);
    BackfillOne(Backfill(c, a), e);
  }

  /** An entry that counts is known after the restart. */
  lemma TellingEntryIsKnown(history: seq<ResetRecord>, logs: seq<LogEntry>, e: LogEntry)
    requires e in logs && Tells(e)
    ensures exists r :: r in Repair(history, logs) && SameReset(r, e)
  {
    RepairIsIdempotent(history, logs);
    assert HasKey(Repair(history, logs), LogKey(e));
  }

  predicate Rebuilds(r: ResetRecord, e: LogEntry) {
    Tells(e)
    && r.timestamp == e.timestamp && r.authId == e.scope && r.creditId == e.details.value.creditId
    && r.success == e.verifiedOk
    && r.preWeeklyPct == e.details.value.preWeekly && r.postWeeklyPct == e.details.value.postWeekly
    && r.preCredits == e.details.value.preCredits && r.postCredits == e.details.value.postCredits
  }

  lemma {:induction false} AddedByBackfill(history: seq<ResetRecord>, logs: seq<LogEntry>, r: ResetRecord)
    requires r in Backfill(history, logs) && r !in history
    ensures exists e :: e in logs && Rebuilds(r, e)
  {
    var init, last := logs[..|logs| - 1], logs[|logs| - 1];
    if r in Backfill(history, init) {
      AddedByBackfill(history, init, r);
      var e :| e in init && Rebuilds(r, e);
      assert e in logs;
    } else {
      assert last in logs && Rebuilds(r, last);
    }
  }

  /** What a restart adds comes from an entry that counts, field by field. */
  lemma AddedRecordWasLogged(history: seq<ResetRecord>, logs: seq<LogEntry>, r: ResetRecord)
    requires r in Repair(history, logs) && r !in history
    ensures exists e :: e in logs && Rebuilds(r, e)
  {
    if r in Collapse(history) { CollapseKeeps(history, r); }
    AddedByBackfill(Collapse(history), logs, r);
  }

  lemma {:induction false} CollapseKeeps(s: seq<ResetRecord>, r: ResetRecord)
    requires r in Collapse(s)
    ensures r in s
  {
    var init := s[..|s| - 1];
    assert s == init + [s[|s| - 1]];
    if r in Collapse(init) { CollapseKeeps(init, r); }
  }

  // ---------- what a cycle logs ----------

  const NO_DETAILS := LogDetails("", 0, 0, 0, 0)

  function Entry(p: Settings, at: Time, state: State, details: Option<LogDetails>): LogEntry {
    LogEntry(at, p.authId, state, false, details)
  }

  /** The entry a tick logs, if it logs one; details the backfill does not read are dropped,
      and those it would read and the entry lacks are empty. */
  function TickLog(p: Settings, f: Fsm, e: Env, at: Time): Option<LogEntry> {
    var g := Step(p, f, e).fsm;
    match f.state
    case Idle =>
      var avail := if e.list.Some? then Select(e.list.value.credits, e.now) else [];
      Some(Entry(p, at, g.state,
        if avail == [] || avail[0].expiresAt == NO_TIME then None else Some(NO_DETAILS.(creditId := avail[0].id))))
    case Armed => Some(Entry(p, at, g.state, None))
    case Confirming =>
      Some(Entry(p, at, g.state,
        match g.state
        case Armed => Some(NO_DETAILS.(creditId := f.scheduled))
        case Resetting =>
          Some(NO_DETAILS.(creditId := g.attempt.target, preCredits := g.attempt.pre.availableCount,
                           preWeekly := g.attempt.pre.weeklyPct))
        case _ => None))
    case Resetting =>
      Some(Entry(p, at, g.state, Some(if g.state.Verifying? then NO_DETAILS.(creditId := f.attempt.target) else NO_DETAILS)))
    case Verifying =>
      if Fetches(f, e) then Some(VerificationLog(p, f, e, at)) else Some(Entry(p, at, g.state, Some(NO_DETAILS)))
    case Done => None
  }

  /** Of all the entries of a cycle only the one of a fetched verification counts. */
  lemma OnlyVerificationsTell(p: Settings, f: Fsm, e: Env, at: Time)
    requires Fetches(f, e) ==> f.attempt.target != ""
    ensures TickLog(p, f, e, at).Some? && Tells(TickLog(p, f, e, at).value) <==> Fetches(f, e)
  {
  }

  /** What a run logs, each entry with the stamp of its own clock reading. */
  function Trail(p: Settings, start: Time, acts: seq<Action>, stamps: seq<Time>): seq<LogEntry>
    requires |stamps| == |acts|
  {
    if acts == [] then []
    else
      var n := |acts| - 1;
      Trail(p, start, acts[..n], stamps[..n]) + LogOf(p, Run(p, Fresh(start), acts[..n]), acts[n], stamps[n])
  }

  /** A tick logs its entry; a failed load, and the clearing of the host's cooldown after a
      verified reset, log one without details; a log call that panics leaves none. */
  function LogOf(p: Settings, a: Account, act: Action, at: Time): seq<LogEntry> {
    match act
    case Tick(e) => var l := TickLog(p, a.fsm, e, at); if l.Some? then [l.value] else []
    case LoadFailed(_) => [Entry(p, at, a.fsm.state, None)]
    case Sync => if a.fsm.pending.Some? && a.fsm.pending.value.success then [Entry(p, at, Done, None)] else []
    case _ => []
  }

  /** The entry reports the verification. */
  predicate Reports(v: Verification, e: LogEntry) {
    Tells(e) && Rebuilds(v.record.(timestamp := e.timestamp), e)
  }

  ghost predicate TrailMatches(a: Account, trail: seq<LogEntry>) {
    forall e :: e in trail && Tells(e) ==> exists v :: v in a.verified && Reports(v, e)
  }

  lemma {:induction false} TrailOfRun(p: Settings, start: Time, acts: seq<Action>, stamps: seq<Time>)
    requires start > 0 && p.refreshInterval > 0 && Legal(p, Fresh(start), acts) && |stamps| == |acts|
    ensures TrailMatches(Run(p, Fresh(start), acts), Trail(p, start, acts, stamps))
  {
    if acts == [] {
    } else {
      var n := |acts| - 1;
      var a, act := Run(p, Fresh(start), acts[..n]), acts[n];
      TrailOfRun(p, start, acts[..n], stamps[..n]);
      RunKeepsAttempted(p, start, acts[..n]);
      LogMatches(p, a, act, stamps[n]);
      ApplyContinues(p, a, act);
    }
  }

  lemma LogMatches(p: Settings, a: Account, act: Action, at: Time)
    requires Attempted(a) && Enabled(a, act)
    ensures TrailMatches(Apply(p, a, act), LogOf(p, a, act, at))
  {
    if act.Tick? {
      OnlyVerificationsTell(p, a.fsm, act.e, at);
      if Fetches(a.fsm, act.e) {
        var v := Verify(p, a.fsm, act.e);
        assert v in Apply(p, a, act).verified;
        assert Reports(v, VerificationLog(p, a.fsm, act.e, at));
      }
    }
  }

  /** However many cycles a run went through, and however they ended, a restart that finds its
      log adds to the history only records of verifications the run made, each as it was but
      for the stamp: no patrol, confirmation, retry, refusal or failed verification becomes a
      reset that was not. */
  lemma RestartAddsOnlyVerifications(p: Settings, start: Time, acts: seq<Action>, stamps: seq<Time>, history: seq<ResetRecord>, r: ResetRecord)
    requires start > 0 && p.refreshInterval > 0 && Legal(p, Fresh(start), acts) && |stamps| == |acts|
    requires r in Repair(history, Trail(p, start, acts, stamps)) && r !in history
    ensures exists v :: v in Run(p, Fresh(start), acts).verified && r == v.record.(timestamp := r.timestamp)
  {
    var trail := Trail(p, start, acts, stamps);
    AddedRecordWasLogged(history, trail, r);
    TrailOfRun(p, start, acts, stamps);
    var e :| e in trail && Rebuilds(r, e);
    var v :| v in Run(p, Fresh(start), acts).verified && Reports(v, e);
    assert r == v.record.(timestamp := r.timestamp);
  }

  lemma {:induction false} TrailTells(p: Settings, start: Time, acts: seq<Action>, stamps: seq<Time>, v: Verification)
    requires start > 0 && p.refreshInterval > 0 && Legal(p, Fresh(start), acts) && |stamps| == |acts|
    requires forall i :: 0 <= i < |acts| ==> !(acts[i].TickPanic? && acts[i].point.InLog?)
    requires v in Run(p, Fresh(start), acts).verified
    ensures exists e :: e in Trail(p, start, acts, stamps) && Reports(v, e)
  {
    var n := |acts| - 1;
    var a, act := Run(p, Fresh(start), acts[..n]), acts[n];
    if v in a.verified {
      TrailTells(p, start, acts[..n], stamps[..n], v);
      var e :| e in Trail(p, start, acts[..n], stamps[..n]) && Reports(v, e);
      assert e in Trail(p, start, acts, stamps);
    } else {
      RunKeepsAttempted(p, start, acts[..n]);
      var e := VerificationLog(p, a.fsm, act.e, stamps[n]);
      OnlyVerificationsTell(p, a.fsm, act.e, stamps[n]);
      assert Reports(v, e) && e in LogOf(p, a, act, stamps[n]);
    }
  }

  /** And as long as no log call panicked, a restart knows every verification of the run, even
      if none of its records had reached the disk. */
  lemma RestartKnowsVerifications(p: Settings, start: Time, acts: seq<Action>, stamps: seq<Time>, history: seq<ResetRecord>, v: Verification)
    requires start > 0 && p.refreshInterval > 0 && Legal(p, Fresh(start), acts) && |stamps| == |acts|
    requires forall i :: 0 <= i < |acts| ==> !(acts[i].TickPanic? && acts[i].point.InLog?)
    requires v in Run(p, Fresh(start), acts).verified
    ensures exists r, e :: r in Repair(history, Trail(p, start, acts, stamps)) && e in Trail(p, start, acts, stamps)
                           && Reports(v, e) && SameReset(r, e)
  {
    TrailTells(p, start, acts, stamps, v);
    var e :| e in Trail(p, start, acts, stamps) && Reports(v, e);
    TellingEntryIsKnown(history, Trail(p, start, acts, stamps), e);
  }
}
