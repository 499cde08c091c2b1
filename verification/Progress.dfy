// No account is ever stranded, and at a frozen clock every account runs out of due work.

module Progress {
  import opened Models
  import opened Machine
  import opened Account
  import opened Attempts

  /** In every reachable state the account has a wake, so the worker will come back to it. */
  lemma NeverStranded(p: Settings, start: Time, acts: seq<Action>)
    requires start > 0 && p.refreshInterval > 0 && Legal(p, Fresh(start), acts)
    ensures Run(p, Fresh(start), acts).fsm.nextWake != NO_TIME
  {
    RunKeepsAttempted(p, start, acts);
  }

  lemma StepSettlesDone(p: Settings, f: Fsm, e: Env)
    ensures !StepAndSettle(p, f, e).fsm.state.Done?
  {
  }

  /** Only a panicking log callback leaves an account in DONE. */
  lemma {:induction false} DoneOnlyByPanic(p: Settings, start: Time, acts: seq<Action>)
    requires Legal(p, Fresh(start), acts)
    requires forall i :: 0 <= i < |acts| && acts[i].TickPanic? ==> acts[i].point.InCall?
    ensures !Run(p, Fresh(start), acts).fsm.state.Done?
  {
    if acts == [] {
    } else {
      DoneOnlyByPanic(p, start, acts[..|acts| - 1]);
      var act := acts[|acts| - 1];
      if act.Tick? { StepSettlesDone(p, Run(p, Fresh(start), acts[..|acts| - 1]).fsm, act.e); }
    }
  }

  /** A DONE account keeps a wake under every action; its next tick returns it to IDLE one
      refresh interval out, and a manual reset takes it to CONFIRMING at once. */
  lemma DoneHeals(p: Settings, a: Account, act: Action)
    requires Attempted(a) && a.fsm.state.Done? && Enabled(a, act) && p.refreshInterval > 0
    ensures var b := Apply(p, a, act);
      && b.fsm.nextWake != NO_TIME
      && (act.Tick? ==>
            && b.fsm.state.Idle? && b.fsm.nextWake == act.e.later + p.refreshInterval
            && b.fsm.scheduled == "" && !b.fsm.manual && b.fsm.attempt == NO_ATTEMPT)
      && (act.Force? ==> b.fsm.state.Confirming? && b.fsm.manual && b.fsm.nextWake == act.now)
      && (!act.Tick? && !act.Force? ==> b.fsm.state.Done?)
  {
    ApplyKeepsAttempted(p, a, act);
  }

  // ---------- due work at a frozen clock ----------

  function Rank(s: State): nat {
    match s
    case Idle => 4
    case Armed => 3
    case Confirming => 2
    case _ => 1
  }

  predicate Frozen(e: Env, t: Time) { e.now == t && e.later == t }

  /** At a frozen clock a tick either puts the wake in the future or lowers the rank. */
  lemma TickLowersRank(p: Settings, a: Account, e: Env)
    requires Attempted(a) && Due(a, e) && Frozen(e, e.now) && Normalized(p)
    ensures var b := Apply(p, a, Tick(e));
      b.fsm.nextWake > e.now || (b.fsm.nextWake == e.now && Rank(b.fsm.state) < Rank(a.fsm.state))
  {
  }

  function TickAndSync(p: Settings, a: Account, e: Env): Account {
    Apply(p, Apply(p, a, Tick(e)), Sync)
  }

  /** Every tick of es finds its account due at the frozen instant t. */
  predicate FrozenTicks(p: Settings, a: Account, es: seq<Env>, t: Time)
    decreases |es|
  {
    es == [] ||
    (Frozen(es[0], t) && Due(a, es[0]) && FrozenTicks(p, TickAndSync(p, a, es[0]), es[1..], t))
  }

  /** An account takes at most four ticks before its wake is strictly in the future. */
  lemma {:induction false} AtMostFourTicks(p: Settings, a: Account, es: seq<Env>, t: Time)
    requires Attempted(a) && Normalized(p) && FrozenTicks(p, a, es, t)
    ensures |es| <= Rank(a.fsm.state) <= 4
    decreases |es|
  {
    if es == [] {
    } else {
      var b := Apply(p, a, Tick(es[0]));
      TickLowersRank(p, a, es[0]);
      ApplyKeepsAttempted(p, a, Tick(es[0]));
      ApplyKeepsAttempted(p, b, Sync);
      if b.fsm.nextWake > t {
        assert FrozenTicks(p, Apply(p, b, Sync), es[1..], t) && es[1..] == [];
      } else {
        AtMostFourTicks(p, Apply(p, b, Sync), es[1..], t);
      }
    }
  }
}
