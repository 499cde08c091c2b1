// What a step of the simulator concludes, names and shows, in terms of what it was answered.

module SimTransitions {
  import opened Models
  import opened Durations
  import opened Simulator
  import opened Retry
  import opened SimEngine
  import SimMatrix

  /** The verdict of a verification: OK when the target is gone, the count is down by one and
      the quota is up, PARTIAL when only the quota is not, MISMATCH otherwise, and only that
      counts as giving up. */
  lemma VerdictOfStep(cfg: SimConfig, s: Sim, u: Upstream)
    requires s.state.Verifying?
    ensures var t := SimStep(cfg, s, u);
      var gone := forall c :: c in u.list.credits && c.id == s.targetId ==> c.status != "available";
      var down1 := u.list.availableCount + 1 == s.preSnap.availableCount;
      var up := u.list.weeklyPct >= 100 || u.list.weeklyPct > s.preSnap.weeklyPct;
      && t.sim.state.Done? && t.wake == NO_TIME
      && (t.sim.verdict == VerifiedOk <==> gone && down1 && up)
      && (t.sim.verdict == Partial <==> gone && down1 && !up)
      && (t.sim.verdict == Mismatch <==> !(gone && down1))
      && (t.sim.gaveUp <==> s.gaveUp || !(gone && down1))
  {
  }

  /** Two attempts for one credit that have seen different numbers of POSTs have different
      keys. */
  lemma KeysDiffer(m: nat, n: nat, id: string)
    requires m != n
    ensures RedeemKey(m, id) != RedeemKey(n, id)
  {
    DigitsAreDigits(m);
    DigitsAreDigits(n);
    var tail := "-" + id;
    assert RedeemKey(m, id)[5..] == Digits(m) + tail && RedeemKey(n, id)[5..] == Digits(n) + tail;
    assert (Digits(m) + tail)[..|Digits(m) + tail| - |tail|] == Digits(m);
    assert (Digits(n) + tail)[..|Digits(n) + tail| - |tail|] == Digits(n);
  }

  function KindsOf(events: seq<Event>): seq<EventKind> { seq(|events|, i requires 0 <= i < |events| => events[i].kind) }

  /** The trail shows the calls of each step, in order and at the instant of the step, and then
      the state it led to. */
  lemma TrailOfStep(s: Sim, t: SimTicked)
    requires !s.state.Done?
    ensures var es := EventsOf(s, t);
      && (forall e :: e in es ==> e.at == s.now)
      && KindsOf(es) ==
           (match s.state
            case Idle => [HttpList]
            case Armed => []
            case Confirming => [HttpList]
            case Resetting => [HttpConsume]
            case _ => [HttpList, HttpUsage]) + [StateChange]
      && (s.state.Idle? || s.state.Confirming? || s.state.Resetting? ==> es[|es| - 1].state == t.sim.state)
      && (s.state.Armed? ==> es[|es| - 1].state == Confirming)
      && (s.state.Verifying? ==> es[|es| - 1].state == Done)
  {
  }

  /** The key of an attempt carries the number of its first POST, as the client counts them. */
  lemma FirstPostHasItsNumber(cfg: SimConfig, s: Sim, u1: Upstream, u2: Upstream)
    requires s.state.Confirming? && SimStep(cfg, s, u1).sim.state.Resetting?
    ensures var posted := SimStep(cfg, SimStep(cfg, s, u1).sim, u2).sim;
      && posted.numPosts == u2.recorded
      && (u2.recorded == s.numPosts + 1 ==> posted.redeemId == "rrid-" + Digits(posted.numPosts) + "-" + posted.targetId)
  {
    SimMatrix.FoundIsListed(u1.list.credits, s.targetId);
  }

  /** Giving up changes nothing of the attempt but the counts of calls and POSTs. */
  lemma GivingUpKeepsAttempt(cfg: SimConfig, s: Sim, u: Upstream)
    requires (s.state.Confirming? || s.state.Resetting?) && SimStep(cfg, s, u).sim.state.Done?
    ensures var t := SimStep(cfg, s, u);
      t.wake == NO_TIME && t.sim == s.(state := Done, gaveUp := true, attempt := t.sim.attempt, numPosts := t.sim.numPosts)
  {
  }

  /** What the scripted client makes of a call: a failure it still owes is paid off and nothing
      else happens; a script that answers reset or already_redeemed runs the hook first; any
      other script is left as it is. */
  lemma ServedCall(hook: Hook, s: Script, id: string)
    ensures var (after, answer) := Served(hook, s, id);
      if s.failFirstN > 0 then after == s.(failFirstN := s.failFirstN - 1) && !answer.Response?
      else
        && answer == Response(after.consumeCode)
        && after == if s.consumeCode in {"reset", "already_redeemed"} then hook(s, id) else s
  {
  }

  /** The hook of the test matrix marks exactly the rows with the credit's id, and refills. */
  lemma {:induction false} MarksRows(rows: seq<Credit>, id: string)
    ensures var marked := MarkRedeemed(rows, id);
      && |marked| == |rows|
      && forall i :: 0 <= i < |rows| ==> marked[i] == if rows[i].id == id then rows[i].(status := "redeemed") else rows[i]
  {
    if rows != [] { MarksRows(rows[..|rows| - 1], id); }
  }
}
