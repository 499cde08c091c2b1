// A request that is served too late: the run in which an abandoned attempt's request spends
// its credit while the next attempt waits to verify.

module LateRequest {
  import opened Models
  import opened CreditSelection
  import opened Retry
  import opened Machine
  import opened Account
  import opened Redemption

  const FIRST := Credit("c1", "available", NO_TIME)
  const SECOND := Credit("c2", "available", NO_TIME)

  function Answers(now: Time, credits: seq<Credit>, consume: ConsumeOutcome, key: string): Env {
    Env(now, now, Some(Snapshot(|credits|, credits, -1)), Some(15), consume, key)
  }

  /** A tick with its POST's fate, and its sync. */
  function Ticked(p: Settings, s: System, e: Env, net: Network): System {
    Next(p, Next(p, s, Ours(Tick(e), net)), Ours(Sync, Delivered))
  }

  lemma RunSnoc(p: Settings, s: System, ms: seq<Move>, m: Move)
    ensures SystemRun(p, s, ms + [m]) == Next(p, SystemRun(p, s, ms), m)
    ensures QuietLegal(p, s, ms + [m]) <==> QuietLegal(p, s, ms) && QuietMove(SystemRun(p, s, ms), m)
  {
    assert (ms + [m])[..|ms|] == ms;
  }

  lemma RunTicked(p: Settings, s: System, ms: seq<Move>, e: Env, net: Network)
    requires QuietLegal(p, s, ms) && MoveEnabled(SystemRun(p, s, ms), Ours(Tick(e), net))
    ensures var more := ms + [Ours(Tick(e), net)] + [Ours(Sync, Delivered)];
      QuietLegal(p, s, more) && SystemRun(p, s, more) == Ticked(p, SystemRun(p, s, ms), e, net)
  {
    RunSnoc(p, s, ms, Ours(Tick(e), net));
    RunSnoc(p, s, ms + [Ours(Tick(e), net)], Ours(Sync, Delivered));
  }

  /** Between two ticks, due now, with keys used so far and nothing verified. */
  predicate Due(s: System, now: Time, keys: set<string>) {
    var a := s.acct;
    && a.phase.Ready? && a.fsm.nextWake <= now && 0 < a.clock <= now && a.minted.Keys == keys && a.verified == []
  }

  lemma ConfirmsFirst(p: Settings, f: Fsm, now: Time, credits: seq<Credit>, key: string)
    requires f.state.Confirming? && f.manual && now > 0
    requires credits == [FIRST] || credits == [SECOND, FIRST]
    ensures var g := StepAndSettle(p, f, Answers(now, credits, NoAnswer, key)).fsm;
      && g.state.Resetting? && g.nextWake == now
      && g.attempt == ResetAttempt(key, credits[0].id, Snapshot(|credits|, credits, 15), now, 0, NO_TIME)
  {
    NeverExpiringAreSelected(credits, now);
  }

  /** A manual cycle confirms the first credit listed. */
  lemma Confirms(p: Settings, s: System, now: Time, credits: seq<Credit>, key: string, keys: set<string>)
    requires credits == [FIRST] || credits == [SECOND, FIRST]
    requires Due(s, now, keys) && key != "" && key !in keys
    requires s.acct.fsm.state.Confirming? && s.acct.fsm.manual
    requires |s.server.available| == |credits| && forall c :: c in credits ==> c.id in s.server.available
    ensures var e := Answers(now, credits, NoAnswer, key);
      && MoveEnabled(s, Ours(Tick(e), Delivered))
      && var v := Ticked(p, s, e, Delivered);
      && Due(v, now, keys + {key}) && v.server == s.server && v.late == s.late && v.strays == 0
      && v.acct.fsm.state.Resetting?
      && v.acct.fsm.attempt == ResetAttempt(key, credits[0].id, Snapshot(|credits|, credits, 15), now, 0, NO_TIME)
  {
    ConfirmsFirst(p, s.acct.fsm, now, credits, key);
  }

  /** The answer of a POST. */
  function Posted(now: Time, consume: ConsumeOutcome): Env { Env(now, now, None, None, consume, "spare") }

  /** No answer comes to the first POST, and its request stays in flight. */
  lemma StaysInFlight(p: Settings, s: System, now: Time, keys: set<string>)
    requires Due(s, now, keys) && "" !in keys && "spare" !in keys
    requires s.acct.fsm.state.Resetting? && s.acct.fsm.attempt.attempt == 0
    ensures var e := Posted(now, NoAnswer);
      && MoveEnabled(s, Ours(Tick(e), Delayed))
      && var v := Ticked(p, s, e, Delayed);
      && Due(v, now + MINUTE, keys) && v.server == s.server && v.late == s.late + [Request(s)]
      && v.acct.fsm.state.Resetting?
  {
  }

  /** The retry is refused, and the attempt abandoned; its other request is still in flight. */
  lemma IsAbandoned(p: Settings, s: System, now: Time, keys: set<string>)
    requires Due(s, now, keys) && "spare" !in keys && s.acct.fsm.state.Resetting?
    ensures var e := Posted(now, HttpError(400));
      && MoveEnabled(s, Ours(Tick(e), RequestLost))
      && var v := Ticked(p, s, e, RequestLost);
      && v.server == s.server && v.late == s.late
      && v.acct.fsm.state.Idle? && v.acct.phase.Ready? && v.acct.clock == now
      && v.acct.minted == s.acct.minted && v.acct.verified == []
  {
  }

  /** The second attempt is accepted. */
  lemma IsAccepted(p: Settings, s: System, now: Time, keys: set<string>)
    requires Due(s, now, keys) && "spare" !in keys && s.acct.fsm.state.Resetting?
    requires s.acct.fsm.attempt.redeemId !in s.server.keys && s.acct.fsm.attempt.target in s.server.available
    ensures var e := Posted(now, Response("reset"));
      && MoveEnabled(s, Ours(Tick(e), Delivered))
      && var v := Ticked(p, s, e, Delivered);
      && Due(v, now + VERIFY_DELAY, keys) && v.acct.fsm.state.Verifying? && v.acct.fsm.attempt == s.acct.fsm.attempt
      && v.late == s.late && v.strays == s.strays
      && v.server == Server(s.server.available - {Request(s).creditId},
                            s.server.keys[Request(s).redeemId := Request(s).creditId], s.server.spent + [Request(s)])
  {
  }

  /** With both credits gone, one short of what the attempt expects, the verification fails. */
  lemma IsAlarmed(p: Settings, s: System, now: Time, keys: set<string>)
    requires Due(s, now, keys) && "spare" !in keys && s.acct.fsm.state.Verifying?
    requires s.server.available == map[] && s.acct.fsm.attempt.pre.availableCount == 2
    ensures var e := Answers(now, [], NoAnswer, "spare");
      && MoveEnabled(s, Ours(Tick(e), Delivered))
      && var v := Ticked(p, s, e, Delivered);
      && v.server == s.server && |v.acct.verified| == 1 && v.acct.verified[0].Mismatch()
      && v.acct.verified[0].redeemId == s.acct.fsm.attempt.redeemId
  {
  }

  function Origin(start: Time): System { Redemption.Start(start, map["c1" := NO_TIME]) }

  lemma Forced(p: Settings, s: System, now: Time, keys: set<string>)
    requires (s.acct.fsm.state.Idle? && s.acct.phase.Ready? && 0 < s.acct.clock <= now && s.acct.verified == [])
    requires s.acct.minted.Keys == keys
    ensures var v := Next(p, s, Ours(Force(now), Delivered));
      && MoveEnabled(s, Ours(Force(now), Delivered))
      && Due(v, now, keys) && v.acct.fsm.state.Confirming? && v.acct.fsm.manual
      && v.server == s.server && v.late == s.late
  {
  }

  lemma Then(p: Settings, s: System, ms: seq<Move>, e: Env, net: Network) returns (more: seq<Move>)
    requires QuietLegal(p, s, ms) && MoveEnabled(SystemRun(p, s, ms), Ours(Tick(e), net))
    ensures QuietLegal(p, s, more) && SystemRun(p, s, more) == Ticked(p, SystemRun(p, s, ms), e, net)
  {
    RunTicked(p, s, ms, e, net);
    more := ms + [Ours(Tick(e), net)] + [Ours(Sync, Delivered)];
  }

  /** The first attempt, its first request in flight. */
  lemma FirstPost(p: Settings, start: Time) returns (ms: seq<Move>)
    requires start > 0
    ensures QuietLegal(p, Origin(start), ms)
    ensures var s := SystemRun(p, Origin(start), ms);
      && Due(s, start + MINUTE, {"k1"}) && s.acct.fsm.state.Resetting? && s.late == [Redeemed("k1", "c1")]
      && s.server == Origin(start).server
  {
    var s0 := Origin(start);
    Forced(p, s0, start, {});
    RunSnoc(p, s0, [], Ours(Force(start), Delivered));
    ms := [] + [Ours(Force(start), Delivered)];
    Confirms(p, SystemRun(p, s0, ms), start, [FIRST], "k1", {});
    ms := Then(p, s0, ms, Answers(start, [FIRST], NoAnswer, "k1"), Delivered);
    StaysInFlight(p, SystemRun(p, s0, ms), start, {"k1"});
    ms := Then(p, s0, ms, Posted(start, NoAnswer), Delayed);
  }

  /** ... and abandoned, with that request still in flight, before a second credit comes. */
  lemma FirstAttempt(p: Settings, start: Time) returns (ms: seq<Move>)
    requires start > 0
    ensures QuietLegal(p, Origin(start), ms)
    ensures var s := SystemRun(p, Origin(start), ms);
      && Due(s, start + MINUTE, {"k1"}) && s.acct.fsm.state.Confirming? && s.acct.fsm.manual
      && s.late == [Redeemed("k1", "c1")]
      && s.server == Server(map["c1" := NO_TIME, "c2" := NO_TIME], map[], [])
  {
    var s0, now := Origin(start), start + MINUTE;
    ms := FirstPost(p, start);
    IsAbandoned(p, SystemRun(p, s0, ms), now, {"k1"});
    ms := Then(p, s0, ms, Posted(now, HttpError(400)), RequestLost);
    RunSnoc(p, s0, ms, Grant("c2", NO_TIME));
    ms := ms + [Grant("c2", NO_TIME)];
    Forced(p, SystemRun(p, s0, ms), now, {"k1"});
    RunSnoc(p, s0, ms, Ours(Force(now), Delivered));
    ms := ms + [Ours(Force(now), Delivered)];
  }

  /** The second attempt, confirmed for c2 with both credits listed ... */
  lemma SecondConfirmed(p: Settings, start: Time) returns (ms: seq<Move>)
    requires start > 0
    ensures QuietLegal(p, Origin(start), ms)
    ensures var s := SystemRun(p, Origin(start), ms);
      && Due(s, start + MINUTE, {"k1", "k2"}) && s.acct.fsm.state.Resetting?
      && Request(s) == Redeemed("k2", "c2") && s.acct.fsm.attempt.pre.availableCount == 2
      && s.late == [Redeemed("k1", "c1")]
      && s.server == Server(map["c1" := NO_TIME, "c2" := NO_TIME], map[], [])
  {
    var s0, now := Origin(start), start + MINUTE;
    ms := FirstAttempt(p, start);
    assert |SystemRun(p, s0, ms).server.available| == 2;
    Confirms(p, SystemRun(p, s0, ms), now, [SECOND, FIRST], "k2", {"k1"});
    ms := Then(p, s0, ms, Answers(now, [SECOND, FIRST], NoAnswer, "k2"), Delivered);
  }

  /** ... and accepted. */
  lemma SecondAttempt(p: Settings, start: Time) returns (ms: seq<Move>)
    requires start > 0
    ensures QuietLegal(p, Origin(start), ms)
    ensures var s := SystemRun(p, Origin(start), ms);
      && Due(s, start + MINUTE + VERIFY_DELAY, {"k1", "k2"}) && s.acct.fsm.state.Verifying?
      && s.acct.fsm.attempt.redeemId == "k2" && s.acct.fsm.attempt.pre.availableCount == 2
      && s.late == [Redeemed("k1", "c1")]
      && s.server == Server(map["c1" := NO_TIME], map["k2" := "c2"], [Redeemed("k2", "c2")])
  {
    var s0, now := Origin(start), start + MINUTE;
    ms := SecondConfirmed(p, start);
    IsAccepted(p, SystemRun(p, s0, ms), now, {"k1", "k2"});
    ms := Then(p, s0, ms, Posted(now, Response("reset")), Delivered);
    assert map["c1" := NO_TIME, "c2" := NO_TIME] - {"c2"} == map["c1" := NO_TIME];
  }

  /** A run with quiet windows whose second attempt redeems exactly its own credit, and whose
      verification reports a MISMATCH all the same: the abandoned attempt's request was served
      in between. */
  lemma LateRequestMismatches(p: Settings, start: Time) returns (ms: seq<Move>)
    requires start > 0
    ensures QuietLegal(p, Origin(start), ms)
    ensures var s := SystemRun(p, Origin(start), ms);
      && s.server.spent == [Redeemed("k2", "c2"), Redeemed("k1", "c1")]
      && |s.acct.verified| == 1 && s.acct.verified[0].redeemId == "k2" && s.acct.verified[0].Mismatch()
  {
    var s0 := Origin(start);
    ms := SecondAttempt(p, start);
    RunSnoc(p, s0, ms, ServedLate(0));
    ms := ms + [ServedLate(0)];
    var s := SystemRun(p, s0, ms);
    assert s.server.available == map[];
    IsAlarmed(p, s, start + MINUTE + VERIFY_DELAY, {"k1", "k2"});
    ms := Then(p, s0, ms, Answers(start + MINUTE + VERIFY_DELAY, [], NoAnswer, "spare"), Delivered);
  }
}
