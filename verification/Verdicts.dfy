// Where keys and verdicts come from: in every run each key was minted by a tick both of whose
// calls answered, and each record compares exactly those answers with the later ones.

module Verdicts {
  import opened Models
  import opened CreditSelection
  import opened Machine
  import opened Account

  /** e is a tick that mints key for target: both calls answered, and the listing has the
      target, available and not expired. */
  ghost predicate Minting(e: Env, key: string, target: string) {
    && e.list.Some? && e.usage.Some? && e.freshId == key && target != ""
    && exists c :: c in e.list.value.credits && c.id == target && c.status == "available"
                   && (c.expiresAt == 0 || e.now < c.expiresAt)
  }

  /** The attempt of a tick that mints: its snapshot is the listing with the usage answered. */
  ghost predicate AttemptOf(t: ResetAttempt, e: Env, target: string) {
    && e.list.Some? && e.usage.Some? && t.target == target && t.startedAt == e.now
    && t.pre.availableCount == e.list.value.availableCount && t.pre.credits == e.list.value.credits
    && t.pre.weeklyPct == e.usage.value
  }

  /** The record of a verification that saw after, of an attempt minted at before. */
  ghost predicate Compares(p: Settings, r: ResetRecord, target: string, before: Env, after: Env) {
    && before.list.Some? && before.usage.Some? && after.list.Some? && after.usage.Some?
    && r.timestamp == after.later && r.authId == p.authId && r.creditId == target
    && r.preWeeklyPct == before.usage.value && r.postWeeklyPct == after.usage.value
    && r.preCredits == before.list.value.availableCount && r.postCredits == after.list.value.availableCount
    && (r.success <==>
          && (forall c :: c in after.list.value.credits && c.id == target ==> c.status != "available")
          && r.postCredits == r.preCredits - 1
          && (r.postWeeklyPct >= 100 || r.postWeeklyPct > r.preWeeklyPct))
  }

  ghost predicate KeysGrounded(minted: map<string, string>, origin: map<string, Env>) {
    origin.Keys == minted.Keys && forall k :: k in minted ==> Minting(origin[k], k, minted[k])
  }

  ghost predicate RecordsGrounded(p: Settings, verified: seq<Verification>, minted: map<string, string>, origin: map<string, Env>) {
    forall v :: v in verified ==>
      v.redeemId in minted && v.redeemId in origin
      && Compares(p, v.record, minted[v.redeemId], origin[v.redeemId], v.seen)
  }

  ghost predicate Grounded(p: Settings, a: Account) {
    && KeysGrounded(a.minted, a.origin)
    && RecordsGrounded(p, a.verified, a.minted, a.origin)
    && (a.fsm.state.Resetting? || a.fsm.state.Verifying? ==>
          && a.fsm.attempt.redeemId in a.minted
          && AttemptOf(a.fsm.attempt, a.origin[a.fsm.attempt.redeemId], a.minted[a.fsm.attempt.redeemId]))
  }

  lemma NewKeyGrounds(p: Settings, verified: seq<Verification>, minted: map<string, string>, origin: map<string, Env>, key: string, target: string, e: Env)
    requires KeysGrounded(minted, origin) && RecordsGrounded(p, verified, minted, origin)
    requires key !in minted && Minting(e, key, target)
    ensures KeysGrounded(minted[key := target], origin[key := e])
    ensures RecordsGrounded(p, verified, minted[key := target], origin[key := e])
  {
  }

  lemma ConfirmMints(p: Settings, f: Fsm, e: Env)
    requires f.state.Confirming? && Step(p, f, e).fsm.state.Resetting?
    ensures var t := Step(p, f, e).fsm.attempt;
      t.redeemId == e.freshId && Minting(e, e.freshId, t.target) && AttemptOf(t, e, t.target)
  {
    SelectIsSoonestFirst(e.list.value.credits, e.now);
    var c := ConfirmTarget(f, Select(e.list.value.credits, e.now)).value;
    assert c in e.list.value.credits;
  }

  lemma VerifyCompares(p: Settings, a: Account, e: Env)
    requires Grounded(p, a) && Fetches(a.fsm, e)
    ensures var k := a.fsm.attempt.redeemId;
      k in a.minted && Compares(p, Verify(p, a.fsm, e).record, a.minted[k], a.origin[k], Verify(p, a.fsm, e).seen)
  {
  }

  lemma MintKeepsGrounded(p: Settings, a: Account, e: Env, g: Fsm, phase: Phase)
    requires Grounded(p, a) && Due(a, e) && Outcome(p, a, e, g) && a.fsm.state.Confirming? && g.state.Resetting?
    ensures Grounded(p, Called(a, e, g, phase))
  {
    ConfirmMints(p, a.fsm, e);
    assert g.attempt == Step(p, a.fsm, e).fsm.attempt;
    NewKeyGrounds(p, a.verified, a.minted, a.origin, g.attempt.redeemId, g.attempt.target, e);
  }

  lemma OtherKeepsGrounded(p: Settings, a: Account, e: Env, g: Fsm, phase: Phase)
    requires Grounded(p, a) && Edge(a.fsm, e, g) && !(a.fsm.state.Confirming? && g.state.Resetting?)
    ensures Grounded(p, Called(a, e, g, phase))
  {
  }

  lemma VerifyKeepsGrounded(p: Settings, a: Account, b: Account, e: Env)
    requires Grounded(p, a) && Grounded(p, b) && Fetches(a.fsm, e)
    requires b.minted == a.minted && b.origin == a.origin && b.verified == a.verified
    ensures Grounded(p, b.(verified := VerifiedAfter(p, a, e)))
  {
    VerifyCompares(p, a, e);
  }

  lemma CalledKeepsGrounded(p: Settings, a: Account, e: Env, g: Fsm, phase: Phase)
    requires Grounded(p, a) && Due(a, e) && Outcome(p, a, e, g)
    ensures Grounded(p, Called(a, e, g, phase).(verified := VerifiedAfter(p, a, e)))
  {
    OutcomeIsEdge(p, a, e, g);
    if a.fsm.state.Confirming? && g.state.Resetting? { MintKeepsGrounded(p, a, e, g, phase); }
    else { OtherKeepsGrounded(p, a, e, g, phase); }
    if Fetches(a.fsm, e) { VerifyKeepsGrounded(p, a, Called(a, e, g, phase), e); }
  }

  lemma ApplyKeepsGrounded(p: Settings, a: Account, act: Action)
    requires Grounded(p, a) && Enabled(a, act)
    ensures Grounded(p, Apply(p, a, act))
  {
    match act
    case Tick(e) => CalledKeepsGrounded(p, a, e, StepAndSettle(p, a.fsm, e).fsm, Unsynced);
    case TickPanic(e, InLog) => CalledKeepsGrounded(p, a, e, PanickedInLog(p, a.fsm, e), Recovering);
    case _ =>
  }

  lemma {:induction false} RunIsGrounded(p: Settings, start: Time, acts: seq<Action>)
    requires Legal(p, Fresh(start), acts)
    ensures Grounded(p, Run(p, Fresh(start), acts))
  {
    if acts == [] {
    } else {
      RunIsGrounded(p, start, acts[..|acts| - 1]);
      ApplyKeepsGrounded(p, Run(p, Fresh(start), acts[..|acts| - 1]), acts[|acts| - 1]);
    }
  }

  /** No key without both answers: in every run each minted key comes from a tick whose listing
      and whose usage call answered, for a credit that listing had. */
  lemma KeysComeFromAnswers(p: Settings, start: Time, acts: seq<Action>)
    requires Legal(p, Fresh(start), acts)
    ensures var a := Run(p, Fresh(start), acts);
      forall k :: k in a.minted ==> k in a.origin && Minting(a.origin[k], k, a.minted[k])
  {
    RunIsGrounded(p, start, acts);
  }

  /** Every record of every run carries the usage and the count that were answered when its key
      was minted and those answered when it was verified, and reports success exactly when
      these show the deduction in all three ways. */
  lemma RecordsCompareAnswers(p: Settings, start: Time, acts: seq<Action>)
    requires Legal(p, Fresh(start), acts)
    ensures var a := Run(p, Fresh(start), acts);
      forall v :: v in a.verified ==>
        && v.redeemId in a.minted && v.redeemId in a.origin
        && Compares(p, v.record, a.minted[v.redeemId], a.origin[v.redeemId], v.seen)
  {
    RunIsGrounded(p, start, acts);
  }
}
