// The production machine simulates the simulator's machine step for step, when neither
// fetch fails, no request is refused with a 4xx and nobody resets by hand.

module Refinement {
  import opened Models
  import opened CreditSelection
  import opened Retry
  import opened Machine
  import opened Schedule
  import opened Simulator

  // ---------- the two listings ----------

  /** The two clients show the same available credits in the same order. */
  ghost predicate SameListing(listed: seq<Credit>, store: seq<Credit>, now: Time) {
    Filter(IsAvailable(), listed) == Select(store, now)
  }

  lemma {:induction false} PickIsFirstAvailable(listed: seq<Credit>)
    ensures var avail := Filter(IsAvailable(), listed);
      PickTarget(listed) == if avail == [] then None else Some(avail[0])
  {
    if listed == [] {
    } else {
      PickIsFirstAvailable(listed[1..]);
      FilterFront(IsAvailable(), listed[0], listed[1..]);
      assert [listed[0]] + listed[1..] == listed;
    }
  }

  lemma {:induction false} FindIsFirstAvailable(listed: seq<Credit>, id: string)
    ensures FindAvailable(listed, id) == FindCredit(Filter(IsAvailable(), listed), id)
  {
    if listed == [] {
    } else {
      FindIsFirstAvailable(listed[1..], id);
      FilterFront(IsAvailable(), listed[0], listed[1..]);
      assert [listed[0]] + listed[1..] == listed;
      var rest := Filter(IsAvailable(), listed[1..]);
      assert ([listed[0]] + rest)[1..] == rest && [] + rest == rest;
    }
  }

  lemma {:induction false} SelectableIsBoth(s: seq<Credit>, now: Time)
    ensures Filter(Both(Unexpired(now), IsAvailable()), s) == Filter(SelectableAt(now), s)
  {
    if s == [] {
    } else {
      SelectableIsBoth(s[..|s| - 1], now);
    }
  }

  /** A stably sorted simulator listing always agrees with production, ties included. */
  lemma StableListingAgrees(store: seq<Credit>, now: Time)
    ensures SimListing(StableSort(Filter(Unexpired(now), store)), store, now)
    ensures SameListing(StableSort(Filter(Unexpired(now), store)), store, now)
  {
    var unexpired := Filter(Unexpired(now), store);
    StableSortIsSorted(unexpired);
    StableSortPermutes(unexpired);
    FilterStableSort(IsAvailable(), unexpired);
    FilterBoth(Unexpired(now), IsAvailable(), store);
    SelectableIsBoth(store, now);
  }

  lemma {:induction false} FilterCounts(q: Credit -> bool, s: seq<Credit>, c: Credit)
    ensures multiset(Filter(q, s))[c] == if q(c) then multiset(s)[c] else 0
  {
    if s == [] {
    } else {
      FilterCounts(q, s[..|s| - 1], c);
      assert s == s[..|s| - 1] + [s[|s| - 1]];
    }
  }

  lemma FilterPermutes(q: Credit -> bool, r: seq<Credit>, s: seq<Credit>)
    requires multiset(r) == multiset(s)
    ensures multiset(Filter(q, r)) == multiset(Filter(q, s))
  {
    forall c ensures multiset(Filter(q, r))[c] == multiset(Filter(q, s))[c] {
      FilterCounts(q, r, c);
      FilterCounts(q, s, c);
    }
  }

  lemma {:induction false} FilterSorted(q: Credit -> bool, s: seq<Credit>)
    requires Sorted(s)
    ensures Sorted(Filter(q, s))
  {
    if s == [] {
    } else {
      FilterSorted(q, s[..|s| - 1]);
      FilterMembers(q, s[..|s| - 1]);
      var f := Filter(q, s[..|s| - 1]);
      forall i | 0 <= i < |f| ensures !Before(s[|s| - 1], f[i]) {
        assert f[i] in s[..|s| - 1];
      }
    }
  }

  ghost predicate NoTies(s: seq<Credit>) {
    forall i, j :: 0 <= i < j < |s| ==> s[i].expiresAt != s[j].expiresAt
  }

  lemma {:induction false} AtMostOneTied(s: seq<Credit>, d: Credit)
    requires NoTies(s)
    ensures |Filter(TiedWith(d), s)| <= 1
  {
    if s == [] {
    } else {
      AtMostOneTied(s[..|s| - 1], d);
      if TiedWith(d)(s[|s| - 1]) { NoneKept(TiedWith(d), s[..|s| - 1]); }
    }
  }

  /** Without ties even an unstable sort agrees: every sorted listing is the same listing. */
  lemma AnyListingAgreesWithoutTies(listed: seq<Credit>, store: seq<Credit>, now: Time)
    requires SimListing(listed, store, now) && NoTies(Select(store, now))
    ensures SameListing(listed, store, now)
  {
    var r, s := Select(store, now), Filter(IsAvailable(), listed);
    var stable := StableSort(Filter(Unexpired(now), store));
    StableListingAgrees(store, now);
    FilterPermutes(IsAvailable(), listed, stable);
    FilterSorted(IsAvailable(), listed);
    SelectIsSoonestFirst(store, now);
    forall d ensures Filter(TiedWith(d), r) == Filter(TiedWith(d), s) {
      FilterPermutes(TiedWith(d), r, s);
      AtMostOneTied(r, d);
      ShortPermutations(Filter(TiedWith(d), r), Filter(TiedWith(d), s));
    }
    StableSortIsUnique(r, s);
  }

  // ---------- one step ----------

  function SimSettings(p: Settings): SimConfig {
    SimConfig(p.refreshInterval, p.leadTime, VERIFY_DELAY)
  }

  /** Both machines tick at the same instant against the same store: production sees the
      parsed listing, the simulator its own; the server's available_count counts what it
      lists; both read the same weekly quota; no 4xx. */
  ghost predicate SameAnswers(e: Env, u: Upstream, store: seq<Credit>, weekly: int) {
    && e.now == e.later > 0
    && e.list == Some(Snapshot(|Select(store, e.now)|, Select(store, e.now), -1))
    && e.usage == Some(weekly)
    && SameListing(u.list.credits, store, e.now)
    && u.list.availableCount == |Filter(IsAvailable(), u.list.credits)|
    && u.list.weeklyPct == weekly
    && u.consume == e.consume && !IsClientError(e.consume)
  }

  ghost predicate Mirrors(f: Fsm, s: Sim) {
    && f.state == s.state && !f.manual
    && (f.state.Armed? || f.state.Confirming? ==> f.scheduled == s.targetId)
    && (f.state.Resetting? || f.state.Verifying? ==>
          && f.attempt.target == s.targetId && f.attempt.attempt == s.attempt
          && f.attempt.pre.availableCount == s.preSnap.availableCount
          && f.attempt.pre.weeklyPct == s.preSnap.weeklyPct)
    && (f.state.Resetting? && s.attempt > 0 ==> f.attempt.nextRetryAt == s.nextRetry)
    && (f.state.Verifying? ==> f.verifyDue == s.verifyDue)
  }

  /** The verdict production stores in its record is the simulator's verdict. */
  ghost predicate SameVerdict(f: Fsm, g: Fsm, e: Env, s: Sim)
    requires e.list.Some?
  {
    && g.pending.Some?
    && (g.pending.value.success <==> s.verdict.VerifiedOk?)
    && (TargetGone(f, e.list.value) && CountDown1(f, e.list.value) <==> !s.verdict.Mismatch?)
  }

  lemma ReselectingChangesNothing(store: seq<Credit>, now: Time)
    ensures Select(Select(store, now), now) == Select(store, now)
  {
    SelectTwice(store, now, now);
  }

  lemma IdleMirrors(p: Settings, f: Fsm, s: Sim, e: Env, u: Upstream, store: seq<Credit>, weekly: int)
    requires Mirrors(f, s) && s.now == e.now && SameAnswers(e, u, store, weekly) && f.state.Idle?
    ensures Mirrors(Step(p, f, e).fsm, SimStep(SimSettings(p), s, u).sim)
    ensures Step(p, f, e).wake == SimStep(SimSettings(p), s, u).wake
  {
    ReselectingChangesNothing(store, e.now);
    PickIsFirstAvailable(u.list.credits);
  }

  lemma ConfirmingMirrors(p: Settings, f: Fsm, s: Sim, e: Env, u: Upstream, store: seq<Credit>, weekly: int)
    requires Mirrors(f, s) && s.now == e.now && SameAnswers(e, u, store, weekly) && f.state.Confirming?
    ensures Mirrors(Step(p, f, e).fsm, SimStep(SimSettings(p), s, u).sim)
    ensures Step(p, f, e).wake == SimStep(SimSettings(p), s, u).wake
  {
    ReselectingChangesNothing(store, e.now);
    FindIsFirstAvailable(u.list.credits, s.targetId);
  }

  lemma ResettingMirrors(p: Settings, f: Fsm, s: Sim, e: Env, u: Upstream)
    requires Mirrors(f, s) && s.now == e.now && f.state.Resetting?
    requires u.consume == e.consume && !IsClientError(e.consume)
    ensures Mirrors(Step(p, f, e).fsm, SimStep(SimSettings(p), s, u).sim)
    ensures Step(p, f, e).wake == SimStep(SimSettings(p), s, u).wake
  {
  }

  lemma VerifyingMirrors(p: Settings, f: Fsm, s: Sim, e: Env, u: Upstream, store: seq<Credit>, weekly: int)
    requires Mirrors(f, s) && SameAnswers(e, u, store, weekly) && f.state.Verifying?
    ensures Mirrors(Step(p, f, e).fsm, SimStep(SimSettings(p), s, u).sim)
    ensures Step(p, f, e).wake == SimStep(SimSettings(p), s, u).wake
    ensures SameVerdict(f, Step(p, f, e).fsm, e, SimStep(SimSettings(p), s, u).sim)
  {
    var avail := Filter(IsAvailable(), u.list.credits);
    FilterMembers(IsAvailable(), u.list.credits);
    assert forall c :: c in avail <==> c in u.list.credits && c.status == "available";
    assert avail == e.list.value.credits;
  }

  /** One tick of each, from mirroring states: the states, targets, attempt counts, waits
      and wakes agree, and so do the verdicts of a verification. */
  lemma StepMirrors(p: Settings, f: Fsm, s: Sim, e: Env, u: Upstream, store: seq<Credit>, weekly: int)
    requires Mirrors(f, s) && s.now == e.now && SameAnswers(e, u, store, weekly)
    ensures Mirrors(Step(p, f, e).fsm, SimStep(SimSettings(p), s, u).sim)
    ensures Step(p, f, e).wake == SimStep(SimSettings(p), s, u).wake
    ensures f.state.Verifying? ==> SameVerdict(f, Step(p, f, e).fsm, e, SimStep(SimSettings(p), s, u).sim)
  {
    match f.state
    case Idle => IdleMirrors(p, f, s, e, u, store, weekly);
    case Confirming => ConfirmingMirrors(p, f, s, e, u, store, weekly);
    case Resetting => ResettingMirrors(p, f, s, e, u);
    case Verifying => VerifyingMirrors(p, f, s, e, u, store, weekly);
    case _ =>
  }

  // ---------- whole runs ----------

  datatype Input = Input(e: Env, u: Upstream, store: seq<Credit>, weekly: int)

  /** The simulator driven cycle after cycle: the clock jumps to the wake, and after DONE a
      new machine starts one refresh interval later. */
  function Drive(p: Settings, s: Sim, u: Upstream): Sim {
    var t := SimStep(SimSettings(p), s, u);
    if t.sim.state.Done? then NewSim(s.now + p.refreshInterval) else t.sim.(now := t.wake)
  }

  function Driven(p: Settings, s: Sim, ins: seq<Input>): Sim {
    if ins == [] then s else Drive(p, Driven(p, s, ins[..|ins| - 1]), ins[|ins| - 1].u)
  }

  function Settled(p: Settings, f: Fsm, ins: seq<Input>): Fsm {
    if ins == [] then f else StepAndSettle(p, Settled(p, f, ins[..|ins| - 1]), ins[|ins| - 1].e).fsm
  }

  /** Every tick is on time and both machines get the same answers. */
  ghost predicate FaultFree(p: Settings, f: Fsm, ins: seq<Input>) {
    forall i :: 0 <= i < |ins| ==>
      && ins[i].e.now == Settled(p, f, ins[..i]).nextWake
      && SameAnswers(ins[i].e, ins[i].u, ins[i].store, ins[i].weekly)
  }

  lemma SettledMirrors(p: Settings, f: Fsm, s: Sim, i: Input)
    requires Mirrors(f, s) && s.now == f.nextWake == i.e.now && SameAnswers(i.e, i.u, i.store, i.weekly)
    requires !f.state.Done? && p.refreshInterval > 0
    ensures var g := StepAndSettle(p, f, i.e).fsm;
      Mirrors(g, Drive(p, s, i.u)) && Drive(p, s, i.u).now == g.nextWake && !g.state.Done?
  {
    StepMirrors(p, f, s, i.e, i.u, i.store, i.weekly);
    DoneMeansNoWake(p, f, i.e);
  }

  lemma DoneMeansNoWake(p: Settings, f: Fsm, e: Env)
    requires e.now > 0 && e.later > 0
    ensures Step(p, f, e).fsm.state.Done? ==> Step(p, f, e).wake == NO_TIME
  {
  }

  /** From a common start the two machines stay in step for ever, through any number of
      cycles. */
  lemma {:induction false} RunsMirror(p: Settings, start: Time, ins: seq<Input>)
    requires start > 0 && p.refreshInterval > 0 && FaultFree(p, SetNextWake(FRESH, start), ins)
    ensures var f, s := Settled(p, SetNextWake(FRESH, start), ins), Driven(p, NewSim(start), ins);
      Mirrors(f, s) && s.now == f.nextWake && !f.state.Done?
  {
    if ins == [] {
    } else {
      var init := ins[..|ins| - 1];
      forall i | 0 <= i < |init| ensures init[..i] == ins[..i] {
      }
      RunsMirror(p, start, init);
      assert ins[..|ins| - 1] == init;
      SettledMirrors(p, Settled(p, SetNextWake(FRESH, start), init), Driven(p, NewSim(start), init), ins[|ins| - 1]);
    }
  }
}
