// The drift bound: when every tick starts and ends within d of its wake, how late the
// first POST of a stable soonest credit can be.

module Drift {
  import opened Models
  import opened CreditSelection
  import opened Machine
  import opened Account
  import opened Progress
  import opened Schedule

  /** The tick happens within d of its wake; as long as c has been neither posted nor has
      expired, every fetch succeeds and lists c as the soonest credit. */
  ghost predicate Late(a: Account, e: Env, c: Credit, d: int) {
    && a.fsm.nextWake <= e.now <= e.later <= a.fsm.nextWake + d
    && (a.posts == [] && e.now < c.expiresAt ==>
          e.list.Some? && e.usage.Some?
          && Select(e.list.value.credits, e.now) != []
          && Select(e.list.value.credits, e.now)[0] == c)
  }

  /** An infinite run in which every tick is at most d late. */
  ghost predicate LateRun(p: Settings, start: Time, run: nat -> Account, es: nat -> Env, c: Credit, d: int) {
    && Ticking(p, start, run, es)
    && forall i: nat {:trigger TickIndex(i)} :: TickIndex(i) ==> Late(run(i), es(i), c, d)
  }

  lemma LateAt(p: Settings, start: Time, run: nat -> Account, es: nat -> Env, c: Credit, d: int, i: nat)
    requires LateRun(p, start, run, es, c, d)
    ensures Late(run(i), es(i), c, d) && run(i + 1) == TickAndSync(p, run(i), es(i))
  {
    assert TickIndex(i);
  }

  /** Where the account may be before its first POST, with its wake not past bound. */
  ghost predicate Before1st(p: Settings, a: Account, c: Credit, st: State, bound: Time) {
    && a.fsm.state == st && !a.fsm.manual && a.posts == [] && a.fsm.nextWake <= bound
    && (!st.Idle? ==> a.fsm.nextWake >= TriggerTime(p, c))
    && (st.Armed? || st.Confirming? ==> a.fsm.scheduled == c.id)
    && (st.Resetting? ==> a.fsm.attempt.target == c.id)
  }

  lemma PatrolLate(p: Settings, a: Account, e: Env, c: Credit, d: int, bound: Time)
    requires Normalized(p) && c.expiresAt > bound && Late(a, e, c, d)
    requires Before1st(p, a, c, Idle, e.now) && e.now <= bound && TriggerTime(p, c) <= bound && e.now > 0
    ensures if e.now < ArmThreshold(p, c)
      then Before1st(p, TickAndSync(p, a, e), c, Idle, TriggerTime(p, c))
           && TickAndSync(p, a, e).fsm.nextWake == e.now + p.refreshInterval
      else Before1st(p, TickAndSync(p, a, e), c, Armed, bound)
  {
  }

  lemma AdvanceLate(p: Settings, a: Account, e: Env, c: Credit, d: int, st: State, bound: Time)
    requires Normalized(p) && c.id != "" && c.expiresAt > bound + d && Late(a, e, c, d) && e.now > 0
    requires (st.Armed? || st.Confirming?) && Before1st(p, a, c, st, bound)
    ensures Before1st(p, TickAndSync(p, a, e), c, if st.Armed? then Confirming else Resetting, bound + d)
  {
  }

  /** The first POST of credit c comes at tick k. */
  ghost predicate FirstPost(run: nat -> Account, c: Credit, k: nat) {
    var a := run(k);
    a.posts == [] && a.fsm.state.Resetting? && a.fsm.attempt.target == c.id && !a.fsm.manual
  }

  lemma ArmedLate(p: Settings, start: Time, run: nat -> Account, es: nat -> Env, c: Credit, d: int, i: nat, bound: Time)
    requires start > 0 && Normalized(p) && d >= 0 && LateRun(p, start, run, es, c, d)
    requires c.id != "" && bound + 3 * d < c.expiresAt && TriggerTime(p, c) > 0
    requires Before1st(p, run(i), c, Armed, bound)
    ensures FirstPost(run, c, i + 2)
    ensures TriggerTime(p, c) <= es(i + 2).now <= bound + 3 * d
  {
    LateAt(p, start, run, es, c, d, i);
    LateAt(p, start, run, es, c, d, i + 1);
    LateAt(p, start, run, es, c, d, i + 2);
    AdvanceLate(p, run(i), es(i), c, d, Armed, bound);
    AdvanceLate(p, run(i + 1), es(i + 1), c, d, Confirming, bound + d);
  }

  lemma PatrolStepLate(p: Settings, start: Time, run: nat -> Account, es: nat -> Env, c: Credit, d: int, i: nat, bound: Time)
    requires Normalized(p) && LateRun(p, start, run, es, c, d) && c.expiresAt > bound
    requires Before1st(p, run(i), c, Idle, es(i).now) && 0 < es(i).now <= bound
    requires TriggerTime(p, c) <= bound
    ensures var b := run(i + 1);
      if es(i).now < ArmThreshold(p, c)
      then Before1st(p, b, c, Idle, es(i + 1).now)
           && es(i).now + p.refreshInterval <= es(i + 1).now <= TriggerTime(p, c) + d
      else Before1st(p, b, c, Armed, bound)
  {
    LateAt(p, start, run, es, c, d, i);
    LateAt(p, start, run, es, c, d, i + 1);
    PatrolLate(p, run(i), es(i), c, d, bound);
  }

  lemma {:induction false} PatrolUntilPost(p: Settings, start: Time, run: nat -> Account, es: nat -> Env, c: Credit, d: int, i: nat, bound: Time)
    returns (k: nat)
    requires start > 0 && Normalized(p) && d >= 0 && LateRun(p, start, run, es, c, d)
    requires c.id != "" && bound + 3 * d < c.expiresAt && 0 < TriggerTime(p, c) <= TriggerTime(p, c) + d <= bound
    requires Before1st(p, run(i), c, Idle, es(i).now) && 0 < es(i).now <= bound
    ensures FirstPost(run, c, k) && TriggerTime(p, c) <= es(k).now <= bound + 3 * d
    decreases Max(0, ArmThreshold(p, c) - es(i).now)
  {
    PatrolStepLate(p, start, run, es, c, d, i, bound);
    if es(i).now < ArmThreshold(p, c) {
      k := PatrolUntilPost(p, start, run, es, c, d, i + 1, bound);
    } else {
      ArmedLate(p, start, run, es, c, d, i + 1, bound);
      k := i + 3;
    }
  }

  /** For every refresh interval, lead time and phase: a credit that stays the soonest gets
      its first POST at a moment in [T, max(T, s) + 4d], where T is its trigger time and s
      the first tick, provided it does not expire before the end of that interval; the POST
      then comes before the expiry. */
  lemma DriftBound(p: Settings, start: Time, run: nat -> Account, es: nat -> Env, c: Credit, d: int) returns (k: nat)
    requires start > 0 && Normalized(p) && d >= 0 && LateRun(p, start, run, es, c, d)
    requires c.id != "" && TriggerTime(p, c) > 0
    requires Max(TriggerTime(p, c), es(0).now) + 4 * d < c.expiresAt
    ensures FirstPost(run, c, k)
    ensures TriggerTime(p, c) <= es(k).now <= Max(TriggerTime(p, c), es(0).now) + 4 * d < c.expiresAt
  {
    LateAt(p, start, run, es, c, d, 0);
    k := PatrolUntilPost(p, start, run, es, c, d, 0, Max(TriggerTime(p, c), es(0).now) + d);
  }
}
