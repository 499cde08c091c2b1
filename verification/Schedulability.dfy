// The run of module Schedule, tick by tick, and what follows for any number of credits.

module Schedulability {
  import opened Models
  import opened CreditSelection
  import opened Retry
  import opened Machine
  import opened Account
  import opened Progress
  import opened Schedule

  /** Inside the cycle that redeems credit k. */
  ghost predicate InCycle(p: Settings, start: Time, cs: seq<Credit>, k: nat, a: Account, st: State)
    requires k < |cs|
  {
    && a.fsm.state == st && !a.fsm.manual
    && (st.Armed? || st.Confirming? ==>
          a.fsm.scheduled == cs[k].id && a.fsm.nextWake == PostAt(p, start, cs, k) && Redeemed(p, start, cs, k, a.posts))
    && (st.Resetting? ==>
          a.fsm.attempt.target == cs[k].id && a.fsm.nextWake == PostAt(p, start, cs, k) && Redeemed(p, start, cs, k, a.posts))
    && (st.Verifying? ==>
          a.fsm.nextWake == PostAt(p, start, cs, k) + VERIFY_DELAY && Redeemed(p, start, cs, k + 1, a.posts))
  }

  function Following(st: State): State {
    match st
    case Armed => Confirming
    case Confirming => Resetting
    case _ => Verifying
  }

  ghost predicate Catchable(p: Settings, start: Time, cs: seq<Credit>, k: nat)
    requires k <= |cs|
  {
    forall j :: 0 <= j < k ==> FreeAt(p, start, cs, j) < cs[j].expiresAt
  }

  lemma PatrolTick(p: Settings, start: Time, store: seq<Credit>, k: nat, a: Account, e: Env)
    requires Store(store) && Normalized(p) && k < |Queue(store)| && OnTime(a, e, store)
    requires Patrolling(p, start, Queue(store), k, a, e.now)
    requires FreeAt(p, start, Queue(store), k) < Queue(store)[k].expiresAt
    ensures var b := TickAndSync(p, a, e);
      if e.now < ArmThreshold(p, Queue(store)[k])
      then Patrolling(p, start, Queue(store), k, b, e.now + p.refreshInterval)
      else InCycle(p, start, Queue(store), k, b, Armed)
  {
    Sighted(p, start, store, k, a.posts, e.now);
    QueueOfStore(store);
    assert Queue(store)[k] in Queue(store);
  }

  lemma ConfirmTick(p: Settings, start: Time, store: seq<Credit>, k: nat, a: Account, e: Env)
    requires Store(store) && Normalized(p) && k < |Queue(store)| && OnTime(a, e, store)
    requires InCycle(p, start, Queue(store), k, a, Confirming)
    requires FreeAt(p, start, Queue(store), k) < Queue(store)[k].expiresAt
    ensures InCycle(p, start, Queue(store), k, TickAndSync(p, a, e), Resetting)
  {
    var cs := Queue(store);
    Sighted(p, start, store, k, a.posts, e.now);
    QueueOfStore(store);
    assert cs[k] in cs;
    var seen := Select(e.list.value.credits, e.now);
    assert FindCredit(seen, cs[k].id) == Some(cs[k]);
  }

  lemma CycleTick(p: Settings, start: Time, store: seq<Credit>, k: nat, a: Account, e: Env, st: State)
    requires Store(store) && Normalized(p) && k < |Queue(store)| && OnTime(a, e, store)
    requires InCycle(p, start, Queue(store), k, a, st) && (st.Armed? || st.Confirming? || st.Resetting?)
    requires FreeAt(p, start, Queue(store), k) < Queue(store)[k].expiresAt
    ensures InCycle(p, start, Queue(store), k, TickAndSync(p, a, e), Following(st))
  {
    if st.Confirming? { ConfirmTick(p, start, store, k, a, e); }
  }

  lemma VerifyTick(p: Settings, start: Time, store: seq<Credit>, k: nat, a: Account, e: Env)
    requires Normalized(p) && k < |Queue(store)| && OnTime(a, e, store)
    requires InCycle(p, start, Queue(store), k, a, Verifying)
    ensures Patrolling(p, start, Queue(store), k + 1, TickAndSync(p, a, e), FreeAt(p, start, Queue(store), k + 1))
  {
  }

  lemma PatrolStep(p: Settings, start: Time, run: nat -> Account, es: nat -> Env, store: seq<Credit>, k: nat, i: nat)
    requires Store(store) && Normalized(p) && IdealRun(p, start, run, es, store) && k < |Queue(store)|
    requires Patrolling(p, start, Queue(store), k, run(i), es(i).now)
    requires FreeAt(p, start, Queue(store), k) < Queue(store)[k].expiresAt
    ensures if es(i).now < ArmThreshold(p, Queue(store)[k])
      then es(i + 1).now == es(i).now + p.refreshInterval
           && Patrolling(p, start, Queue(store), k, run(i + 1), es(i + 1).now)
      else InCycle(p, start, Queue(store), k, run(i + 1), Armed)
  {
    OnTimeAt(p, start, run, es, store, i);
    OnTimeAt(p, start, run, es, store, i + 1);
    PatrolTick(p, start, store, k, run(i), es(i));
  }

  /** From a patrol for credit k to the patrol for credit k+1. */
  lemma {:induction false} NextCredit(p: Settings, start: Time, run: nat -> Account, es: nat -> Env, store: seq<Credit>, k: nat, i: nat)
    returns (i': nat)
    requires Store(store) && Normalized(p) && IdealRun(p, start, run, es, store) && k < |Queue(store)|
    requires Patrolling(p, start, Queue(store), k, run(i), es(i).now)
    requires FreeAt(p, start, Queue(store), k) < Queue(store)[k].expiresAt
    ensures i' > i
    ensures Patrolling(p, start, Queue(store), k + 1, run(i'), FreeAt(p, start, Queue(store), k + 1))
    decreases Max(0, ArmThreshold(p, Queue(store)[k]) - es(i).now)
  {
    PatrolStep(p, start, run, es, store, k, i);
    if es(i).now < ArmThreshold(p, Queue(store)[k]) {
      i' := NextCredit(p, start, run, es, store, k, i + 1);
    } else {
      RedeemArmed(p, start, run, es, store, k, i + 1);
      i' := i + 5;
    }
  }

  lemma RedeemArmed(p: Settings, start: Time, run: nat -> Account, es: nat -> Env, store: seq<Credit>, k: nat, i: nat)
    requires Store(store) && Normalized(p) && IdealRun(p, start, run, es, store) && k < |Queue(store)|
    requires InCycle(p, start, Queue(store), k, run(i), Armed)
    requires FreeAt(p, start, Queue(store), k) < Queue(store)[k].expiresAt
    ensures Patrolling(p, start, Queue(store), k + 1, run(i + 4), FreeAt(p, start, Queue(store), k + 1))
  {
    OnTimeAt(p, start, run, es, store, i);
    OnTimeAt(p, start, run, es, store, i + 1);
    OnTimeAt(p, start, run, es, store, i + 2);
    OnTimeAt(p, start, run, es, store, i + 3);
    CycleTick(p, start, store, k, run(i), es(i), Armed);
    CycleTick(p, start, store, k, run(i + 1), es(i + 1), Confirming);
    CycleTick(p, start, store, k, run(i + 2), es(i + 2), Resetting);
    VerifyTick(p, start, store, k, run(i + 3), es(i + 3));
  }

  /** POST k happens exactly at max(E_k - lead, POST k-1 + one cycle), as long as no credit
      has been lost. */
  lemma {:induction false} PostsOnTimetable(p: Settings, start: Time, run: nat -> Account, es: nat -> Env, store: seq<Credit>, k: nat)
    returns (i: nat)
    requires start > 0 && Store(store) && Normalized(p) && IdealRun(p, start, run, es, store)
    requires k <= |Queue(store)| && Catchable(p, start, Queue(store), k)
    ensures Redeemed(p, start, Queue(store), k, run(i).posts)
    ensures Patrolling(p, start, Queue(store), k, run(i), FreeAt(p, start, Queue(store), k))
  {
    if k == 0 {
      i := 0;
    } else {
      var before := PostsOnTimetable(p, start, run, es, store, k - 1);
      OnTimeAt(p, start, run, es, store, before);
      i := NextCredit(p, start, run, es, store, k - 1, before);
    }
  }

  // ---------- what is lost ----------

  /** Credit c has expired unredeemed and is in no attempt. */
  ghost predicate Missed(a: Account, c: Credit) {
    a.fsm.nextWake >= c.expiresAt && Unspent(a.posts)(c) && (a.fsm.state.Resetting? ==> a.fsm.attempt.target != c.id)
  }

  lemma WakeNotEarlier(p: Settings, a: Account, e: Env)
    requires Normalized(p) && e.now <= e.later
    ensures TickAndSync(p, a, e).fsm.nextWake >= e.now
  {
  }

  lemma NoAttemptOnExpired(p: Settings, store: seq<Credit>, a: Account, e: Env, c: Credit)
    requires Store(store) && c in store && OnTime(a, e, store) && 0 < c.expiresAt <= e.now
    requires a.fsm.state.Confirming? && Step(p, a.fsm, e).fsm.state.Resetting?
    ensures Step(p, a.fsm, e).fsm.attempt.target != c.id
  {
    FilterMembers(Unspent(a.posts), store);
    SelectIsSoonestFirst(e.list.value.credits, e.now);
    var seen := Select(e.list.value.credits, e.now);
    var d := ConfirmTarget(a.fsm, seen).value;
    assert d in seen;
    assert d in store;
  }

  lemma TickKeepsMissed(p: Settings, store: seq<Credit>, a: Account, e: Env, c: Credit)
    requires Store(store) && Normalized(p) && c in store && c.expiresAt > 0 && OnTime(a, e, store) && Missed(a, c)
    ensures Missed(TickAndSync(p, a, e), c)
  {
    WakeNotEarlier(p, a, e);
    if a.fsm.state.Confirming? && Step(p, a.fsm, e).fsm.state.Resetting? {
      NoAttemptOnExpired(p, store, a, e, c);
    }
  }

  lemma {:induction false} MissedForever(p: Settings, start: Time, run: nat -> Account, es: nat -> Env, store: seq<Credit>, c: Credit, i: nat, i': nat)
    requires Store(store) && Normalized(p) && IdealRun(p, start, run, es, store) && c in store && c.expiresAt > 0
    requires i <= i' && Missed(run(i), c)
    ensures Missed(run(i'), c)
  {
    if i >= i' {
    } else {
      MissedForever(p, start, run, es, store, c, i, i' - 1);
      OnTimeAt(p, start, run, es, store, i' - 1);
      TickKeepsMissed(p, store, run(i' - 1), es(i' - 1), c);
    }
  }

  lemma {:induction false} PostsGrow(p: Settings, start: Time, run: nat -> Account, es: nat -> Env, i: nat, i': nat)
    requires Ticking(p, start, run, es) && i <= i'
    ensures run(i).posts <= run(i').posts
  {
    if i >= i' {
    } else {
      PostsGrow(p, start, run, es, i, i' - 1);
      assert TickIndex(i' - 1);
    }
  }

  /** Whatever is posted after a state is posted at its wake or later. */
  lemma {:induction false} LaterPosts(p: Settings, start: Time, run: nat -> Account, es: nat -> Env, store: seq<Credit>, i: nat, i': nat)
    requires Normalized(p) && IdealRun(p, start, run, es, store) && i <= i'
    ensures run(i).posts <= run(i').posts && run(i).fsm.nextWake <= run(i').fsm.nextWake
    ensures forall j :: |run(i).posts| <= j < |run(i').posts| ==> run(i').posts[j].at >= run(i).fsm.nextWake
  {
    if i >= i' {
    } else {
      LaterPosts(p, start, run, es, store, i, i' - 1);
      OnTimeAt(p, start, run, es, store, i' - 1);
      WakeNotEarlier(p, run(i' - 1), es(i' - 1));
    }
  }

  ghost predicate EventuallyRedeemed(run: nat -> Account, c: Credit) {
    exists i: nat, x :: x in run(i).posts && x.target == c.id
  }

  /** A credit that expires before the account is free for it is never redeemed. */
  lemma LostCredit(p: Settings, start: Time, run: nat -> Account, es: nat -> Env, store: seq<Credit>, k: nat)
    requires start > 0 && Store(store) && Normalized(p) && IdealRun(p, start, run, es, store)
    requires k < |Queue(store)| && Catchable(p, start, Queue(store), k)
    requires FreeAt(p, start, Queue(store), k) >= Queue(store)[k].expiresAt
    ensures !EventuallyRedeemed(run, Queue(store)[k])
  {
    var c := Queue(store)[k];
    var i := PostsOnTimetable(p, start, run, es, store, k);
    QueueOfStore(store);
    assert c in store;
    assert Missed(run(i), c);
    forall i': nat, x | x in run(i').posts ensures x.target != c.id {
      if i <= i' {
        MissedForever(p, start, run, es, store, c, i, i');
      } else {
        PostsGrow(p, start, run, es, i', i);
        assert x in run(i).posts;
      }
    }
  }

  // ---------- what is left alone ----------

  ghost predicate InQueue(store: seq<Credit>, id: string) {
    exists c :: c in store && Queued()(c) && c.id == id
  }

  /** Only credits worth redeeming have been posted, or are about to be. */
  ghost predicate QueueOnly(store: seq<Credit>, a: Account) {
    && !a.fsm.manual
    && (a.fsm.state.Resetting? ==> InQueue(store, a.fsm.attempt.target))
    && forall x :: x in a.posts ==> InQueue(store, x.target)
  }

  lemma ConfirmedIsQueued(p: Settings, store: seq<Credit>, a: Account, e: Env)
    requires OnTime(a, e, store) && a.fsm.state.Confirming? && !a.fsm.manual && Step(p, a.fsm, e).fsm.state.Resetting?
    ensures InQueue(store, Step(p, a.fsm, e).fsm.attempt.target)
  {
    FilterMembers(Unspent(a.posts), store);
    SelectIsSoonestFirst(e.list.value.credits, e.now);
    var d := ConfirmTarget(a.fsm, Select(e.list.value.credits, e.now)).value;
    assert d in store && Queued()(d);
  }

  lemma TickKeepsQueueOnly(p: Settings, store: seq<Credit>, a: Account, e: Env)
    requires OnTime(a, e, store) && QueueOnly(store, a)
    ensures QueueOnly(store, TickAndSync(p, a, e))
  {
    if a.fsm.state.Confirming? && Step(p, a.fsm, e).fsm.state.Resetting? { ConfirmedIsQueued(p, store, a, e); }
  }

  /** A credit that never expires, or is not available, is never posted. */
  lemma {:induction false} OnlyQueuedIsPosted(p: Settings, start: Time, run: nat -> Account, es: nat -> Env, store: seq<Credit>, i: nat)
    requires Store(store) && IdealRun(p, start, run, es, store)
    ensures QueueOnly(store, run(i))
    ensures forall c :: c in store && !Queued()(c) ==> forall x :: x in run(i).posts ==> x.target != c.id
  {
    if i == 0 {
    } else {
      OnlyQueuedIsPosted(p, start, run, es, store, i - 1);
      OnTimeAt(p, start, run, es, store, i - 1);
      TickKeepsQueueOnly(p, store, run(i - 1), es(i - 1));
    }
    forall c, x | c in store && !Queued()(c) && x in run(i).posts ensures x.target != c.id {
      var d :| d in store && Queued()(d) && d.id == x.target;
      SameId(store, c, d);
    }
  }

  lemma SameId(store: seq<Credit>, c: Credit, d: Credit)
    requires DistinctIds(store) && c in store && d in store && c != d
    ensures c.id != d.id
  {
    var i, j :| 0 <= i < |store| && 0 <= j < |store| && store[i] == c && store[j] == d;
    assert i < j || j < i;
  }

  // ---------- the condition, in the store's own terms ----------

  /** No credit expires before the account could have come round to it, counting cycles
      from the start and from the trigger time of every earlier credit. */
  ghost predicate Schedulable(p: Settings, start: Time, cs: seq<Credit>) {
    forall k :: 0 <= k < |cs| ==> Reachable(p, start, cs, k, cs[k].expiresAt)
  }

  ghost predicate Reachable(p: Settings, start: Time, cs: seq<Credit>, k: nat, bound: Time)
    requires k <= |cs|
  {
    && start + k * Cycle(p) < bound
    && forall j :: 0 <= j < k ==> TriggerTime(p, cs[j]) + (k - j) * Cycle(p) < bound
  }

  lemma {:induction false} FreeAtClosedForm(p: Settings, start: Time, cs: seq<Credit>, k: nat, bound: Time)
    requires k <= |cs|
    ensures FreeAt(p, start, cs, k) < bound <==> Reachable(p, start, cs, k, bound)
    decreases k
  {
    if k == 0 {
    } else {
      var lower := bound - Cycle(p);
      FreeAtClosedForm(p, start, cs, k - 1, lower);
      assert k * Cycle(p) == (k - 1) * Cycle(p) + Cycle(p);
      forall j | 0 <= j < k - 1
        ensures TriggerTime(p, cs[j]) + (k - j) * Cycle(p) < bound <==> TriggerTime(p, cs[j]) + (k - 1 - j) * Cycle(p) < lower
      {
        assert (k - j) * Cycle(p) == (k - 1 - j) * Cycle(p) + Cycle(p);
      }
    }
  }

  lemma {:induction false} FirstUncatchable(p: Settings, start: Time, cs: seq<Credit>, n: nat) returns (k: nat)
    requires n <= |cs| && !Catchable(p, start, cs, n)
    ensures k < n && Catchable(p, start, cs, k) && FreeAt(p, start, cs, k) >= cs[k].expiresAt
  {
    if Catchable(p, start, cs, n - 1) { k := n - 1; } else { k := FirstUncatchable(p, start, cs, n - 1); }
  }

  lemma AllCaught(p: Settings, start: Time, run: nat -> Account, es: nat -> Env, store: seq<Credit>)
    requires start > 0 && Store(store) && Normalized(p) && IdealRun(p, start, run, es, store)
    requires Catchable(p, start, Queue(store), |Queue(store)|)
    ensures exists i: nat :: Redeemed(p, start, Queue(store), |Queue(store)|, run(i).posts)
    ensures forall c :: c in store && Queued()(c) ==> EventuallyRedeemed(run, c)
  {
    var cs := Queue(store);
    var i := PostsOnTimetable(p, start, run, es, store, |cs|);
    var posts := run(i).posts;
    QueueOfStore(store);
    forall c | c in store && Queued()(c) ensures EventuallyRedeemed(run, c) {
      var j :| 0 <= j < |cs| && cs[j] == c;
      assert posts[j] in run(i).posts && posts[j].target == c.id;
    }
  }

  lemma CatchableIsSchedulable(p: Settings, start: Time, cs: seq<Credit>)
    ensures Catchable(p, start, cs, |cs|) <==> Schedulable(p, start, cs)
  {
    forall k | 0 <= k < |cs| ensures FreeAt(p, start, cs, k) < cs[k].expiresAt <==> Reachable(p, start, cs, k, cs[k].expiresAt) {
      FreeAtClosedForm(p, start, cs, k, cs[k].expiresAt);
    }
  }

  /** Exact schedulability, for every number of credits, every refresh interval, lead time,
      expiries and start: all available credits that expire are redeemed if and only if none
      of them expires before the account can come round to it; and when they are, credit k
      is redeemed before it expires, at PostAt(k). */
  lemma ExactSchedulability(p: Settings, start: Time, run: nat -> Account, es: nat -> Env, store: seq<Credit>)
    requires start > 0 && Store(store) && Normalized(p) && IdealRun(p, start, run, es, store)
    ensures (forall c :: c in store && Queued()(c) ==> EventuallyRedeemed(run, c)) <==> Schedulable(p, start, Queue(store))
    ensures Schedulable(p, start, Queue(store)) ==>
      exists i: nat :: Redeemed(p, start, Queue(store), |Queue(store)|, run(i).posts)
    ensures Schedulable(p, start, Queue(store)) ==>
      forall k :: 0 <= k < |Queue(store)| ==> PostAt(p, start, Queue(store), k) < Queue(store)[k].expiresAt
  {
    var cs := Queue(store);
    CatchableIsSchedulable(p, start, cs);
    if Catchable(p, start, cs, |cs|) {
      AllCaught(p, start, run, es, store);
    } else {
      var k := FirstUncatchable(p, start, cs, |cs|);
      LostCredit(p, start, run, es, store, k);
      QueueOfStore(store);
      assert cs[k] in cs;
    }
  }

  // ---------- such runs exist ----------

  /** The i-th key of an inexhaustible supply. */
  function KeyAt(i: nat): string { seq(i + 1, _ => 'k') }

  /** The answers given, and after them those of the honest server. */
  function AnswersTo(a: Account, store: seq<Credit>, given: seq<Env>, i: nat): Env {
    if i < |given| then given[i]
    else
      var listed := Snapshot(|store|, Filter(Unspent(a.posts), store), -1);
      Env(a.fsm.nextWake, a.fsm.nextWake, Some(listed), Some(0), Response("reset"), KeyAt(i))
  }

  function OnTimeState(p: Settings, start: Time, store: seq<Credit>, given: seq<Env>, i: nat): Account {
    if i == 0 then Fresh(start)
    else
      var a := OnTimeState(p, start, store, given, i - 1);
      TickAndSync(p, a, AnswersTo(a, store, given, i - 1))
  }

  /** Every tick is one the worker can run, with a key never used before. */
  ghost predicate DueRun(run: nat -> Account, es: nat -> Env) {
    forall i: nat {:trigger TickIndex(i)} :: TickIndex(i) ==> Due(run(i), es(i))
  }

  /** Between two ticks, the next one due when it comes, after at most i keys. */
  ghost predicate Supplied(a: Account, i: nat) {
    a.phase.Ready? && a.clock <= a.fsm.nextWake && forall k :: k in a.minted ==> |k| <= i
  }

  /** Tick i is on time and carries key i. */
  ghost predicate Keyed(run: nat -> Account, es: nat -> Env) {
    forall i: nat {:trigger TickIndex(i)} :: TickIndex(i) ==>
      es(i).now == es(i).later == run(i).fsm.nextWake && es(i).freshId == KeyAt(i)
  }

  lemma TickSpendsKey(p: Settings, a: Account, e: Env, i: nat)
    requires Normalized(p) && e.now == e.later == a.fsm.nextWake && e.freshId == KeyAt(i) && Supplied(a, i)
    ensures Supplied(TickAndSync(p, a, e), i + 1)
  {
    WakeNotEarlier(p, a, e);
    OutcomeIsEdge(p, a, e, StepAndSettle(p, a.fsm, e).fsm);
  }

  lemma {:induction false} KeyedIsSupplied(p: Settings, start: Time, run: nat -> Account, es: nat -> Env, i: nat)
    requires Normalized(p) && Ticking(p, start, run, es) && Keyed(run, es)
    ensures Supplied(run(i), i) && Due(run(i), es(i))
  {
    assert TickIndex(i);
    if i == 0 {
    } else {
      KeyedIsSupplied(p, start, run, es, i - 1);
      assert TickIndex(i - 1);
      TickSpendsKey(p, run(i - 1), es(i - 1), i - 1);
    }
  }

  lemma KeyedIsDue(p: Settings, start: Time, run: nat -> Account, es: nat -> Env)
    requires Normalized(p) && Ticking(p, start, run, es) && Keyed(run, es)
    ensures DueRun(run, es)
  {
    forall i: nat | TickIndex(i) ensures Due(run(i), es(i)) {
      KeyedIsSupplied(p, start, run, es, i);
    }
  }

  function OnTimeRun(p: Settings, start: Time, store: seq<Credit>, given: seq<Env>): nat -> Account {
    (i: nat) => OnTimeState(p, start, store, given, i)
  }

  function OnTimeEnvs(p: Settings, start: Time, store: seq<Credit>, given: seq<Env>): nat -> Env {
    (i: nat) => AnswersTo(OnTimeState(p, start, store, given, i), store, given, i)
  }

  lemma OnTimeRunIsIdeal(p: Settings, start: Time, store: seq<Credit>)
    ensures IdealRun(p, start, OnTimeRun(p, start, store, []), OnTimeEnvs(p, start, store, []), store)
    ensures Keyed(OnTimeRun(p, start, store, []), OnTimeEnvs(p, start, store, []))
  {
  }

  /** The theorem is not about nothing: every store has a run in which all ticks are on time
      and each is one the worker can run. */
  lemma IdealRunExists(p: Settings, start: Time, store: seq<Credit>) returns (run: nat -> Account, es: nat -> Env)
    requires Normalized(p)
    ensures IdealRun(p, start, run, es, store) && DueRun(run, es)
  {
    run, es := OnTimeRun(p, start, store, []), OnTimeEnvs(p, start, store, []);
    OnTimeRunIsIdeal(p, start, store);
    KeyedIsDue(p, start, run, es);
  }

  lemma TickAndSyncLegal(p: Settings, start: Time, acts: seq<Action>, e: Env)
    requires Legal(p, Fresh(start), acts) && Due(Run(p, Fresh(start), acts), e)
    ensures var next := acts + [Tick(e)] + [Sync];
      Legal(p, Fresh(start), next) && Run(p, Fresh(start), next) == TickAndSync(p, Run(p, Fresh(start), acts), e)
  {
    RunSnoc(p, Fresh(start), acts, Tick(e));
    RunSnoc(p, Fresh(start), acts + [Tick(e)], Sync);
  }

  /** Such a run is a legal account run, tick by tick. */
  lemma {:induction false} DueRunIsLegal(p: Settings, start: Time, run: nat -> Account, es: nat -> Env, i: nat)
    returns (acts: seq<Action>)
    requires Ticking(p, start, run, es) && DueRun(run, es)
    ensures Legal(p, Fresh(start), acts) && run(i) == Run(p, Fresh(start), acts)
  {
    if i == 0 {
      acts := [];
    } else {
      var before := DueRunIsLegal(p, start, run, es, i - 1);
      assert TickIndex(i - 1);
      TickAndSyncLegal(p, start, before, es(i - 1));
      acts := before + [Tick(es(i - 1))] + [Sync];
    }
  }
}
