// The simulator's run loop: what it keeps against every client, and, on the one credit of
// its test matrix, what it does for all refresh intervals, lead times, expiries, starts,
// budgets and numbers of failing calls.

module SimMatrix {
  import opened Models
  import opened CreditSelection
  import opened Retry
  import opened Simulator
  import opened SimEngine

  const MAX_STEPS: nat := 200

  function TriggerAt(cfg: SimConfig, c: Credit): Time { c.expiresAt - cfg.leadTime }

  function Later(a: Time, b: Time): Time { if a < b then b else a }

  /** The machine at its next iteration: the loop advances the clock to a later wake. */
  function Arrived(t: SimTicked): Sim { t.sim.(now := Later(t.sim.now, t.wake)) }

  // ---------- against every client ----------

  /** Some row with this id was available and inside its trigger window. */
  ghost predicate InWindow(cfg: SimConfig, rows: seq<Credit>, id: string, at: Time) {
    exists c :: c in rows && c.id == id && c.status == "available" && TriggerAt(cfg, c) <= at < c.expiresAt
  }

  /** At most six POSTs, spaced by the backoff, the first inside the window of its target. */
  ghost predicate GoodPosts(cfg: SimConfig, rows: seq<Credit>, id: string, times: seq<Time>) {
    && |times| <= 6
    && (forall i :: 0 < i < |times| ==> times[i] == times[i - 1] + SimBackoff(i))
    && (times != [] ==> InWindow(cfg, rows, id, times[0]))
  }

  ghost predicate Cycle(cfg: SimConfig, rows: seq<Credit>, s: Sim, times: seq<Time>) {
    && GoodPosts(cfg, rows, s.targetId, times)
    && match s.state
       case Resetting =>
         && |times| == s.attempt <= 5
         && if times == [] then InWindow(cfg, rows, s.targetId, s.now)
            else s.now == times[|times| - 1] + SimBackoff(|times|)
       case Verifying => true
       case Done => true
       case _ => times == []
  }

  function PostsAfter(s: Sim, times: seq<Time>): seq<Time> {
    if s.state.Resetting? then times + [s.now] else times
  }

  lemma {:induction false} FoundIsListed(credits: seq<Credit>, id: string)
    ensures var r := FindAvailable(credits, id);
      r.Some? ==> r.value in credits && r.value.id == id && r.value.status == "available"
  {
    if credits == [] {
    } else {
      FoundIsListed(credits[1..], id);
    }
  }

  lemma ConfirmedInWindow(cfg: SimConfig, rows: seq<Credit>, weeklyPct: int, s: Sim, u: Upstream)
    requires Listed(u.list, rows, weeklyPct, s.now)
    ensures SimConfirming(cfg, s, u).sim.state.Resetting? && !s.state.Resetting? ==> InWindow(cfg, rows, s.targetId, s.now)
  {
    var r := FindAvailable(u.list.credits, s.targetId);
    FoundIsListed(u.list.credits, s.targetId);
    if r.Some? {
      var kept := Filter(Unexpired(s.now), rows);
      assert r.value in multiset(u.list.credits) && r.value in multiset(kept);
      assert r.value in kept;
      FilterMembers(Unexpired(s.now), rows);
      assert r.value in rows && Unexpired(s.now)(r.value);
    }
  }

  lemma CyclePost(cfg: SimConfig, rows: seq<Credit>, s: Sim, u: Upstream, times: seq<Time>)
    requires Cycle(cfg, rows, s, times) && s.state.Resetting?
    ensures Cycle(cfg, rows, Arrived(SimResetting(cfg, s, u)), times + [s.now])
  {
  }

  lemma CycleStep(cfg: SimConfig, rows: seq<Credit>, weeklyPct: int, s: Sim, u: Upstream, tick: SimTicked, times: seq<Time>)
    requires Cycle(cfg, rows, s, times) && tick == SimStep(cfg, s, u)
    requires s.state.Confirming? ==> Listed(u.list, rows, weeklyPct, s.now)
    ensures Cycle(cfg, rows, Arrived(tick), PostsAfter(s, times))
  {
    if s.state.Confirming? { ConfirmedInWindow(cfg, rows, weeklyPct, s, u); }
    if s.state.Resetting? { CyclePost(cfg, rows, s, u, times); }
  }

  lemma StepPosts(events: seq<Event>, s: Sim, tick: SimTicked)
    ensures PostTimes(events + EventsOf(s, tick)) == PostsAfter(s, PostTimes(events))
  {
    PostTimesOfStep(s, tick);
    PostTimesConcat(events, EventsOf(s, tick));
    assert PostTimes(events) + [] == PostTimes(events);
  }

  /** A step does not move the clock, and once a POST has been sent its target and key stay. */
  lemma TargetStays(cfg: SimConfig, s: Sim, u: Upstream)
    ensures SimStep(cfg, s, u).sim.now == s.now
    ensures s.state.Resetting? || s.state.Verifying? ==>
      SimStep(cfg, s, u).sim.targetId == s.targetId && SimStep(cfg, s, u).sim.redeemId == s.redeemId
  {
  }

  // ---------- against a single credit ----------

  lemma FilterSingle(q: Credit -> bool, x: Credit)
    ensures Filter(q, [x]) == if q(x) then [x] else []
  {
    assert [x][..0] == [];
    assert [] + [x] == [x];
  }

  lemma SingleRow(listed: seq<Credit>, row: Credit, now: Time)
    requires SimListing(listed, [row], now)
    ensures listed == if Unexpired(now)(row) then [row] else []
  {
    FilterSingle(Unexpired(now), row);
    ShortPermutations(Filter(Unexpired(now), [row]), listed);
  }

  lemma SingleListing(snap: Snapshot, row: Credit, weeklyPct: int, now: Time)
    requires Listed(snap, [row], weeklyPct, now)
    ensures snap.credits == if Unexpired(now)(row) then [row] else []
    ensures snap.availableCount == if Unexpired(now)(row) && row.status == "available" then 1 else 0
  {
    SingleRow(snap.credits, row, now);
    FilterSingle(IsAvailable(), row);
  }

  lemma MarkSingle(c: Credit)
    ensures MarkRedeemed([c], c.id) == [c.(status := "redeemed")]
  {
    assert [c][..0] == [];
  }

  /** The waits before POST k + 1, counted from the first. */
  function Delays(k: nat): int { if k == 0 then 0 else Delays(k - 1) + SimBackoff(k) }

  lemma {:induction false} DelaysGrow(k: nat, n: nat)
    requires k <= n
    ensures Delays(k) <= Delays(n)
  {
    if k == n {
    } else {
      DelaysGrow(k, n - 1);
    }
  }

  /** The one credit and the number of calls that will fail. */
  datatype Trial = Trial(cfg: SimConfig, c: Credit, start: Time, failures: nat) {
    ghost predicate Valid() {
      && cfg.refreshInterval > 0 && cfg.leadTime > 0 && cfg.postResetDelay > 0 && start > 0
      && c.status == "available" && c.id != "" && c.expiresAt > 0
    }

    /** When the first POST is due. */
    function First(): Time { Later(TriggerAt(cfg, c), start) }

    function Row(posts: nat): Credit { if posts > failures then c.(status := "redeemed") else c }
  }

  /** Where the run stands at the top of an iteration. */
  ghost predicate Exact(t: Trial, s: Sim, times: seq<Time>, steps: nat) {
    && s.now >= t.start
    && (times != [] ==> times[0] == t.First())
    && if t.start >= t.c.expiresAt then s.state.Idle? && times == []
       else match s.state
         case Idle =>
           times == [] && !s.gaveUp && s.now == t.start + steps * t.cfg.refreshInterval
           && (s.now == t.start || s.now < TriggerAt(t.cfg, t.c))
         case Resetting =>
           && !s.gaveUp && s.targetId == t.c.id && s.preSnap.availableCount == 1
           && s.attempt == |times| <= 5 && |times| <= t.failures && s.now == t.First() + Delays(|times|)
         case Verifying =>
           && !s.gaveUp && s.targetId == t.c.id && s.preSnap.availableCount == 1
           && |times| == t.failures + 1 <= 6 && s.resetAt == t.First() + Delays(t.failures)
           && s.now == s.resetAt + t.cfg.postResetDelay
         case Done =>
           if t.failures <= 5
           then !s.gaveUp && s.verdict.VerifiedOk? && |times| == t.failures + 1 && s.resetAt == t.First() + Delays(t.failures)
           else s.gaveUp && |times| == 6
         case _ => times == [] && !s.gaveUp && s.targetId == t.c.id && s.now == t.First()
  }

  /** What the client answers a trial after this many POSTs. */
  ghost predicate Answers(t: Trial, s: Sim, times: seq<Time>, u: Upstream, weeklyPct: int) {
    && (s.state.Idle? || s.state.Confirming? || s.state.Verifying? ==>
          Listed(u.list, [t.Row(|times|)], if |times| > t.failures then 100 else weeklyPct, s.now))
    && (s.state.Resetting? ==> u.consume == if |times| < t.failures then NoAnswer else Response("reset"))
  }

  lemma ExactIdle(t: Trial, s: Sim, steps: nat, u: Upstream, weeklyPct: int)
    requires t.Valid() && s.state.Idle? && Exact(t, s, [], steps) && Answers(t, s, [], u, weeklyPct)
    ensures Exact(t, Arrived(SimStep(t.cfg, s, u)), [], steps + 1)
  {
    SingleListing(u.list, t.c, weeklyPct, s.now);
    assert (steps + 1) * t.cfg.refreshInterval == steps * t.cfg.refreshInterval + t.cfg.refreshInterval;
  }

  lemma ExactConfirming(t: Trial, s: Sim, steps: nat, u: Upstream, weeklyPct: int)
    requires t.Valid() && s.state.Confirming? && Exact(t, s, [], steps) && Answers(t, s, [], u, weeklyPct)
    ensures Exact(t, Arrived(SimStep(t.cfg, s, u)), [], steps + 1)
  {
    SingleListing(u.list, t.c, weeklyPct, s.now);
  }

  lemma ExactResetting(t: Trial, s: Sim, times: seq<Time>, steps: nat, u: Upstream, weeklyPct: int)
    requires t.Valid() && s.state.Resetting? && Exact(t, s, times, steps) && Answers(t, s, times, u, weeklyPct)
    ensures Exact(t, Arrived(SimStep(t.cfg, s, u)), times + [s.now], steps + 1)
  {
  }

  lemma ExactVerifying(t: Trial, s: Sim, times: seq<Time>, steps: nat, u: Upstream, weeklyPct: int)
    requires t.Valid() && s.state.Verifying? && Exact(t, s, times, steps) && Answers(t, s, times, u, weeklyPct)
    ensures Exact(t, Arrived(SimStep(t.cfg, s, u)), times, steps + 1)
  {
    SingleListing(u.list, t.Row(|times|), 100, s.now);
  }

  lemma ExactStep(t: Trial, s: Sim, times: seq<Time>, steps: nat, u: Upstream, weeklyPct: int)
    requires t.Valid() && Exact(t, s, times, steps) && Answers(t, s, times, u, weeklyPct) && !s.state.Done?
    ensures Exact(t, Arrived(SimStep(t.cfg, s, u)), PostsAfter(s, times), steps + 1)
  {
    match s.state
    case Idle => ExactIdle(t, s, steps, u, weeklyPct);
    case Confirming => ExactConfirming(t, s, steps, u, weeklyPct);
    case Resetting => ExactResetting(t, s, times, steps, u, weeklyPct);
    case Verifying => ExactVerifying(t, s, times, steps, u, weeklyPct);
    case _ =>
  }

  /** The loop's bounds on steps and simulated time leave room for the whole cycle. */
  ghost predicate Room(t: Trial, maxSim: int) {
    && t.start < t.c.expiresAt
    && TriggerAt(t.cfg, t.c) - t.cfg.refreshInterval <= t.start + 185 * t.cfg.refreshInterval
    && t.First() + Delays(if t.failures < 5 then t.failures else 5) + t.cfg.postResetDelay <= t.start + maxSim
  }

  /** With room, how many iterations each state can have taken. */
  ghost predicate OnSchedule(s: Sim, times: seq<Time>, steps: nat) {
    match s.state
    case Idle => steps <= 186
    case Armed => steps <= 187
    case Confirming => steps <= 188
    case Resetting => steps <= 189 + |times|
    case Verifying => steps <= 189 + |times|
    case Done => true
  }

  lemma ArrivesInTime(t: Trial, maxSim: int, s: Sim, times: seq<Time>, steps: nat)
    requires t.Valid() && Room(t, maxSim) && Exact(t, s, times, steps) && !s.state.Done?
    ensures s.now <= t.start + maxSim
  {
    var most := if t.failures < 5 then t.failures else 5;
    DelaysGrow(0, most);
    if s.state.Resetting? { DelaysGrow(|times|, most); }
  }

  lemma AtLeast(k: nat, steps: nat, interval: int)
    requires interval > 0 && steps >= k
    ensures steps * interval >= k * interval
  {
  }

  lemma PatrolsFitSteps(start: Time, steps: nat, interval: int, trigger: Time)
    requires interval > 0 && start + steps * interval < trigger <= start + 186 * interval
    ensures steps <= 185
  {
    if steps >= 186 { AtLeast(186, steps, interval); }
  }

  lemma StaysOnSchedule(t: Trial, maxSim: int, s: Sim, times: seq<Time>, steps: nat, u: Upstream, weeklyPct: int)
    requires t.Valid() && Exact(t, s, times, steps) && Answers(t, s, times, u, weeklyPct) && !s.state.Done?
    requires Room(t, maxSim) && OnSchedule(s, times, steps)
    ensures OnSchedule(Arrived(SimStep(t.cfg, s, u)), PostsAfter(s, times), steps + 1)
  {
    ExactStep(t, s, times, steps, u, weeklyPct);
    if s.state.Idle? && s.now < TriggerAt(t.cfg, t.c) {
      PatrolsFitSteps(t.start, steps, t.cfg.refreshInterval, TriggerAt(t.cfg, t.c));
    }
  }

  // ---------- the loop ----------

  /** The client runs the hook of the test matrix. */
  ghost predicate Hooked(hook: Hook) { forall s, id :: hook(s, id) == TestHook(s, id) }

  /** The script with the trial's one credit, as its POSTs so far have left it. */
  ghost predicate HeldBy(s: Script, t: Trial, posts: nat) {
    && s.consumeCode == "reset" && s.rows == [t.Row(posts)]
    && s.failFirstN == (if posts < t.failures then t.failures - posts else 0)
    && (posts > t.failures ==> s.weeklyPct == 100)
  }

  ghost predicate Holds(client: FakeOpenAIClient, t: Trial, posts: nat)
    reads client
  {
    Hooked(client.hook) && HeldBy(client.Scripted(), t, posts)
  }

  lemma PostKeepsHolds(hook: Hook, s: Script, t: Trial, posts: nat)
    requires Hooked(hook) && HeldBy(s, t, posts) && posts <= t.failures
    ensures var after := Served(hook, s, t.c.id);
      HeldBy(after.0, t, posts + 1) && after.1 == if posts < t.failures then NoAnswer else Response("reset")
  {
    MarkSingle(t.c);
    assert hook(s, t.c.id) == TestHook(s, t.c.id);
  }

  /** One step, for every client. */
  method StepOnce(fsm: SimFSM, client: FakeOpenAIClient, ghost rows: seq<Credit>) returns (wake: Time, ghost u: Upstream)
    requires Cycle(fsm.cfg, rows, fsm.View(), PostTimes(fsm.events))
    requires PostTimes(fsm.events) == [] ==> client.rows == rows
    modifies fsm, client`listCalls, client`usageCalls
    modifies client`consumedIds, client`redeemRequests, client`failFirstN, client`rows, client`weeklyPct, client`consumeCode
    ensures SimTicked(fsm.View(), wake) == SimStep(fsm.cfg, old(fsm.View()), u)
    ensures PostTimes(fsm.events) == PostsAfter(old(fsm.View()), old(PostTimes(fsm.events)))
    ensures Cycle(fsm.cfg, rows, Arrived(SimTicked(fsm.View(), wake)), PostTimes(fsm.events))
    ensures old(fsm.state).Idle? || old(fsm.state).Confirming? || old(fsm.state).Verifying? ==>
      Listed(u.list, client.rows, client.weeklyPct, old(fsm.now))
    ensures if old(fsm.state).Resetting?
      then Posted(client, old(client.consumedIds), old(client.redeemRequests), old(client.Scripted()),
                  old(fsm.targetId), old(fsm.redeemId), u)
      else
        && client.Scripted() == old(client.Scripted())
        && client.consumedIds == old(client.consumedIds) && client.redeemRequests == old(client.redeemRequests)
  {
    ghost var was, times := fsm.View(), PostTimes(fsm.events);
    wake, u := fsm.Step(client);
    ghost var tick := SimTicked(fsm.View(), wake);
    StepPosts(old(fsm.events), was, tick);
    CycleStep(fsm.cfg, rows, client.weeklyPct, was, u, tick, times);
  }

  ghost predicate OnTrial(t: Trial, fsm: SimFSM, client: FakeOpenAIClient, steps: nat)
    reads fsm, client
  {
    t.Valid() && t.cfg == fsm.cfg && Exact(t, fsm.View(), PostTimes(fsm.events), steps) && Holds(client, t, |PostTimes(fsm.events)|)
  }

  lemma HeldAnswers(t: Trial, s: Sim, times: seq<Time>, steps: nat, u: Upstream, pct: int)
    requires Exact(t, s, times, steps)
    requires |times| > t.failures ==> pct == 100
    requires s.state.Idle? || s.state.Confirming? || s.state.Verifying? ==> Listed(u.list, [t.Row(|times|)], pct, s.now)
    requires s.state.Resetting? ==> u.consume == if |times| < t.failures then NoAnswer else Response("reset")
    ensures Answers(t, s, times, u, pct)
  {
  }

  lemma TrialStep(t: Trial, maxSim: int, s: Sim, times: seq<Time>, steps: nat, u: Upstream, pct: int, tick: SimTicked)
    requires t.Valid() && Exact(t, s, times, steps) && Answers(t, s, times, u, pct) && !s.state.Done?
    requires tick == SimStep(t.cfg, s, u)
    ensures Exact(t, Arrived(tick), PostsAfter(s, times), steps + 1)
    ensures tick.wake == NO_TIME <==> tick.sim.state.Done?
    ensures Room(t, maxSim) && OnSchedule(s, times, steps) ==> OnSchedule(Arrived(tick), PostsAfter(s, times), steps + 1)
  {
    ExactStep(t, s, times, steps, u, pct);
    if Room(t, maxSim) && OnSchedule(s, times, steps) { StaysOnSchedule(t, maxSim, s, times, steps, u, pct); }
  }

  function Repeated(n: nat, x: string): seq<string> { if n == 0 then [] else Repeated(n - 1, x) + [x] }

  /** Every POST of the run went out with the same target and the same key. */
  ghost predicate Sent(fsm: SimFSM, client: FakeOpenAIClient, ids: seq<string>, keys: seq<string>)
    reads fsm, client
  {
    var n := |PostTimes(fsm.events)|;
    client.consumedIds == ids + Repeated(n, fsm.targetId) && client.redeemRequests == keys + Repeated(n, fsm.redeemId)
  }

  lemma PostsExtend(xs: seq<string>, s: Sim, times: seq<Time>, x: string)
    requires s.state.Resetting?
    ensures xs + Repeated(|times|, x) + [x] == xs + Repeated(|PostsAfter(s, times)|, x)
  {
  }

  /** One step, for every client and, on trial, exactly and on schedule. */
  method StepTrial(fsm: SimFSM, client: FakeOpenAIClient, ghost rows: seq<Credit>, ghost ids: seq<string>, ghost keys: seq<string>,
                   ghost t: Trial, ghost maxSim: int, ghost steps: nat)
    returns (wake: Time)
    requires Sent(fsm, client, ids, keys)
    requires Cycle(fsm.cfg, rows, fsm.View(), PostTimes(fsm.events)) && !fsm.state.Done?
    requires PostTimes(fsm.events) == [] ==> client.rows == rows
    modifies fsm, client`listCalls, client`usageCalls
    modifies client`consumedIds, client`redeemRequests, client`failFirstN, client`rows, client`weeklyPct, client`consumeCode
    ensures Cycle(fsm.cfg, rows, Arrived(SimTicked(fsm.View(), wake)), PostTimes(fsm.events)) && fsm.now == old(fsm.now)
    ensures PostTimes(fsm.events) == [] ==> client.rows == rows
    ensures Sent(fsm, client, ids, keys)
    ensures old(OnTrial(t, fsm, client, steps)) ==>
      && Exact(t, Arrived(SimTicked(fsm.View(), wake)), PostTimes(fsm.events), steps + 1)
      && Holds(client, t, |PostTimes(fsm.events)|) && (wake == NO_TIME <==> fsm.state.Done?)
      && (Room(t, maxSim) && old(OnSchedule(fsm.View(), PostTimes(fsm.events), steps)) ==>
            OnSchedule(Arrived(SimTicked(fsm.View(), wake)), PostTimes(fsm.events), steps + 1))
  {
    ghost var was, times, script := fsm.View(), PostTimes(fsm.events), client.Scripted();
    ghost var trial, u := OnTrial(t, fsm, client, steps), Upstream(NO_SNAPSHOT, NoAnswer, 0);
    wake, u := StepOnce(fsm, client, rows);
    TargetStays(fsm.cfg, was, u);
    if was.state.Resetting? {
      PostsExtend(ids, was, times, fsm.targetId);
      PostsExtend(keys, was, times, fsm.redeemId);
    }
    if trial {
      if was.state.Resetting? { PostKeepsHolds(client.hook, script, t, |times|); }
      HeldAnswers(t, was, times, steps, u, client.weeklyPct);
      TrialStep(t, maxSim, was, times, steps, u, client.weeklyPct, SimTicked(fsm.View(), wake));
    }
  }

  /** The outcome of a trial: no POST once the credit has expired, the first never early and
      never late, and with room one POST more than there are failures, the last verified, or
      six and then it gives up. */
  ghost predicate Outcome(t: Trial, maxSim: int, s: Sim, times: seq<Time>) {
    && (t.start >= t.c.expiresAt ==> times == [])
    && (times != [] ==> times[0] == t.First() < t.c.expiresAt)
    && (Room(t, maxSim) ==>
          if t.failures <= 5
          then |times| == t.failures + 1 && s.state.Done? && s.verdict.VerifiedOk? && !s.gaveUp
               && s.resetAt == t.First() + Delays(t.failures)
          else |times| == 6 && s.state.Done? && s.gaveUp)
  }

  lemma ExactOutcome(t: Trial, maxSim: int, s: Sim, times: seq<Time>, steps: nat)
    requires t.Valid() && Exact(t, s, times, steps) && (Room(t, maxSim) ==> s.state.Done?)
    ensures Outcome(t, maxSim, s, times)
  {
  }

  /** A run stops when there is nothing left to wake for, or at a wake past the deadline. */
  lemma StopOutcome(t: Trial, maxSim: int, tick: SimTicked, times: seq<Time>, steps: nat)
    requires t.Valid() && Exact(t, Arrived(tick), times, steps) && (tick.wake == NO_TIME <==> tick.sim.state.Done?)
    ensures tick.wake == NO_TIME ==> Outcome(t, maxSim, tick.sim, times)
    ensures tick.wake != NO_TIME && tick.wake > t.start + maxSim ==> Outcome(t, maxSim, tick.sim.(gaveUp := true), times)
  {
    if tick.wake == NO_TIME {
      ExactOutcome(t, maxSim, Arrived(tick), times, steps);
    } else if tick.wake > t.start + maxSim && Room(t, maxSim) {
      ArrivesInTime(t, maxSim, Arrived(tick), times, steps);
    }
  }

  /** The state of the loop, between two iterations. */
  ghost predicate Going(fsm: SimFSM, client: FakeOpenAIClient, from: Origin, steps: nat)
    reads fsm, client
  {
    var times := PostTimes(fsm.events);
    && Cycle(fsm.cfg, from.rows, fsm.View(), times) && (times == [] ==> client.rows == from.rows)
    && Sent(fsm, client, from.ids, from.keys)
    && (from.trial ==>
          OnTrial(from.t, fsm, client, steps) && (Room(from.t, from.maxSim) ==> OnSchedule(fsm.View(), times, steps)))
  }

  /** What the run began with. */
  datatype Origin = Origin(rows: seq<Credit>, ids: seq<string>, keys: seq<string>, trial: bool, t: Trial, maxSim: int)

  ghost predicate Finished(fsm: SimFSM, client: FakeOpenAIClient, from: Origin)
    reads fsm, client
  {
    && GoodPosts(fsm.cfg, from.rows, fsm.targetId, PostTimes(fsm.events))
    && Sent(fsm, client, from.ids, from.keys)
    && (from.trial ==> Outcome(from.t, from.maxSim, fsm.View(), PostTimes(fsm.events)))
  }

  lemma GoingStarts(fsm: SimFSM, client: FakeOpenAIClient, from: Origin)
    requires fsm.events == [] && from.rows == client.rows && from.ids == client.consumedIds && from.keys == client.redeemRequests
    requires from.trial ==>
      from.t.Valid() && from.t.cfg == fsm.cfg && fsm.View() == NewSim(from.t.start) && Holds(client, from.t, 0)
    requires fsm.state.Idle?
    ensures Going(fsm, client, from, 0)
  {
  }

  lemma GoingFinishes(fsm: SimFSM, client: FakeOpenAIClient, from: Origin, steps: nat)
    requires Going(fsm, client, from, steps) && (fsm.state.Done? || steps == MAX_STEPS)
    ensures Finished(fsm, client, from)
  {
    if from.trial { ExactOutcome(from.t, from.maxSim, fsm.View(), PostTimes(fsm.events), steps); }
  }

  /** The loop's body: step, then move the clock to a later wake, or stop. */
  method Iterate(fsm: SimFSM, client: FakeOpenAIClient, deadline: Time, ghost from: Origin, ghost steps: nat) returns (stop: bool)
    requires Going(fsm, client, from, steps) && !fsm.state.Done? && (from.trial ==> deadline == from.t.start + from.maxSim)
    modifies fsm, client`listCalls, client`usageCalls
    modifies client`consumedIds, client`redeemRequests, client`failFirstN, client`rows, client`weeklyPct, client`consumeCode
    ensures if stop then Finished(fsm, client, from) else Going(fsm, client, from, steps + 1)
  {
    var next := StepTrial(fsm, client, from.rows, from.ids, from.keys, from.t, from.maxSim, steps);
    ghost var there := Arrived(SimTicked(fsm.View(), next));
    if from.trial { StopOutcome(from.t, from.maxSim, SimTicked(fsm.View(), next), PostTimes(fsm.events), steps + 1); }
    if next == NO_TIME { return true; }
    if next <= fsm.now { return false; }
    if next > deadline {
      fsm.gaveUp := true;
      return true;
    }
    fsm.now := next;
    assert fsm.View() == there;
    stop := false;
  }

  /** For every client, whatever it lists and answers: a run sends at most six POSTs, spaced
      by the backoff, all with one key for one target, the first while that target was
      available and inside its window.  For the one credit of the test matrix, with any
      number of failing calls, exactly what Outcome says. */
  method Run(cfg: SimConfig, client: FakeOpenAIClient, start: Time, maxSim: int, ghost t: Trial) returns (fsm: SimFSM)
    modifies client`listCalls, client`usageCalls
    modifies client`consumedIds, client`redeemRequests, client`failFirstN, client`rows, client`weeklyPct, client`consumeCode
    ensures fresh(fsm) && fsm.cfg == cfg
    ensures GoodPosts(cfg, old(client.rows), fsm.targetId, PostTimes(fsm.events))
    ensures Sent(fsm, client, old(client.consumedIds), old(client.redeemRequests))
    ensures t.Valid() && t.cfg == cfg && t.start == start && old(Holds(client, t, 0)) ==>
      Outcome(t, maxSim, fsm.View(), PostTimes(fsm.events))
  {
    fsm := new SimFSM(cfg, start);
    var deadline, steps := start + maxSim, 0;
    ghost var trial := t.Valid() && t.cfg == cfg && t.start == start && Holds(client, t, 0);
    ghost var from := Origin(client.rows, client.consumedIds, client.redeemRequests, trial, t, maxSim);
    GoingStarts(fsm, client, from);
    while fsm.state != Done && steps < MAX_STEPS
      invariant fresh(fsm) && fsm.cfg == cfg && 0 <= steps <= MAX_STEPS
      invariant Going(fsm, client, from, steps)
    {
      var stop := Iterate(fsm, client, deadline, from, steps);
      if stop { return; }
      steps := steps + 1;
    }
    GoingFinishes(fsm, client, from, steps);
  }
}
