// The simulator's machine as functions on values: the simpler machine the production one
// mirrors.

module Simulator {
  import opened Models
  import opened CreditSelection
  import opened Retry
  import opened Durations

  datatype SimConfig = SimConfig(refreshInterval: int, leadTime: int, postResetDelay: int)

  datatype Verdict = NoVerdict | VerifiedOk | Partial | Mismatch

  datatype Sim = Sim(
    now: Time, state: State, targetId: string, preSnap: Snapshot,
    attempt: nat, nextRetry: Time, verifyDue: Time, gaveUp: bool, verdict: Verdict, resetAt: Time,
    redeemId: string, numPosts: nat)

  /** What the fake upstream answers to one step: its listing (which also carries the weekly
      quota its usage call reports), the outcome of a consume, and how many it has recorded. */
  datatype Upstream = Upstream(list: Snapshot, consume: ConsumeOutcome, recorded: nat)

  datatype SimTicked = SimTicked(sim: Sim, wake: Time)

  function NewSim(now: Time): Sim {
    Sim(now, Idle, "", NO_SNAPSHOT, 0, NO_TIME, NO_TIME, false, NoVerdict, NO_TIME, "", 0)
  }

  function Unexpired(now: Time): Credit -> bool {
    (c: Credit) => c.expiresAt == NO_TIME || c.expiresAt > now
  }

  function IsAvailable(): Credit -> bool {
    (c: Credit) => c.status == "available"
  }

  /** The fake client filters by expiry only and sorts, not necessarily stably. */
  ghost predicate SimListing(listed: seq<Credit>, store: seq<Credit>, now: Time) {
    Sorted(listed) && multiset(listed) == multiset(Filter(Unexpired(now), store))
  }

  lemma ShortPermutations(r: seq<Credit>, s: seq<Credit>)
    requires multiset(r) == multiset(s) && |r| <= 1
    ensures r == s
  {
    assert |multiset(r)| == |r| && |multiset(s)| == |s|;
    if |r| == 1 { assert s[0] in multiset(s) && s[0] in multiset(r); }
  }

  function PickTarget(credits: seq<Credit>): Option<Credit> {
    if credits == [] then None
    else if credits[0].status == "available" then Some(credits[0])
    else PickTarget(credits[1..])
  }

  function FindAvailable(credits: seq<Credit>, id: string): Option<Credit> {
    if credits == [] then None
    else if credits[0].id == id && credits[0].status == "available" then Some(credits[0])
    else FindAvailable(credits[1..], id)
  }

  function SimBackoff(attempt: int): int {
    if attempt == 1 then MINUTE
    else if attempt == 2 then 2 * MINUTE
    else if attempt == 3 then 5 * MINUTE
    else if attempt == 4 then 10 * MINUTE
    else 30 * MINUTE
  }

  /** The key the simulator mints for its next POST. */
  function RedeemKey(post: nat, creditId: string): string {
    "rrid-" + Digits(post) + "-" + creditId
  }

  function GiveUp(s: Sim): SimTicked {
    SimTicked(s.(state := Done, gaveUp := true), NO_TIME)
  }

  function SimIdle(cfg: SimConfig, s: Sim, u: Upstream): SimTicked {
    var target := PickTarget(u.list.credits);
    if target.None? || target.value.expiresAt == NO_TIME
       || s.now < target.value.expiresAt - cfg.leadTime - cfg.refreshInterval
    then SimTicked(s, s.now + cfg.refreshInterval)
    else
      var t := target.value.expiresAt - cfg.leadTime;
      SimTicked(s.(targetId := target.value.id, state := Armed), if s.now < t then t else s.now)
  }

  function SimConfirming(cfg: SimConfig, s: Sim, u: Upstream): SimTicked {
    var target := if s.targetId == "" then None else FindAvailable(u.list.credits, s.targetId);
    if target.None? || target.value.id == "" || target.value.expiresAt == NO_TIME then GiveUp(s)
    else
      var t := target.value.expiresAt - cfg.leadTime;
      if s.now < t then SimTicked(s.(state := Armed), t)
      else
        SimTicked(
          s.(preSnap := u.list, redeemId := RedeemKey(s.numPosts + 1, target.value.id), attempt := 0, state := Resetting),
          s.now)
  }

  function SimResetting(cfg: SimConfig, before: Sim, u: Upstream): SimTicked {
    var s := before.(numPosts := u.recorded);
    if !u.consume.Response? then
      var n := s.attempt + 1;
      if n > 5 then GiveUp(s.(attempt := n))
      else SimTicked(s.(attempt := n, nextRetry := s.now + SimBackoff(n)), s.now + SimBackoff(n))
    else if u.consume.code == "reset" || u.consume.code == "already_redeemed" then
      SimTicked(s.(state := Verifying, verifyDue := s.now + cfg.postResetDelay, resetAt := s.now), s.now + cfg.postResetDelay)
    else GiveUp(s)
  }

  function SimVerifying(s: Sim, u: Upstream): SimTicked {
    var gone := forall c :: c in u.list.credits ==> !(c.id == s.targetId && c.status == "available");
    var down1 := u.list.availableCount == s.preSnap.availableCount - 1;
    var up := u.list.weeklyPct >= 100 || u.list.weeklyPct > s.preSnap.weeklyPct;
    var verdict := if gone && down1 && up then VerifiedOk else if gone && down1 then Partial else Mismatch;
    SimTicked(s.(state := Done, verdict := verdict, gaveUp := s.gaveUp || verdict.Mismatch?), NO_TIME)
  }

  function SimStep(cfg: SimConfig, s: Sim, u: Upstream): SimTicked {
    match s.state
    case Idle => SimIdle(cfg, s, u)
    case Armed => SimTicked(s.(state := Confirming), s.now)
    case Confirming => SimConfirming(cfg, s, u)
    case Resetting => SimResetting(cfg, s, u)
    case Verifying => SimVerifying(s, u)
    case Done => SimTicked(s, NO_TIME)
  }

  // ---------- the audit trail ----------

  datatype EventKind = StateChange | HttpList | HttpUsage | HttpConsume

  datatype Event = Event(at: Time, kind: EventKind, state: State, next: Option<Time>)

  /** What a step from s to t appends to the trail, but for the wording. */
  function EventsOf(s: Sim, t: SimTicked): seq<Event> {
    match s.state
    case Idle => [Event(s.now, HttpList, Idle, None), Event(s.now, StateChange, t.sim.state, Some(t.wake))]
    case Armed => [Event(s.now, StateChange, Confirming, None)]
    case Confirming =>
      [Event(s.now, HttpList, Confirming, None),
       Event(s.now, StateChange, t.sim.state, if t.sim.state.Armed? then Some(t.wake) else None)]
    case Resetting =>
      [Event(s.now, HttpConsume, Resetting, None),
       Event(s.now, StateChange, t.sim.state, if t.sim.state.Done? then None else Some(t.wake))]
    case Verifying =>
      [Event(s.now, HttpList, Verifying, None), Event(s.now, HttpUsage, Verifying, None),
       Event(s.now, StateChange, Done, None)]
    case Done => []
  }

  /** When the trail shows a POST. */
  function PostTimes(events: seq<Event>): seq<Time> {
    if events == [] then []
    else
      var init, last := events[..|events| - 1], events[|events| - 1];
      PostTimes(init) + if last.kind.HttpConsume? then [last.at] else []
  }

  lemma {:induction false} PostTimesConcat(a: seq<Event>, b: seq<Event>)
    ensures PostTimes(a + b) == PostTimes(a) + PostTimes(b)
  {
    if b == [] {
      assert a + b == a;
    } else {
      PostTimesConcat(a, b[..|b| - 1]);
      assert (a + b)[..|a + b| - 1] == a + b[..|b| - 1];
    }
  }

  lemma PostTimesOfOne(e: Event)
    ensures PostTimes([e]) == if e.kind.HttpConsume? then [e.at] else []
  {
    assert [e][..0] == [];
  }

  lemma PostTimesOfTwo(a: Event, b: Event)
    ensures PostTimes([a, b]) == PostTimes([a]) + PostTimes([b])
  {
    assert [a, b] == [a] + [b];
    PostTimesConcat([a], [b]);
  }

  lemma PostTimesOfStep(s: Sim, t: SimTicked)
    ensures PostTimes(EventsOf(s, t)) == if s.state.Resetting? then [s.now] else []
  {
    var es := EventsOf(s, t);
    if s.state.Done? {
    } else if s.state.Armed? {
      PostTimesOfOne(es[0]);
    } else {
      PostTimesOfOne(es[0]);
      PostTimesOfOne(es[1]);
      PostTimesOfTwo(es[0], es[1]);
      if s.state.Verifying? {
        PostTimesOfOne(es[2]);
        assert es == [es[0], es[1]] + [es[2]];
        PostTimesConcat([es[0], es[1]], [es[2]]);
      }
    }
  }
}
