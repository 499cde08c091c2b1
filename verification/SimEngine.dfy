// The simulator as the objects its tests drive: the scripted client, the machine that
// mutates its fields, and the run loop on the single credit of the test matrix.

module SimEngine {
  import opened Models
  import opened CreditSelection
  import opened Retry
  import opened Simulator

  /** A listing of rows: unexpired, sorted, with the available ones counted. */
  ghost predicate Listed(snap: Snapshot, rows: seq<Credit>, weeklyPct: int, now: Time) {
    && SimListing(snap.credits, rows, now)
    && snap.availableCount == |Filter(IsAvailable(), snap.credits)|
    && snap.weeklyPct == weeklyPct
  }

  predicate Redeems(code: string) { code == "reset" || code == "already_redeemed" }

  /** The part of the client its consume hook can rewrite. */
  datatype Script = Script(rows: seq<Credit>, weeklyPct: int, consumeCode: string, failFirstN: nat)

  type Hook = (Script, string) -> Script

  /** The hook of the test matrix: the named credit becomes redeemed, the quota full. */
  function TestHook(s: Script, id: string): Script {
    s.(rows := MarkRedeemed(s.rows, id), weeklyPct := 100)
  }

  function MarkRedeemed(rows: seq<Credit>, id: string): seq<Credit> {
    if rows == [] then []
    else
      var last := rows[|rows| - 1];
      MarkRedeemed(rows[..|rows| - 1], id) + [if last.id == id then last.(status := "redeemed") else last]
  }

  /** rows: the live credit store in the order the listing happens to visit it.  failFirstN:
      how many more calls fail, an error to fail with being set.  hook: any function; doing
      nothing stands for a missing one. */
  class FakeOpenAIClient {
    const hook: Hook
    var rows: seq<Credit>
    var weeklyPct: int
    var consumeCode: string
    var failFirstN: nat
    var consumedIds: seq<string>
    var redeemRequests: seq<string>
    var listCalls: nat
    var usageCalls: nat

    ghost function Scripted(): Script
      reads this
    {
      Script(rows, weeklyPct, consumeCode, failFirstN)
    }

    constructor (script: Script, hook: Hook)
      ensures Scripted() == script && this.hook == hook
      ensures consumedIds == [] && redeemRequests == [] && listCalls == usageCalls == 0
    {
      this.hook := hook;
      rows, weeklyPct, consumeCode, failFirstN := script.rows, script.weeklyPct, script.consumeCode, script.failFirstN;
      consumedIds, redeemRequests := [], [];
      listCalls, usageCalls := 0, 0;
    }

    method List(now: Time) returns (snap: Snapshot)
      modifies this`listCalls
      ensures listCalls == old(listCalls) + 1
      ensures Listed(snap, rows, weeklyPct, now)
    {
      listCalls := listCalls + 1;
      var out: seq<Credit> := [];
      for i := 0 to |rows|
        invariant out == Filter(Unexpired(now), rows[..i])
      {
        assert rows[..i + 1][..i] == rows[..i];
        if rows[i].expiresAt != NO_TIME && !(rows[i].expiresAt > now) { continue; }
        out := out + [rows[i]];
      }
      assert rows[..|rows|] == rows;
      var credits := SortRows(out);
      var avail := CountAvailable(credits);
      snap := Snapshot(avail, credits, weeklyPct);
    }

    method Usage() returns (snap: Snapshot)
      modifies this`usageCalls
      ensures usageCalls == old(usageCalls) + 1
      ensures snap == Snapshot(|Filter(IsAvailable(), rows)|, [], weeklyPct)
    {
      usageCalls := usageCalls + 1;
      var avail := CountAvailable(rows);
      snap := Snapshot(avail, [], weeklyPct);
    }

    static method SortRows(rows: seq<Credit>) returns (sorted: seq<Credit>)
      ensures Sorted(sorted) && multiset(sorted) == multiset(rows)
    {
      var slice := new Credit[|rows|](k requires 0 <= k < |rows| => rows[k]);
      assert slice[..] == rows;
      SliceStable(slice);
      sorted := slice[..];
      StableSortIsSorted(rows);
      StableSortPermutes(rows);
    }

    static method CountAvailable(credits: seq<Credit>) returns (n: nat)
      ensures n == |Filter(IsAvailable(), credits)|
    {
      n := 0;
      for i := 0 to |credits|
        invariant n == |Filter(IsAvailable(), credits[..i])|
      {
        assert credits[..i + 1][..i] == credits[..i];
        if credits[i].status == "available" { n := n + 1; }
      }
      assert credits[..|credits|] == credits;
    }

    /** The call is recorded.  A scripted failure changes nothing else; a code that means
        "consumed" runs the hook; the answer is the code as the hook leaves it. */
    method Consume(redeemId: string, creditId: string) returns (r: ConsumeOutcome)
      modifies this`consumedIds, this`redeemRequests, this`failFirstN, this`rows, this`weeklyPct, this`consumeCode
      ensures consumedIds == old(consumedIds) + [creditId] && redeemRequests == old(redeemRequests) + [redeemId]
      ensures Served(hook, old(Scripted()), creditId) == (Scripted(), r)
    {
      consumedIds, redeemRequests := consumedIds + [creditId], redeemRequests + [redeemId];
      if failFirstN > 0 {
        failFirstN := failFirstN - 1;
        return NoAnswer;
      }
      if consumeCode == "reset" || consumeCode == "already_redeemed" {
        var s := hook(Script(rows, weeklyPct, consumeCode, failFirstN), creditId);
        rows, weeklyPct, consumeCode, failFirstN := s.rows, s.weeklyPct, s.consumeCode, s.failFirstN;
      }
      r := Response(consumeCode);
    }
  }

  /** What a call makes of the script, and its answer. */
  function Served(hook: Hook, s: Script, id: string): (Script, ConsumeOutcome) {
    if s.failFirstN > 0 then (s.(failFirstN := s.failFirstN - 1), NoAnswer)
    else
      var after := if Redeems(s.consumeCode) then hook(s, id) else s;
      (after, Response(after.consumeCode))
  }

  /** The simulator's accountFSM.  Each step also names, as a ghost, what the client
      answered it. */
  class SimFSM {
    const cfg: SimConfig
    var now: Time
    var state: State
    var targetId: string
    var preSnap: Snapshot
    var attempt: nat
    var nextRetry: Time
    var verifyDue: Time
    var gaveUp: bool
    var verdict: Verdict
    var resetAt: Time
    var redeemId: string
    var numPosts: nat
    var events: seq<Event>

    ghost function View(): Sim
      reads this
    {
      Sim(now, state, targetId, preSnap, attempt, nextRetry, verifyDue, gaveUp, verdict, resetAt, redeemId, numPosts)
    }

    constructor (cfg: SimConfig, start: Time)
      ensures View() == NewSim(start) && this.cfg == cfg && events == []
    {
      this.cfg := cfg;
      now, state, targetId, preSnap := start, Idle, "", NO_SNAPSHOT;
      attempt, nextRetry, verifyDue := 0, NO_TIME, NO_TIME;
      gaveUp, verdict, resetAt := false, NoVerdict, NO_TIME;
      redeemId, numPosts, events := "", 0, [];
    }

    method Log(kind: EventKind, next: Option<Time>)
      modifies this`events
      ensures events == old(events) + [Event(now, kind, state, next)]
    {
      events := events + [Event(now, kind, state, next)];
    }

    method GiveUpNow() returns (wake: Time)
      modifies this`state, this`gaveUp, this`events
      ensures state == Done && gaveUp && wake == NO_TIME
      ensures events == old(events) + [Event(now, StateChange, Done, None)]
    {
      state, gaveUp := Done, true;
      Log(StateChange, None);
      wake := NO_TIME;
    }

    method StepIdle(client: FakeOpenAIClient) returns (wake: Time, ghost u: Upstream)
      modifies this, client`listCalls
      ensures Listed(u.list, client.rows, client.weeklyPct, now)
      ensures SimTicked(View(), wake) == SimIdle(cfg, old(View()), u)
      ensures old(state).Idle? ==> events == old(events) + EventsOf(old(View()), SimTicked(View(), wake))
    {
      var snap := client.List(now);
      u := Upstream(snap, NoAnswer, 0);
      Log(HttpList, None);
      var target := FirstAvailable(snap.credits);
      if target.None? || target.value.expiresAt == NO_TIME {
        wake := now + cfg.refreshInterval;
        Log(StateChange, Some(wake));
        return;
      }
      var t := target.value.expiresAt - cfg.leadTime;
      if now < t - cfg.refreshInterval {
        wake := now + cfg.refreshInterval;
        Log(StateChange, Some(wake));
        return;
      }
      targetId := target.value.id;
      state := Armed;
      wake := t;
      if !(now < t) { wake := now; }
      Log(StateChange, Some(wake));
    }

    static method FirstAvailable(credits: seq<Credit>) returns (r: Option<Credit>)
      ensures r == PickTarget(credits)
    {
      for i := 0 to |credits|
        invariant PickTarget(credits) == PickTarget(credits[i..])
      {
        if credits[i].status == "available" { return Some(credits[i]); }
        assert credits[i..][1..] == credits[i + 1..];
      }
      r := None;
    }

    static method Lookup(credits: seq<Credit>, id: string) returns (r: Option<Credit>)
      ensures r == FindAvailable(credits, id)
    {
      for i := 0 to |credits|
        invariant FindAvailable(credits, id) == FindAvailable(credits[i..], id)
      {
        if credits[i].id == id && credits[i].status == "available" { return Some(credits[i]); }
        assert credits[i..][1..] == credits[i + 1..];
      }
      r := None;
    }

    method StepArmed() returns (wake: Time)
      modifies this
      ensures View() == old(View()).(state := Confirming) && wake == now
      ensures events == old(events) + [Event(now, StateChange, Confirming, None)]
    {
      state := Confirming;
      Log(StateChange, None);
      wake := now;
    }

    method StepConfirming(client: FakeOpenAIClient) returns (wake: Time, ghost u: Upstream)
      modifies this, client`listCalls
      ensures Listed(u.list, client.rows, client.weeklyPct, now)
      ensures SimTicked(View(), wake) == SimConfirming(cfg, old(View()), u)
      ensures old(state).Confirming? ==> events == old(events) + EventsOf(old(View()), SimTicked(View(), wake))
    {
      var snap := client.List(now);
      u := Upstream(snap, NoAnswer, 0);
      Log(HttpList, None);
      var target: Option<Credit> := None;
      if targetId != "" { target := Lookup(snap.credits, targetId); }
      if target.None? || target.value.id == "" || target.value.expiresAt == NO_TIME {
        wake := GiveUpNow();
      } else {
        wake := RearmOrMint(snap, target.value);
      }
    }

    method RearmOrMint(snap: Snapshot, target: Credit) returns (wake: Time)
      modifies this
      ensures var t := target.expiresAt - cfg.leadTime;
        if now < t then View() == old(View()).(state := Armed) && wake == t
        else
          && wake == now
          && View() == old(View()).(preSnap := snap, redeemId := RedeemKey(numPosts + 1, target.id), attempt := 0, state := Resetting)
      ensures events == old(events) + [Event(now, StateChange, state, if state.Armed? then Some(wake) else None)]
    {
      var t := target.expiresAt - cfg.leadTime;
      if now < t {
        state := Armed;
        Log(StateChange, Some(t));
        return t;
      }
      preSnap, redeemId, attempt, state := snap, RedeemKey(numPosts + 1, target.id), 0, Resetting;
      Log(StateChange, None);
      wake := now;
    }

    method StepResetting(client: FakeOpenAIClient) returns (wake: Time, ghost u: Upstream)
      modifies this, client`consumedIds, client`redeemRequests, client`failFirstN, client`rows, client`weeklyPct, client`consumeCode
      ensures SimTicked(View(), wake) == SimResetting(cfg, old(View()), u)
      ensures Posted(client, old(client.consumedIds), old(client.redeemRequests), old(client.Scripted()),
                     old(targetId), old(redeemId), u)
      ensures old(state).Resetting? ==> events == old(events) + EventsOf(old(View()), SimTicked(View(), wake))
    {
      var r: ConsumeOutcome;
      r, u := Post(client);
      if !r.Response? {
        wake := RetryLater();
      } else if r.code == "reset" || r.code == "already_redeemed" {
        wake := Accepted();
      } else {
        wake := GiveUpNow();
      }
    }

    method Post(client: FakeOpenAIClient) returns (r: ConsumeOutcome, ghost u: Upstream)
      modifies this`numPosts, this`events
      modifies client`consumedIds, client`redeemRequests, client`failFirstN, client`rows, client`weeklyPct, client`consumeCode
      ensures u.consume == r && numPosts == u.recorded && events == old(events) + [Event(now, HttpConsume, state, None)]
      ensures Posted(client, old(client.consumedIds), old(client.redeemRequests), old(client.Scripted()), targetId, redeemId, u)
    {
      r := client.Consume(redeemId, targetId);
      numPosts := |client.consumedIds|;
      u := Upstream(NO_SNAPSHOT, r, numPosts);
      Log(HttpConsume, None);
    }

    method RetryLater() returns (wake: Time)
      modifies this`attempt, this`nextRetry, this`state, this`gaveUp, this`events
      ensures attempt == old(attempt) + 1
      ensures if attempt > 5
        then state == Done && gaveUp && wake == NO_TIME && nextRetry == old(nextRetry)
        else state == old(state) && gaveUp == old(gaveUp) && wake == nextRetry == now + SimBackoff(attempt)
      ensures events == old(events) + [Event(now, StateChange, state, if attempt > 5 then None else Some(wake))]
    {
      attempt := attempt + 1;
      if attempt > 5 {
        wake := GiveUpNow();
        return;
      }
      nextRetry := now + SimBackoff(attempt);
      wake := nextRetry;
      Log(StateChange, Some(wake));
    }

    method Accepted() returns (wake: Time)
      modifies this`state, this`verifyDue, this`resetAt, this`events
      ensures state == Verifying && wake == verifyDue == now + cfg.postResetDelay && resetAt == now
      ensures events == old(events) + [Event(now, StateChange, Verifying, Some(wake))]
    {
      state := Verifying;
      verifyDue := now + cfg.postResetDelay;
      resetAt := now;
      wake := verifyDue;
      Log(StateChange, Some(wake));
    }

    method StepVerifying(client: FakeOpenAIClient) returns (wake: Time, ghost u: Upstream)
      modifies this, client`listCalls, client`usageCalls
      ensures Listed(u.list, client.rows, client.weeklyPct, now)
      ensures SimTicked(View(), wake) == SimVerifying(old(View()), u)
      ensures old(state).Verifying? ==> events == old(events) + EventsOf(old(View()), SimTicked(View(), wake))
    {
      var snap := client.List(now);
      var usage := client.Usage();
      u := Upstream(snap, NoAnswer, 0);
      Log(HttpList, None);
      Log(HttpUsage, None);
      Judge(snap, usage.weeklyPct);
      Log(StateChange, None);
      wake := NO_TIME;
    }

    /** The triple check. */
    method Judge(snap: Snapshot, weeklyPct: int)
      requires snap.weeklyPct == weeklyPct
      modifies this`state, this`verdict, this`gaveUp
      ensures View() == SimVerifying(old(View()), Upstream(snap, NoAnswer, 0)).sim
    {
      var left := Lookup(snap.credits, targetId);
      FindAvailableFinds(snap.credits, targetId);
      var countDown1 := snap.availableCount == preSnap.availableCount - 1;
      var quotaRecovered := weeklyPct >= 100 || weeklyPct > preSnap.weeklyPct;
      state := Done;
      if left.None? && countDown1 && quotaRecovered { verdict := VerifiedOk; }
      else if left.None? && countDown1 { verdict := Partial; }
      else { verdict, gaveUp := Mismatch, true; }
    }

    method Step(client: FakeOpenAIClient) returns (wake: Time, ghost u: Upstream)
      modifies this, client`listCalls, client`usageCalls
      modifies client`consumedIds, client`redeemRequests, client`failFirstN, client`rows, client`weeklyPct, client`consumeCode
      ensures SimTicked(View(), wake) == SimStep(cfg, old(View()), u)
      ensures events == old(events) + EventsOf(old(View()), SimTicked(View(), wake))
      ensures old(state).Idle? || old(state).Confirming? || old(state).Verifying? ==>
        Listed(u.list, client.rows, client.weeklyPct, now)
      ensures if old(state).Resetting?
        then Posted(client, old(client.consumedIds), old(client.redeemRequests), old(client.Scripted()),
                    old(targetId), old(redeemId), u)
        else
          && client.Scripted() == old(client.Scripted())
          && client.consumedIds == old(client.consumedIds) && client.redeemRequests == old(client.redeemRequests)
    {
      u := Upstream(NO_SNAPSHOT, NoAnswer, 0);
      match state {
        case Idle => wake, u := StepIdle(client);
        case Armed => wake := StepArmed();
        case Confirming => wake, u := StepConfirming(client);
        case Resetting => wake, u := StepResetting(client);
        case Verifying => wake, u := StepVerifying(client);
        case Done => wake := NO_TIME;
      }
    }
  }

  /** What one POST made of the client, and what it answered. */
  ghost predicate Posted(client: FakeOpenAIClient, ids: seq<string>, keys: seq<string>, script: Script,
                         id: string, key: string, u: Upstream)
    reads client
  {
    && client.consumedIds == ids + [id] && client.redeemRequests == keys + [key] && u.recorded == |ids| + 1
    && (client.Scripted(), u.consume) == Served(client.hook, script, id)
  }

  lemma {:induction false} FindAvailableFinds(credits: seq<Credit>, id: string)
    ensures FindAvailable(credits, id).None? <==> forall c :: c in credits ==> !(c.id == id && c.status == "available")
  {
    if credits == [] {
    } else {
      FindAvailableFinds(credits[1..], id);
      assert credits == [credits[0]] + credits[1..];
    }
  }
}
