// What every action does to an account, outcome by outcome, in terms of what the upstream
// answered, with the durations and the codes written out.

module Transitions {
  import opened Models
  import opened CreditSelection
  import opened Machine
  import opened Account

  /** Nothing is minted, posted, pinned, verified or delivered. */
  predicate SameHistory(a: Account, b: Account) {
    && b.minted == a.minted && b.origin == a.origin && b.posts == a.posts && b.pinned == a.pinned
    && b.verified == a.verified && b.delivered == a.delivered
  }

  /** The cycle is over: IDLE one refresh interval after the tick, nothing left of the attempt
      but an undelivered record. */
  predicate Over(p: Settings, f: Fsm, g: Fsm, later: Time) {
    && g.state.Idle? && g.nextWake == later + p.refreshInterval
    && g.attempt == NO_ATTEMPT && g.verifyDue == NO_TIME && g.scheduled == "" && !g.manual
    && g.pending == f.pending
  }

  // ---------- IDLE and ARMED ----------

  /** Credit i is the one to arm: of the available and unexpired ones none expires before it,
      it expires, and its trigger time is at most one refresh interval away. */
  ghost predicate ToArm(p: Settings, credits: seq<Credit>, now: Time, i: nat)
    requires i < |credits|
  {
    && First(SelectableAt(now), credits, i) && credits[i].expiresAt != 0
    && now >= credits[i].expiresAt - p.leadTime - p.refreshInterval
  }

  /** A listing either has no selectable credit or a first one, which heads the selection. */
  lemma SelectHead(credits: seq<Credit>, now: Time)
    ensures forall i: nat :: i < |credits| && First(SelectableAt(now), credits, i) ==>
      Select(credits, now) != [] && Select(credits, now)[0] == credits[i]
    ensures Select(credits, now) != [] ==> exists i: nat :: i < |credits| && First(SelectableAt(now), credits, i)
  {
    forall i: nat | i < |credits| && First(SelectableAt(now), credits, i)
      ensures Select(credits, now) != [] && Select(credits, now)[0] == credits[i]
    {
      HeadOfSelect(credits, now, i);
    }
    if Select(credits, now) != [] {
      SelectIsSoonestFirst(credits, now);
      var c := Select(credits, now)[0];
      assert c in Select(credits, now);
      var k :| 0 <= k < |credits| && credits[k] == c;
      var i := FirstExists(SelectableAt(now), credits, k);
    }
  }

  /** An IDLE account arms if and only if its listing came and has a credit to arm; it pins
      that one and wakes at its trigger time, or at once when that has passed.  Otherwise,
      after a failed listing too, it stays as it is for one refresh interval. */
  lemma IdleTick(p: Settings, a: Account, e: Env)
    requires a.fsm.state.Idle? && Due(a, e)
    ensures var b := Apply(p, a, Tick(e));
      && SameHistory(a, b.(pinned := a.pinned))
      && (b.fsm.state.Armed? <==> e.list.Some? && exists i: nat :: i < |e.list.value.credits| && ToArm(p, e.list.value.credits, e.now, i))
      && (forall i: nat :: e.list.Some? && i < |e.list.value.credits| && ToArm(p, e.list.value.credits, e.now, i) ==>
            var c := e.list.value.credits[i];
            && b.pinned == c.id
            && b.fsm == a.fsm.(state := Armed, scheduled := c.id,
                               nextWake := if e.now < c.expiresAt - p.leadTime then c.expiresAt - p.leadTime else e.now))
      && (!b.fsm.state.Armed? ==> b.pinned == a.pinned && b.fsm == a.fsm.(nextWake := e.now + p.refreshInterval))
  {
    if e.list.Some? {
      var credits := e.list.value.credits;
      SelectHead(credits, e.now);
      if Select(credits, e.now) != [] {
        var i: nat :| i < |credits| && First(SelectableAt(e.now), credits, i);
        assert Apply(p, a, Tick(e)).fsm.state.Armed? ==> ToArm(p, credits, e.now, i);
      }
    }
  }

  /** An ARMED account confirms at its wake, whatever the upstream would answer. */
  lemma ArmedTick(p: Settings, a: Account, e: Env)
    requires a.fsm.state.Armed? && Due(a, e)
    ensures var b := Apply(p, a, Tick(e));
      SameHistory(a, b) && b.fsm == a.fsm.(state := Confirming, nextWake := e.later)
  {
  }

  // ---------- CONFIRMING ----------

  /** The credits a confirmation chooses among: all selectable ones when it is manual, and
      otherwise those with the pinned id. */
  function Wanted(f: Fsm, now: Time): Credit -> bool {
    (c: Credit) => Selectable(c, now) && (f.manual || (f.scheduled != "" && c.id == f.scheduled))
  }

  /** Credit i is the first of those and has an id. */
  ghost predicate Target(f: Fsm, credits: seq<Credit>, now: Time, i: nat)
    requires i < |credits|
  {
    First(Wanted(f, now), credits, i) && credits[i].id != ""
  }

  /** ... and, when nobody asked by hand, it expires and its trigger time has come. */
  ghost predicate DueTarget(p: Settings, f: Fsm, credits: seq<Credit>, now: Time, i: nat)
    requires i < |credits|
  {
    Target(f, credits, now, i) && (f.manual || (credits[i].expiresAt != 0 && credits[i].expiresAt - p.leadTime <= now))
  }

  /** Without a listing, and without the usage of an account whose target is due, nothing is
      minted or posted and the cycle is over. */
  lemma FailedFetchAbandons(p: Settings, a: Account, e: Env)
    requires a.fsm.state.Confirming? && Due(a, e) && (e.list.None? || e.usage.None?)
    ensures var b := Apply(p, a, Tick(e));
      && SameHistory(a, b)
      && (Over(p, a.fsm, b.fsm, e.later) || (e.list.Some? && !a.fsm.manual && b.fsm.state.Armed? && b.fsm.nextWake > e.now))
  {
  }

  function HasId(id: string): Credit -> bool { (c: Credit) => c.id == id }

  lemma {:induction false} FindIsHead(s: seq<Credit>, id: string)
    ensures var with := Filter(HasId(id), s); FindCredit(s, id) == if with == [] then None else Some(with[0])
  {
    if s == [] {
    } else {
      FindIsHead(s[1..], id);
      FilterFront(HasId(id), s[0], s[1..]);
      assert [s[0]] + s[1..] == s;
    }
  }

  /** The search finds the first selectable credit with the id. */
  lemma FindInSelect(credits: seq<Credit>, now: Time, id: string, i: nat)
    requires i < |credits| && First(Both(SelectableAt(now), HasId(id)), credits, i)
    ensures FindCredit(Select(credits, now), id) == Some(credits[i])
  {
    FindIsHead(Select(credits, now), id);
    FilterStableSort(HasId(id), Filter(SelectableAt(now), credits));
    FilterBoth(SelectableAt(now), HasId(id), credits);
    HeadOfSort(Both(SelectableAt(now), HasId(id)), credits, i);
  }

  lemma TargetIsFirst(f: Fsm, credits: seq<Credit>, now: Time, i: nat)
    requires i < |credits| && First(Wanted(f, now), credits, i)
    ensures ConfirmTarget(f, Select(credits, now)) == Some(credits[i])
  {
    if f.manual {
      assert First(SelectableAt(now), credits, i);
      HeadOfSelect(credits, now, i);
    } else {
      assert First(Both(SelectableAt(now), HasId(f.scheduled)), credits, i);
      FindInSelect(credits, now, f.scheduled, i);
    }
  }

  /** The search over the selection is the search for the first wanted credit. */
  lemma TargetExists(f: Fsm, credits: seq<Credit>, now: Time)
    ensures forall i: nat :: i < |credits| && First(Wanted(f, now), credits, i) ==>
      ConfirmTarget(f, Select(credits, now)) == Some(credits[i])
    ensures ConfirmTarget(f, Select(credits, now)).Some? ==>
      exists i: nat :: i < |credits| && First(Wanted(f, now), credits, i)
  {
    forall i: nat | i < |credits| && First(Wanted(f, now), credits, i)
      ensures ConfirmTarget(f, Select(credits, now)) == Some(credits[i])
    {
      TargetIsFirst(f, credits, now, i);
    }
    var target := ConfirmTarget(f, Select(credits, now));
    if target.Some? {
      SelectIsSoonestFirst(credits, now);
      assert target.value in Select(credits, now);
      var k :| 0 <= k < |credits| && credits[k] == target.value;
      var i := FirstExists(Wanted(f, now), credits, k);
    }
  }

  /** A confirmation mints an attempt if and only if both calls answered and the listing has a
      due target; the key is the fresh one, the target that credit, and the snapshot the
      listing with the weekly usage the other call answered. */
  lemma ConfirmingTick(p: Settings, a: Account, e: Env)
    requires a.fsm.state.Confirming? && Due(a, e)
    ensures var b := Apply(p, a, Tick(e));
      && b.posts == a.posts && b.pinned == a.pinned && b.verified == a.verified && b.delivered == a.delivered
      && (b.fsm.state.Resetting? <==>
            (e.list.Some? && e.usage.Some?
             && exists i: nat :: i < |e.list.value.credits| && DueTarget(p, a.fsm, e.list.value.credits, e.now, i)))
      && (!b.fsm.state.Resetting? ==> SameHistory(a, b))
  {
    if e.list.Some? {
      var credits := e.list.value.credits;
      TargetExists(a.fsm, credits, e.now);
      if ConfirmTarget(a.fsm, Select(credits, e.now)).Some? {
        var i: nat :| i < |credits| && First(Wanted(a.fsm, e.now), credits, i);
        assert Apply(p, a, Tick(e)).fsm.state.Resetting? ==> DueTarget(p, a.fsm, credits, e.now, i);
      }
    }
  }

  /** What is minted. */
  lemma MintedAttempt(p: Settings, a: Account, e: Env, i: nat)
    requires a.fsm.state.Confirming? && Due(a, e) && e.list.Some? && e.usage.Some?
    requires i < |e.list.value.credits| && DueTarget(p, a.fsm, e.list.value.credits, e.now, i)
    ensures var b, listed, target := Apply(p, a, Tick(e)), e.list.value, e.list.value.credits[i].id;
      && b.fsm == a.fsm.(state := Resetting, nextWake := e.later,
           attempt := ResetAttempt(e.freshId, target, Snapshot(listed.availableCount, listed.credits, e.usage.value), e.now, 0, NO_TIME))
      && b.minted == a.minted[e.freshId := target] && b.origin == a.origin[e.freshId := e]
  {
    TargetExists(a.fsm, e.list.value.credits, e.now);
  }

  /** And when nothing is: an automatic confirmation that came too early for its credit arms
      again for the trigger time; every other one is over. */
  lemma UnmintedAttempt(p: Settings, a: Account, e: Env)
    requires a.fsm.state.Confirming? && Due(a, e) && !Apply(p, a, Tick(e)).fsm.state.Resetting?
    ensures var b := Apply(p, a, Tick(e));
      var early := e.list.Some? && !a.fsm.manual && exists i: nat :: i < |e.list.value.credits| && TooEarly(p, a.fsm, e.list.value.credits, e.now, i);
      && (!early ==> Over(p, a.fsm, b.fsm, e.later))
      && (forall i: nat :: e.list.Some? && !a.fsm.manual && i < |e.list.value.credits| && TooEarly(p, a.fsm, e.list.value.credits, e.now, i) ==>
            b.fsm == a.fsm.(state := Armed, nextWake := e.list.value.credits[i].expiresAt - p.leadTime))
  {
    if e.list.Some? {
      var credits := e.list.value.credits;
      TargetExists(a.fsm, credits, e.now);
      if ConfirmTarget(a.fsm, Select(credits, e.now)).Some? {
        var i: nat :| i < |credits| && First(Wanted(a.fsm, e.now), credits, i);
        assert Apply(p, a, Tick(e)).fsm.state.Armed? ==> TooEarly(p, a.fsm, credits, e.now, i);
      }
    }
  }

  ghost predicate TooEarly(p: Settings, f: Fsm, credits: seq<Credit>, now: Time, i: nat)
    requires i < |credits|
  {
    Target(f, credits, now, i) && credits[i].expiresAt != 0 && now < credits[i].expiresAt - p.leadTime
  }

  // ---------- RESETTING ----------

  /** The five delays, in nanoseconds. */
  function DelayAfter(call: nat): int
    requires 1 <= call <= 5
  {
    (match call case 1 => 1 case 2 => 2 case 3 => 5 case 4 => 10 case _ => 30) * 60 * 1_000_000_000
  }

  /** One POST, exactly: an answer with the code reset or already_redeemed starts the
      verification one minute after the call; any other code, or an HTTP status from 400 to
      499, ends the cycle; and whatever else happens, the next call has the same key and
      target and comes 1, 2, 5, 10 or 30 minutes later, until the sixth call ends the cycle. */
  lemma ResettingTick(p: Settings, a: Account, e: Env)
    requires Attempted(a) && a.fsm.state.Resetting? && Due(a, e)
    ensures var b, f, call := Apply(p, a, Tick(e)), a.fsm, a.fsm.attempt.attempt + 1;
      && b.minted == a.minted && b.origin == a.origin && b.pinned == a.pinned
      && b.verified == a.verified && b.delivered == a.delivered
      && b.posts == a.posts + [Post(e.now, f.attempt.redeemId, f.attempt.target, call, e.consume)]
      && call <= 6
      && match e.consume
         case Response(code) =>
           if code == "reset" || code == "already_redeemed"
           then b.fsm == f.(state := Verifying, verifyDue := e.now + 60 * 1_000_000_000, nextWake := e.now + 60 * 1_000_000_000)
           else Over(p, f, b.fsm, e.later)
         case HttpError(status) =>
           if 400 <= status < 500 then Over(p, f, b.fsm, e.later) else RetriedOrOver(p, f, b.fsm, e, call)
         case NoAnswer => RetriedOrOver(p, f, b.fsm, e, call)
  {
  }

  predicate RetriedOrOver(p: Settings, f: Fsm, g: Fsm, e: Env, call: nat)
    requires 1 <= call <= 6
  {
    if call == 6 then Over(p, f, g, e.later)
    else
      var at := e.now + DelayAfter(call);
      g == f.(attempt := f.attempt.(attempt := call, nextRetryAt := at), nextWake := at)
  }

  // ---------- VERIFYING ----------

  /** A verification needs both calls: without one the cycle is over and leaves no record;
      with both it is over and leaves one, which reports success if and only if the target is
      no longer listed as available, one credit fewer is available than when the attempt was
      confirmed, and the weekly quota is full or higher than it was then. */
  lemma VerifyingTick(p: Settings, a: Account, e: Env)
    requires a.fsm.state.Verifying? && Due(a, e)
    ensures var b, t := Apply(p, a, Tick(e)), a.fsm.attempt;
      && SameHistory(a, b.(verified := a.verified))
      && if e.list.Some? && e.usage.Some? then
           var post, quota := e.list.value, e.usage.value;
           var gone := forall c :: c in post.credits && c.id == t.target ==> c.status != "available";
           var success := gone && post.availableCount == t.pre.availableCount - 1 && (quota >= 100 || quota > t.pre.weeklyPct);
           var record := ResetRecord(e.later, p.authId, t.target, success, t.pre.weeklyPct, quota,
                                     t.pre.availableCount, post.availableCount);
           && Over(p, a.fsm.(pending := Some(record)), b.fsm, e.later)
           && |b.verified| == |a.verified| + 1 && b.verified[..|a.verified|] == a.verified
           && b.verified[|a.verified|].redeemId == t.redeemId && b.verified[|a.verified|].record == record
         else b.verified == a.verified && Over(p, a.fsm, b.fsm, e.later)
  {
  }

  // ---------- everything that is not a tick ----------

  /** A manual reset leaves an attempt in flight alone; any other account, pinned or not, is
      confirming by hand at once. */
  lemma ForceAction(p: Settings, a: Account, now: Time)
    ensures var b := Apply(p, a, Force(now));
      && SameHistory(a, b) && b.clock == now && b.phase == a.phase
      && b.fsm == if a.fsm.state.Resetting? || a.fsm.state.Verifying? then a.fsm
                  else a.fsm.(state := Confirming, manual := true, scheduled := "", nextWake := now)
  {
  }

  /** So the tick after it, when both calls answer, redeems the first credit of the listing,
      expiring or not, due or not, whatever was pinned before. */
  lemma ForceTakesSoonest(p: Settings, a: Account, now: Time, e: Env, i: nat)
    requires !a.fsm.state.Resetting? && !a.fsm.state.Verifying? && Due(Apply(p, a, Force(now)), e)
    requires e.list.Some? && e.usage.Some? && i < |e.list.value.credits|
    requires First(SelectableAt(e.now), e.list.value.credits, i) && e.list.value.credits[i].id != ""
    ensures var b := Apply(p, Apply(p, a, Force(now)), Tick(e));
      && b.fsm.state.Resetting? && b.fsm.attempt.target == e.list.value.credits[i].id
      && b.fsm.attempt.redeemId == e.freshId && b.fsm.attempt.attempt == 0
  {
    var forced := Apply(p, a, Force(now));
    assert First(Wanted(forced.fsm, e.now), e.list.value.credits, i);
    MintedAttempt(p, forced, e, i);
  }

  /** A failed credential load puts the next try exactly 30 minutes off; a recovered panic one
      refresh interval off; a check at the instant it read.  None of them, nor a panic before
      the step has written anything, changes the cycle or the history. */
  lemma WakeActions(p: Settings, a: Account, act: Action)
    requires !act.Tick? && !act.Force? && !act.Sync? && !act.SyncPanic? && !(act.TickPanic? && act.point.InLog?)
    ensures var b := Apply(p, a, act);
      && SameHistory(a, b)
      && b.fsm == a.fsm.(nextWake :=
           match act
           case LoadFailed(now) => now + 30 * 60 * 1_000_000_000
           case Recover(now) => now + p.refreshInterval
           case CheckWrite(wake, _) => wake
           case _ => a.fsm.nextWake)
  {
  }

  /** A state sync delivers the waiting record, if there is one, once; one that panics does
      so if it had come that far. */
  lemma SyncActions(p: Settings, a: Account, act: Action)
    requires act.Sync? || act.SyncPanic?
    ensures var b := Apply(p, a, act);
      && b.minted == a.minted && b.posts == a.posts && b.verified == a.verified && b.pinned == a.pinned
      && (if act != SyncPanic(false) && a.fsm.pending.Some?
          then b.delivered == a.delivered + [a.fsm.pending.value] && b.fsm == a.fsm.(pending := None)
          else b.delivered == a.delivered && b.fsm == a.fsm)
  {
    if act != SyncPanic(false) && a.fsm.pending.None? { assert a.delivered + [] == a.delivered; }
  }

  /** A log call that panics leaves the history as a completed tick would, and the cycle where
      its step took it, unsettled: an ended one in DONE, and no verification record stored. */
  lemma LogPanicAction(p: Settings, a: Account, e: Env)
    ensures var b, ticked := Apply(p, a, TickPanic(e, InLog)), Apply(p, a, Tick(e));
      && SameHistory(ticked, b)
      && b.fsm.pending == a.fsm.pending
      && (if Ends(p, a, e) then
            && b.fsm.state.Done? && ticked.fsm.state.Idle? && b.fsm.scheduled == a.fsm.scheduled
            && b.fsm.attempt.redeemId == a.fsm.attempt.redeemId && b.fsm.attempt.target == a.fsm.attempt.target
          else b.fsm.state == ticked.fsm.state && b.fsm.attempt == ticked.fsm.attempt && b.fsm.scheduled == ticked.fsm.scheduled)
  {
  }

  /** The tick ends its cycle. */
  predicate Ends(p: Settings, a: Account, e: Env) {
    !a.fsm.state.Idle? && StepAndSettle(p, a.fsm, e).fsm.state.Idle?
  }
}
